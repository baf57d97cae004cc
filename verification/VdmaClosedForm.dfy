/**
 The walk without its loops: where every line starts, which doublewords it sends, where the
 address register ends and how many doublewords there are.
 */
module VdmaClosedForm {
  import opened Prelude
  import opened Modular
  import opened Vdma

  // ---- the closed form ----

  /** How many of the first n lines were copied at all: the first by the count register's zoom,
      the others by the stride register's. */
  function Entered(j: Job, n: nat): nat
  {
    (if n > 0 && j.FirstZoom() > 0 then 1 else 0) + if n > 1 && j.LineZoom() > 0 then n - 1 else 0
  }

  /** The bytes passed over by k lines: the first by the count register's length. */
  function Passed(j: Job, k: nat): int
  {
    if k > 0 then j.FirstBytes() + (k - 1) * j.Width() else 0
  }

  /** Where line n starts. */
  function Start(j: Job, n: nat): Word32
  {
    Wrap32(j.memadr + n * j.Stride() + Passed(j, Entered(j, n)))
  }

  /** Line n's copies, and the length of the first of them. */
  function Zoom(j: Job, n: nat): nat { if n == 0 then j.FirstZoom() else j.LineZoom() }

  function Length(j: Job, n: nat): nat { if Entered(j, n) == 0 then j.FirstBytes() else j.Width() }

  function Repeat(x: seq<Lanes>, n: nat): seq<Lanes> { if n == 0 then [] else x + Repeat(x, n - 1) }

  /** A line of so many copies from m, the first of b bytes: the others are whole lines ending at
      the same byte. */
  function LineOut(c: Machine, w: nat, m: Word32, b: nat, zoom: nat): seq<Lanes>
    requires c.Ok()
  {
    if zoom == 0 then [] else Copy(c, m, b) + Repeat(Copy(c, Wrap32(m + b - w), w), zoom - 1)
  }

  /** Lines n and on. */
  function Stream(c: Machine, j: Job, n: nat): seq<Lanes>
    requires c.Ok() && n <= j.Lines()
    decreases j.Lines() - n
  {
    if n == j.Lines() then [] else LineOut(c, j.Width(), Start(j, n), Length(j, n), Zoom(j, n)) + Stream(c, j, n + 1)
  }

  // ---- one line ----

  /** What is left after a line, and what the line sent. */
  lemma {:induction false} LineClosed(c: Machine, s: Shape, m: Word32, b: nat, zoom: nat, lines: nat)
    requires c.Ok()
    ensures LineRest(c, s, m, b, zoom, lines)
            == WalkRest(c, s, Wrap32(m + s.stride + if zoom > 0 then b else 0), if zoom > 0 then s.width else b,
                        s.zoom, lines)
               .After(LineOut(c, s.width, m, b, zoom))
    decreases zoom
  {
    hide Copy, WalkRest, LineRest, Wrap32;
    var w := s.width;
    if zoom == 0 {
      NoCopy(c, s, m, b, lines);
    } else {
      WrapNext3(m, b, s.stride, w);
      CopyOnce(c, s, m, b, zoom, lines);
      var first, m1 := Copy(c, m, b), Wrap32(m + b);
      if zoom == 1 {
        NoCopy(c, s, m1, w, lines);
        AfterAfter(WalkRest(c, s, Wrap32(m1 + s.stride), w, s.zoom, lines), [], first);
        assert LineOut(c, w, m, b, 1) == first + [];
      } else {
        var m2 := Wrap32(m1 - w);
        LineClosed(c, s, m2, w, zoom - 1, lines);
        var x := Copy(c, m2, w);
        assert m2 == Wrap32(m + b - w) == Wrap32(m2 + w - w);
        assert LineOut(c, w, m2, w, zoom - 1) == x + Repeat(x, zoom - 2) == Repeat(x, zoom - 1);
        assert Wrap32(m2 + s.stride + w) == Wrap32(m + s.stride + b);
        AfterAfter(WalkRest(c, s, Wrap32(m + s.stride + b), w, s.zoom, lines), Repeat(x, zoom - 1), first);
      }
    }
  }

  lemma NoCopy(c: Machine, s: Shape, m: Word32, b: nat, lines: nat)
    requires c.Ok()
    ensures LineRest(c, s, m, b, 0, lines) == WalkRest(c, s, Wrap32(m + s.stride), b, s.zoom, lines).After([])
  {
    hide WalkRest;
    var r := WalkRest(c, s, Wrap32(m + s.stride), b, s.zoom, lines);
    assert [] + r.out == r.out;
  }

  lemma CopyOnce(c: Machine, s: Shape, m: Word32, b: nat, zoom: nat, lines: nat)
    requires c.Ok() && zoom > 0
    ensures var m1 := Wrap32(m + b);
            LineRest(c, s, m, b, zoom, lines)
            == LineRest(c, s, if zoom > 1 then Wrap32(m1 - s.width) else m1, s.width, zoom - 1, lines)
               .After(Copy(c, m, b))
  {
    hide Copy, WalkRest, Wrap32;
    var m1 := Wrap32(m + b);
    assert LineRest(c, s, m, b, zoom, lines) == CopyRest(c, s, m, b, zoom - 1, lines);
    assert CopyRest(c, s, m, b, zoom - 1, lines) == AfterCopy(c, s, m1, zoom - 1, lines).After(Copy(c, m, b));
    AfterMeans(c, s, m1, zoom - 1, lines);
  }

  lemma AfterMeans(c: Machine, s: Shape, m: Word32, zoom: nat, lines: nat)
    requires c.Ok()
    ensures AfterCopy(c, s, m, zoom, lines)
            == LineRest(c, s, if zoom > 0 then Wrap32(m - s.width) else m, s.width, zoom, lines)
  {
    hide LineRest;
  }

  /** Wrapping step by step is wrapping once. */
  lemma WrapNext3(m: int, b: int, d: int, w: int)
    ensures Wrap32(Wrap32(m + b) + d) == Wrap32(m + d + b)
    ensures Wrap32(Wrap32(m + b) - w) == Wrap32(m + b - w)
    ensures Wrap32(Wrap32(Wrap32(m + b) - w) + d + w) == Wrap32(m + d + b)
    ensures Wrap32(Wrap32(Wrap32(m + b) - w) + w - w) == Wrap32(m + b - w)
  {
    WrapTwice(m + b, d);
    WrapTwice(m + b, -w);
    WrapTwice(m + b - w, d + w);
    WrapTwice(m + b - w, 0);
  }

  // ---- all lines ----

  /** The next line's start, from this one's. */
  lemma StartStep(j: Job, n: nat)
    ensures Wrap32(Start(j, n) + j.Stride() + if Zoom(j, n) > 0 then Length(j, n) else 0) == Start(j, n + 1)
    ensures Length(j, n + 1) == if Zoom(j, n) > 0 then j.Width() else Length(j, n)
  {
    var k, k' := Entered(j, n), Entered(j, n + 1);
    assert k' == k + if Zoom(j, n) > 0 then 1 else 0;
    var d := j.Stride() + if Zoom(j, n) > 0 then Length(j, n) else 0;
    var x := j.memadr + n * j.Stride() + Passed(j, k);
    PassedMore(j, k);
    hide Passed, Entered, Zoom, Wrap32;
    OneMoreStep(n, j.Stride());
    WrapTwice(x, d);
  }

  lemma PassedMore(j: Job, k: nat)
    ensures Passed(j, k + 1) == Passed(j, k) + if k == 0 then j.FirstBytes() else j.Width()
  {
    if k > 0 { assert k * j.Width() == (k - 1) * j.Width() + j.Width(); }
  }

  lemma OneMoreStep(n: nat, d: int)
    ensures (n + 1) * d == n * d + d
  {
  }

  lemma {:induction false} WalkClosed(c: Machine, j: Job, n: nat)
    requires c.Ok() && n <= j.Lines()
    ensures WalkRest(c, j.Consts(), Start(j, n), Length(j, n), Zoom(j, n), j.Lines() - n)
            == Result(Stream(c, j, n), Start(j, j.Lines()))
    decreases j.Lines() - n
  {
    hide Copy, LineOut, Start, Length, LineRest, Entered;
    if n < j.Lines() {
      LineClosed(c, j.Consts(), Start(j, n), Length(j, n), Zoom(j, n), j.Lines() - n - 1);
      StartStep(j, n);
      WalkClosed(c, j, n + 1);
    }
  }

  lemma StartsAt(j: Job)
    ensures Start(j, 0) == j.memadr && Entered(j, 0) == 0
  {
  }

  /** The transfer sends exactly the lines at their starts, and leaves the address register where
      the line after the last would start. */
  lemma TransferClosed(c: Machine, j: Job)
    requires c.Ok()
    ensures Transfer(c, j).out == Stream(c, j, 0)
    ensures var k := Entered(j, j.Lines());
            Transfer(c, j).end
            == Wrap32(j.memadr + j.Lines() * j.Stride() + if k > 0 then j.FirstBytes() + (k - 1) * j.Width() else 0)
  {
    hide WalkRest, Stream;
    WalkClosed(c, j, 0);
    StartsAt(j);
  }

  // ---- how many ----

  function Doublewords(n: nat): nat { (n + 7) / 8 }

  lemma {:induction false} CopyCount(c: Machine, m: Word32, n: nat)
    requires c.Ok()
    ensures |Copy(c, m, n)| == Doublewords(n)
    decreases n
  {
    if n > 0 {
      var len := if n < 8 then n else 8;
      CopyCount(c, Wrap32(m + len), n - len);
    }
  }

  lemma {:induction false} RepeatCount(x: seq<Lanes>, n: nat)
    ensures |Repeat(x, n)| == n * |x|
  {
    if n > 0 {
      RepeatCount(x, n - 1);
      assert n * |x| == (n - 1) * |x| + |x|;
    }
  }

  /** The copies of the lines from n on. */
  function Passes(j: Job, n: nat): nat
    requires n <= j.Lines()
  {
    if n == j.Lines() then 0 else Zoom(j, n) + Times(j.Lines() - n - 1, j.LineZoom())
  }

  function Times(a: nat, b: nat): nat { a * b }

  lemma {:induction false} StreamCount(c: Machine, j: Job, n: nat)
    requires c.Ok() && n <= j.Lines()
    ensures var p := Passes(j, n);
            |Stream(c, j, n)| == if p > 0 then Doublewords(Length(j, n)) + (p - 1) * Doublewords(j.Width()) else 0
    decreases j.Lines() - n
  {
    if n < j.Lines() {
      hide Entered, Start, Copy, Repeat;
      var z, w := Zoom(j, n), j.Width();
      StreamCount(c, j, n + 1);
      StartStep(j, n);
      LineCount(c, w, Start(j, n), Length(j, n), z);
      PassesStep(j, n);
      Distribute(z, Passes(j, n + 1), Doublewords(w));
    }
  }

  lemma PassesStep(j: Job, n: nat)
    requires n < j.Lines()
    ensures Passes(j, n) == Zoom(j, n) + Passes(j, n + 1)
  {
    var r := j.Lines() - n - 1;
    if r > 0 { assert r * j.LineZoom() == (r - 1) * j.LineZoom() + j.LineZoom(); }
  }

  lemma Distribute(z: nat, p: nat, d: nat)
    ensures z > 0 && p > 0 ==> (z - 1) * d + (d + (p - 1) * d) == (z + p - 1) * d
  {
    if z > 0 && p > 0 { assert (z + p - 1) * d == (z - 1) * d + p * d && p * d == d + (p - 1) * d; }
  }

  lemma LineCount(c: Machine, w: nat, m: Word32, b: nat, zoom: nat)
    requires c.Ok()
    ensures |LineOut(c, w, m, b, zoom)| == if zoom > 0 then Doublewords(b) + (zoom - 1) * Doublewords(w) else 0
  {
    if zoom > 0 {
      var x := Copy(c, Wrap32(m + b - w), w);
      CopyCount(c, m, b);
      CopyCount(c, Wrap32(m + b - w), w);
      RepeatCount(x, zoom - 1);
    }
  }

  /** The number of doublewords of a transfer. */
  lemma TransferCount(c: Machine, j: Job)
    requires c.Ok()
    ensures var p := if j.Lines() > 0 then j.FirstZoom() + (j.Lines() - 1) * j.LineZoom() else 0;
            |Transfer(c, j).out|
            == if p > 0 then (j.FirstBytes() + 7) / 8 + (p - 1) * ((j.Width() + 7) / 8) else 0
  {
    TransferClosed(c, j);
    StreamCount(c, j, 0);
  }
}
