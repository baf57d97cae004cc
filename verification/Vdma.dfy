/**
 The MC's memory-to-GIO walk: address translation, the doublewords it packs, and the nested
 line / zoom / byte loops of the two reference programs, proved against one recursive walk.
 */
module Vdma {
  import opened Prelude
  import opened Modular
  import opened LittleEndian

  /** Physical memory and the four-entry DMA TLB. */
  datatype Machine = Machine(phys: Word32 -> Byte, hi: seq<Word32>, lo: seq<Word32>)
  {
    predicate Ok() { |hi| == |lo| == 4 }
  }

  // ---- translation ----

  /** Big-endian word at a word-aligned address. */
  function Be32(c: Machine, pa: Word32): Word32
    requires pa % 4 == 0
  {
    c.phys(pa) * 0x100_0000 + c.phys(pa + 1) * 0x1_0000 + c.phys(pa + 2) * 0x100 + c.phys(pa + 3)
  }

  /** Bits 25..6 of a word: a 4 KB page number. */
  function PageOf(w: Word32): (p: nat)
    ensures p < 0x10_0000
  {
    w / 64 % 0x10_0000
  }

  /** The first entry from e on that maps the address. */
  function Entry(c: Machine, va: Word32, e: nat): (r: Option<nat>)
    requires c.Ok() && e <= 4
    ensures r.Some? ==> e <= r.value < 4 && va / 0x40_0000 == c.hi[r.value] / 0x40_0000
    ensures forall j :: e <= j < (if r.Some? then r.value else 4) ==> va / 0x40_0000 != c.hi[j] / 0x40_0000
    decreases 4 - e
  {
    if e == 4 then None else if va / 0x40_0000 == c.hi[e] / 0x40_0000 then Some(e) else Entry(c, va, e + 1)
  }

  function PteAddr(c: Machine, va: Word32, e: nat): (pa: Word32)
    requires c.Ok() && e < 4
    ensures pa % 4 == 0
  {
    PageOf(c.lo[e]) * 4096 + va / 4096 % 1024 * 4
  }

  function Translate(c: Machine, va: Word32): Word32
    requires c.Ok()
  {
    var e := Entry(c, va, 0);
    if e.Some? then PageOf(Be32(c, PteAddr(c, va, e.value))) * 4096 + va % 4096 else va
  }

  /** The byte at a virtual address. */
  function Fetch(c: Machine, va: Word32): Byte
    requires c.Ok()
  {
    c.phys(Translate(c, va))
  }

  // ---- doublewords ----

  /** Eight lanes; lane i is bits 8i+7 .. 8i. */
  type Lanes = l: seq<Byte> | |l| == 8 witness [0, 0, 0, 0, 0, 0, 0, 0]

  const CLEAR: Lanes := [0, 0, 0, 0, 0, 0, 0, 0]

  function Reversed(l: seq<Byte>): (r: seq<Byte>)
    ensures |r| == |l| && forall i :: 0 <= i < |l| ==> r[i] == l[|l| - 1 - i]
  {
    seq(|l|, i requires 0 <= i < |l| => l[|l| - 1 - i])
  }

  /** The byte swap of a 64-bit number. */
  function Bswap64(v: nat): nat { Value(Reversed(BytesOf(v, 8))) }

  function Lane(c: Machine, m: Word32, n: nat, i: nat): Byte
    requires c.Ok()
  {
    if i < n then Fetch(c, Wrap32(m + i)) else 0
  }

  /** The doubleword of n bytes from a virtual address, the other lanes clear. */
  function Pack(c: Machine, m: Word32, n: nat): (l: Lanes)
    requires c.Ok() && n <= 8
  {
    seq(8, i requires 0 <= i < 8 => Lane(c, m, n, i))
  }

  // ---- the walk ----

  /** The transfer's constants: line width in bytes, copies of each line, and the signed step from
      one line to the next. */
  datatype Shape = Shape(width: nat, zoom: nat, stride: int)

  datatype Result = Result(out: seq<Lanes>, end: Word32)
  {
    function After(pre: seq<Lanes>): Result { Result(pre + out, end) }
  }

  /** The doublewords of n bytes. */
  function Copy(c: Machine, m: Word32, n: nat): (out: seq<Lanes>)
    requires c.Ok()
    decreases n
  {
    if n == 0 then [] else
      var len := if n < 8 then n else 8;
      [Pack(c, m, len)] + Copy(c, Wrap32(m + len), n - len)
  }

  /** From the middle of a copy with b bytes left. */
  function CopyRest(c: Machine, s: Shape, m: Word32, b: nat, zoom: nat, lines: nat): Result
    requires c.Ok()
    decreases lines, zoom, 3
  {
    AfterCopy(c, s, Wrap32(m + b), zoom, lines).After(Copy(c, m, b))
  }

  /** From the end of a copy: back to the line's start if another copy follows. */
  function AfterCopy(c: Machine, s: Shape, m: Word32, zoom: nat, lines: nat): Result
    requires c.Ok()
    decreases lines, zoom, 2
  {
    LineRest(c, s, if zoom > 0 then Wrap32(m - s.width) else m, s.width, zoom, lines)
  }

  /** From inside a line with so many copies to start. */
  function LineRest(c: Machine, s: Shape, m: Word32, b: nat, zoom: nat, lines: nat): Result
    requires c.Ok()
    decreases lines, zoom, 1
  {
    if zoom == 0 then WalkRest(c, s, Wrap32(m + s.stride), b, s.zoom, lines)
    else CopyRest(c, s, m, b, zoom - 1, lines)
  }

  /** From between two lines. */
  function WalkRest(c: Machine, s: Shape, m: Word32, b: nat, zoom: nat, lines: nat): Result
    requires c.Ok()
    decreases lines, 0, 0
  {
    if lines == 0 then Result([], m) else LineRest(c, s, m, b, zoom, lines - 1)
  }

  lemma AfterAfter(r: Result, a: seq<Lanes>, b: seq<Lanes>)
    ensures r.After(a).After(b) == r.After(b + a)
  {
    assert b + (a + r.out) == (b + a) + r.out;
  }

  // ---- the registers ----

  datatype Job = Job(memadr: Word32, size: Word32, stride: Word32, count: Word32)
  {
    function Lines(): nat { size / 0x1_0000 }
    function Width(): nat { size % 0x1_0000 }
    function LineZoom(): nat { stride / 0x1_0000 % 0x400 }
    function FirstZoom(): nat { count / 0x1_0000 % 0x400 }
    function FirstBytes(): nat { count % 0x1_0000 }

    /** The low half of the stride register, as a signed 16-bit number. */
    function Stride(): int { if stride % 0x1_0000 < 0x8000 then stride % 0x1_0000 else stride % 0x1_0000 - 0x1_0000 }

    function Consts(): Shape { Shape(Width(), LineZoom(), Stride()) }
  }

  /** The whole transfer. */
  function Transfer(c: Machine, j: Job): Result
    requires c.Ok()
  {
    WalkRest(c, j.Consts(), j.memadr, j.FirstBytes(), j.FirstZoom(), j.Lines())
  }

  function Values(out: seq<Lanes>): (v: seq<nat>)
    ensures |v| == |out|
  {
    seq(|out|, i requires 0 <= i < |out| => Value(out[i]))
  }

  /** High and low words of a doubleword. */
  function Words(l: Lanes): (nat, nat) { (Value(l[4..]), Value(l[..4])) }

  function AllWords(out: seq<Lanes>): (v: seq<(nat, nat)>)
    ensures |v| == |out|
  {
    seq(|out|, i requires 0 <= i < |out| => Words(out[i]))
  }

  // ---- the walk, one step at a time ----

  lemma WalkStep(c: Machine, s: Shape, m: Word32, b: nat, zoom: nat, lines: nat)
    requires c.Ok() && lines > 0
    ensures WalkRest(c, s, m, b, zoom, lines) == LineRest(c, s, m, b, zoom, lines - 1)
  {
  }

  lemma WalkEnd(c: Machine, s: Shape, m: Word32, b: nat, zoom: nat)
    requires c.Ok()
    ensures WalkRest(c, s, m, b, zoom, 0) == Result([], m)
  {
  }

  lemma LineStep(c: Machine, s: Shape, m: Word32, b: nat, zoom: nat, lines: nat)
    requires c.Ok() && zoom > 0
    ensures LineRest(c, s, m, b, zoom, lines) == CopyRest(c, s, m, b, zoom - 1, lines)
  {
  }

  lemma LineEnd(c: Machine, s: Shape, m: Word32, b: nat, lines: nat)
    requires c.Ok()
    ensures LineRest(c, s, m, b, 0, lines) == WalkRest(c, s, Wrap32(m + s.stride), b, s.zoom, lines)
  {
  }

  lemma CopyStep(c: Machine, s: Shape, m: Word32, b: nat, zoom: nat, lines: nat, sent: seq<Lanes>)
    requires c.Ok() && b > 0
    ensures var len := if b < 8 then b else 8;
            CopyRest(c, s, m, b, zoom, lines).After(sent)
            == CopyRest(c, s, Wrap32(m + len), b - len, zoom, lines).After(sent + [Pack(c, m, len)])
  {
    hide Pack, AfterCopy;
    var len := if b < 8 then b else 8;
    WrapMore(m, len, b);
    var rest := Copy(c, Wrap32(m + len), b - len);
    var after := AfterCopy(c, s, Wrap32(m + b), zoom, lines).out;
    assert sent + (([Pack(c, m, len)] + rest) + after) == (sent + [Pack(c, m, len)]) + (rest + after);
  }

  lemma WrapMore(m: nat, len: nat, b: nat)
    requires len <= b
    ensures Wrap32(Wrap32(m + len) + (b - len)) == Wrap32(m + b)
  {
    WrapNext(m + len, b - len);
  }

  lemma CopyEnd(c: Machine, s: Shape, m: Word32, zoom: nat, lines: nat)
    requires c.Ok()
    ensures CopyRest(c, s, m, 0, zoom, lines)
            == LineRest(c, s, if zoom > 0 then Wrap32(m - s.width) else m, s.width, zoom, lines)
  {
    hide LineRest;
  }
}
