/** The retire trace file byte by byte: where everything is, by the numbers of the format. */
module CtraceBytes {
  import opened Prelude
  import opened LittleEndian
  import opened CtraceFormat

  /** The column vector that a column number stands for, and its element size. */
  function Vector(c: Cols, n: nat): seq<nat>
    requires n <= 10
  {
    match n
    case 0 => c.pc
    case 1 => c.dst
    case 2 => c.val
    case 3 => c.flags
    case 4 => c.eidx
    case 5 => c.ecau
    case 6 => c.eepc
    case 7 => c.ebad
    case 8 => c.stpc
    case 9 => c.staddr
    case _ => c.stdata
  }

  function Size(n: nat): (w: nat)
    ensures 1 <= w <= 8
  {
    if n == 1 || n == 3 || n == 5 then 1 else if n == 4 then 4 else 8
  }

  /** A column holds its vector's elements end to end, least significant byte first. */
  ghost predicate Stores(c: Cols, col: Col)
  {
    && col.id <= 10 && col.esz == Size(col.id) && |col.raw| == Size(col.id) * |Vector(c, col.id)|
    && forall i :: 0 <= i < |Vector(c, col.id)| ==> HoldsAt(col, Vector(c, col.id)[i], i)
  }

  ghost predicate HoldsAt(col: Col, v: nat, i: nat)
  {
    var at := col.esz * i;
    && at + col.esz <= |col.raw|
    && (col.esz == 1 ==> col.raw[at] == v % 0x100)
    && (col.esz == 4 ==> col.raw[at..at + 4] == Four(v))
    && (col.esz == 8 ==> col.raw[at..at + 8] == Four(v) + Four(v / 0x1_0000_0000))
  }

  /** A 32-bit number's bytes in the file; higher bits are lost. */
  function Four(v: nat): (b: seq<Byte>)
    ensures |b| == 4
  {
    [v % 0x100, v / 0x100 % 0x100, v / 0x1_0000 % 0x100, v / 0x100_0000 % 0x100]
  }

  lemma {:induction false} ElemAt(v: seq<nat>, w: nat, i: nat)
    requires i < |v|
    ensures w * i + w <= |Elems(v, w)| && Elems(v, w)[w * i..w * i + w] == BytesOf(v[i], w)
  {
    hide BytesOf;
    var e := Elems(v, w);
    assert e == BytesOf(v[0], w) + Elems(v[1..], w);
    if i > 0 {
      ElemAt(v[1..], w, i - 1);
      assert w * i == w + w * (i - 1);
      assert e[w * i..w * i + w] == Elems(v[1..], w)[w * (i - 1)..w * (i - 1) + w];
    } else {
      assert w * i == 0;
    }
  }

  lemma PutStores(c: Cols, n: Byte)
    requires n <= 10
    ensures forall col :: col in Put(n, Size(n), Vector(c, n)) ==> Stores(c, col) && col.id == n
    ensures Put(n, Size(n), Vector(c, n)) == [] <==> Vector(c, n) == []
  {
    hide Elems, BytesOf, Vector;
    var v, w := Vector(c, n), Size(n);
    if v != [] {
      var col := Col(n, w, Elems(v, w));
      forall i | 0 <= i < |v|
        ensures HoldsAt(col, v[i], i)
      {
        ElemAt(v, w, i);
        FourBytes(v[i]);
        FourBytes(v[i] / 0x1_0000_0000);
        EightBytes(v[i]);
        OneByte(v[i]);
        hide Size;
      }
    }
  }

  lemma OneByte(v: nat)
    ensures BytesOf(v, 1) == [v % 0x100]
  {
  }

  // ---- the columns of a chunk ----

  /** The columns numbered below n. */
  ghost function Below(c: Cols, n: nat): seq<Col>
    requires n <= 11
  {
    if n == 0 then [] else Below(c, n - 1) + Put(n - 1, Size(n - 1), Vector(c, n - 1))
  }

  lemma BelowMore(c: Cols, n: nat)
    requires 0 < n <= 11
    ensures Below(c, n) == Below(c, n - 1) + Put(n - 1, Size(n - 1), Vector(c, n - 1))
  {
  }

  lemma BelowAll(c: Cols)
    ensures Below(c, 11) == ColumnsOf(c)
  {
    hide Put, Below;
    NoneBelow(c);
    BelowMore(c, 1);
    BelowMore(c, 2);
    BelowMore(c, 3);
    BelowMore(c, 4);
    BelowMore(c, 5);
    BelowMore(c, 6);
    BelowMore(c, 7);
    BelowMore(c, 8);
    BelowMore(c, 9);
    BelowMore(c, 10);
    BelowMore(c, 11);
    assert Below(c, 1) == Put(0, 8, c.pc);
  }

  /** In order of number, each with its own vector, and only the empty vectors without one. */
  ghost predicate InOrder(c: Cols, cols: seq<Col>, n: nat)
    requires n <= 11
  {
    && (forall i :: 0 <= i < |cols| ==> Stores(c, cols[i]) && cols[i].id < n)
    && (forall i, j :: 0 <= i < j < |cols| ==> cols[i].id < cols[j].id)
    && (forall m :: 0 <= m < n ==> (Has(cols, m) <==> Vector(c, m) != []))
  }

  ghost predicate Has(cols: seq<Col>, m: nat) { exists i :: 0 <= i < |cols| && cols[i].id == m }

  lemma NoneBelow(c: Cols)
    ensures Below(c, 0) == []
  {
  }

  lemma NoneInOrder(c: Cols)
    ensures InOrder(c, [], 0)
  {
  }

  lemma {:induction false} BelowInOrder(c: Cols, n: nat)
    requires n <= 11
    ensures InOrder(c, Below(c, n), n)
  {
    hide InOrder, Stores, Vector, Size, Put, Below;
    if n == 0 {
      NoneBelow(c);
      NoneInOrder(c);
    } else {
      BelowInOrder(c, n - 1);
      PutStores(c, n - 1);
      OneMore(c, Below(c, n - 1), Put(n - 1, Size(n - 1), Vector(c, n - 1)), n - 1);
      BelowMore(c, n);
    }
  }

  lemma OneMore(c: Cols, cols: seq<Col>, more: seq<Col>, n: nat)
    requires n <= 10 && InOrder(c, cols, n) && |more| <= 1 && (more == [] <==> Vector(c, n) == [])
    requires forall col :: col in more ==> Stores(c, col) && col.id == n
    ensures InOrder(c, cols + more, n + 1)
  {
    hide Stores, Vector;
    var all := cols + more;
    forall m | 0 <= m < n + 1
      ensures Has(all, m) <==> Vector(c, m) != []
    {
      if Has(cols, m) {
        var i :| 0 <= i < |cols| && cols[i].id == m;
        assert all[i].id == m;
      }
      if m == n && more != [] { assert all[|cols|].id == m; }
    }
  }

  // ---- the bytes of a chunk ----

  /** Where body i starts, after header and table. */
  function BodyAt(k: Codec, cols: seq<Col>, i: nat): nat
    requires i <= |cols|
  {
    if i == 0 then 8 + 10 * |cols| else BodyAt(k, cols, i - 1) + |k.comp(cols[i - 1].raw)|
  }

  lemma {:induction false} TableAt(k: Codec, cols: seq<Col>, i: nat)
    requires i < |cols|
    ensures Table(k, cols)[10 * i..10 * i + 10] == Entry(k, cols[i])
  {
    hide Entry;
    if i > 0 {
      TableAt(k, cols[1..], i - 1);
      assert Table(k, cols)[10 * i..10 * i + 10] == Table(k, cols[1..])[10 * (i - 1)..10 * (i - 1) + 10];
    }
  }

  lemma {:induction false} BodiesAt(k: Codec, cols: seq<Col>, b: seq<Byte>, i: nat)
    requires i <= |cols| && |b| == 8 + 10 * |cols|
    ensures BodyAt(k, cols, i) + |Bodies(k, cols[i..])| == |b + Bodies(k, cols)|
    ensures (b + Bodies(k, cols))[BodyAt(k, cols, i)..] == Bodies(k, cols[i..])
  {
    if i == 0 {
      assert cols[0..] == cols;
    } else {
      BodiesAt(k, cols, b, i - 1);
      assert cols[i - 1..][1..] == cols[i..];
    }
  }

  /** The ten bytes of column i: number, element size, then its size before and after compression. */
  ghost predicate EntryAt(k: Codec, b: seq<Byte>, cols: seq<Col>, i: nat)
    requires i < |cols|
  {
    var at := 8 + 10 * i;
    at + 10 <= |b| && b[at..at + 10] == [cols[i].id, cols[i].esz] + Four(|cols[i].raw|) + Four(|k.comp(cols[i].raw)|)
  }

  ghost predicate BodyIn(k: Codec, b: seq<Byte>, cols: seq<Col>, i: nat)
    requires i < |cols|
  {
    var at, x := BodyAt(k, cols, i), k.comp(cols[i].raw);
    at + |x| <= |b| && b[at..at + |x|] == x
  }

  /** A chunk starts with its record count and column count; ten bytes a column follow, then the
      compressed columns end to end up to its last byte. The columns are in order of number, each
      with its own vector's bytes, and only the empty vectors are without one. */
  lemma ChunkLayout(k: Codec, c: Cols)
    ensures var b, cols := EncodeChunk(k, c), ColumnsOf(c);
            && InOrder(c, cols, 11) && BodyAt(k, cols, |cols|) == |b|
            && b[..8] == Four(|c.pc|) + Four(|cols|)
            && (forall i :: 0 <= i < |cols| ==> EntryAt(k, b, cols, i) && BodyIn(k, b, cols, i))
  {
    hide Table, Bodies, ColumnsOf, InOrder, Four, EntryAt, BodyIn, BytesOf;
    var b, cols := EncodeChunk(k, c), ColumnsOf(c);
    BelowAll(c);
    BelowInOrder(c, 11);
    FourIs(|c.pc|);
    FourIs(|cols|);
    var head := BytesOf(|c.pc|, 4) + BytesOf(|cols|, 4);
    assert b == (head + Table(k, cols)) + Bodies(k, cols);
    BodiesAt(k, cols, head + Table(k, cols), |cols|);
    NoBodies(k);
    assert cols[|cols|..] == [];
    forall i | 0 <= i < |cols|
      ensures EntryAt(k, b, cols, i) && BodyIn(k, b, cols, i)
    {
      EntryInPlace(k, cols, head, i);
      BodyInPlace(k, cols, head + Table(k, cols), i);
    }
  }

  lemma EntryInPlace(k: Codec, cols: seq<Col>, head: seq<Byte>, i: nat)
    requires i < |cols| && |head| == 8
    ensures EntryAt(k, (head + Table(k, cols)) + Bodies(k, cols), cols, i)
  {
    hide Table, Bodies, Entry, Four;
    var b, at := (head + Table(k, cols)) + Bodies(k, cols), 8 + 10 * i;
    TableAt(k, cols, i);
    EntryBytes(k, cols[i]);
    assert b[at..at + 10] == Table(k, cols)[10 * i..10 * i + 10];
  }

  lemma BodyInPlace(k: Codec, cols: seq<Col>, head: seq<Byte>, i: nat)
    requires i < |cols| && |head| == 8 + 10 * |cols|
    ensures BodyIn(k, head + Bodies(k, cols), cols, i)
  {
    hide Bodies, BodyAt;
    var b, at, x := head + Bodies(k, cols), BodyAt(k, cols, i), k.comp(cols[i].raw);
    BodiesAt(k, cols, head, i);
    FirstBody(k, cols, i);
    assert b[at..][..|x|] == x;
    assert b[at..at + |x|] == b[at..][..|x|];
  }

  lemma FourIs(v: nat)
    ensures BytesOf(v, 4) == Four(v)
  {
    FourBytes(v);
  }

  lemma NoBodies(k: Codec)
    ensures Bodies(k, []) == []
  {
  }

  lemma FirstBody(k: Codec, cols: seq<Col>, i: nat)
    requires i < |cols|
    ensures k.comp(cols[i].raw) <= Bodies(k, cols[i..])
  {
  }

  lemma EntryBytes(k: Codec, c: Col)
    ensures Entry(k, c) == [c.id, c.esz] + Four(|c.raw|) + Four(|k.comp(c.raw)|)
  {
    FourIs(|c.raw|);
    FourIs(|k.comp(c.raw)|);
  }

  // ---- the bytes of a file ----

  function Text(s: string): (b: seq<nat>)
    ensures |b| == |s|
  {
    seq(|s|, i requires 0 <= i < |s| => s[i] as nat)
  }

  /** Where chunk i starts. */
  function ChunkAt(k: Codec, chunks: seq<Cols>, i: nat): nat
    requires i <= |chunks|
  {
    if i == 0 then 8 else ChunkAt(k, chunks, i - 1) + |EncodeChunk(k, chunks[i - 1])|
  }

  lemma {:induction false} ChunksAt(k: Codec, chunks: seq<Cols>, i: nat)
    requires i <= |chunks|
    ensures ChunkAt(k, chunks, i) + |EncodeAll(k, chunks[i..])| == 8 + |EncodeAll(k, chunks)|
    ensures (MAGIC + EncodeAll(k, chunks))[ChunkAt(k, chunks, i)..] == EncodeAll(k, chunks[i..])
  {
    hide EncodeChunk;
    if i == 0 {
      assert chunks[0..] == chunks;
    } else {
      ChunksAt(k, chunks, i - 1);
      assert chunks[i - 1..][1..] == chunks[i..];
    }
  }

  ghost predicate ChunkIn(k: Codec, f: seq<Byte>, chunks: seq<Cols>, i: nat)
    requires i < |chunks|
  {
    var at, x := ChunkAt(k, chunks, i), EncodeChunk(k, chunks[i]);
    at + |x| <= |f| && f[at..at + |x|] == x
  }

  /** A file starts with the text R9TRACE1; its chunks follow end to end; once closed it ends with the
      chunk count and the record count, eight bytes each, and the text R9TRAILR. */
  lemma FileLayout(k: Codec, l: Log)
    ensures var f, n := FileOf(k, l), |l.chunks|;
            && Text("R9TRACE1") <= f && |f| == ChunkAt(k, l.chunks, n) + (if l.open then 0 else 24)
            && (forall i :: 0 <= i < n ==> ChunkIn(k, f, l.chunks, i))
            && (!l.open ==> f[|f| - 24..] == Four(n) + Four(n / 0x1_0000_0000) + Four(Total(l.chunks))
                                              + Four(Total(l.chunks) / 0x1_0000_0000) + Text("R9TRAILR"))
  {
    hide EncodeChunk, Total, Four, EncodeAll, Text, ChunkIn, FileOf, Trailer;
    var f, n, e := FileOf(k, l), |l.chunks|, EncodeAll(k, l.chunks);
    var tail := if l.open then [] else Trailer(n, Total(l.chunks));
    FileParts(k, l, tail);
    ChunksAt(k, l.chunks, n);
    assert l.chunks[n..] == [];
    NoChunks(k);
    Texts();
    TrailerBytes(n, Total(l.chunks));
    forall i | 0 <= i < n
      ensures ChunkIn(k, f, l.chunks, i)
    {
      ChunkInPlace(k, l.chunks, tail, i);
    }
  }

  lemma FileParts(k: Codec, l: Log, tail: seq<Byte>)
    requires tail == if l.open then [] else Trailer(|l.chunks|, Total(l.chunks))
    ensures FileOf(k, l) == (MAGIC + EncodeAll(k, l.chunks)) + tail
  {
    hide EncodeAll, Trailer, Total;
  }

  lemma NoChunks(k: Codec)
    ensures EncodeAll(k, []) == []
  {
  }

  lemma Texts()
    ensures Text("R9TRACE1") == MAGIC && Text("R9TRAILR") == TRAILR
  {
  }

  lemma TrailerBytes(n: nat, total: nat)
    ensures Trailer(n, total) == Four(n) + Four(n / 0x1_0000_0000) + Four(total) + Four(total / 0x1_0000_0000)
                                 + Text("R9TRAILR")
  {
    hide Four, Text, BytesOf;
    EightIs(n);
    EightIs(total);
    Texts();
  }

  lemma ChunkInPlace(k: Codec, chunks: seq<Cols>, tail: seq<Byte>, i: nat)
    requires i < |chunks|
    ensures ChunkIn(k, (MAGIC + EncodeAll(k, chunks)) + tail, chunks, i)
  {
    hide EncodeChunk, EncodeAll, ChunkAt;
    var f, at, x := MAGIC + EncodeAll(k, chunks), ChunkAt(k, chunks, i), EncodeChunk(k, chunks[i]);
    ChunksAt(k, chunks, i);
    FirstChunk(k, chunks, i);
    assert f[at..][..|x|] == x;
    assert (f + tail)[at..at + |x|] == f[at..][..|x|];
  }

  lemma FirstChunk(k: Codec, chunks: seq<Cols>, i: nat)
    requires i < |chunks|
    ensures EncodeChunk(k, chunks[i]) <= EncodeAll(k, chunks[i..])
  {
    hide EncodeChunk;
  }

  lemma EightIs(v: nat)
    ensures BytesOf(v, 8) == Four(v) + Four(v / 0x1_0000_0000)
  {
    EightBytes(v);
    FourIs(v);
    FourIs(v / 0x1_0000_0000);
  }
}
