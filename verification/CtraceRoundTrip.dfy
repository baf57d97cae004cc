/**
 Reading back what was written: the whole file gives every record, every store logged before the
 last chunk, and a matching trailer; a file cut anywhere but inside a chunk's column table gives
 exactly the complete chunks.
 */
module CtraceRoundTrip {
  import opened Prelude
  import opened LittleEndian
  import opened CtraceFormat
  import opened CtraceLog
  import opened CtraceReader

  // ---- sizes the format can carry ----

  predicate ColFits(k: Codec, c: Col) { |c.raw| < TWO32 && |k.comp(c.raw)| < TWO32 }

  /** At least one record, and every count and size within its 32-bit field. */
  ghost predicate ChunkFits(k: Codec, c: Cols)
  {
    c.pc != [] && |c.pc| < TWO32 && forall col :: col in ColumnsOf(c) ==> ColFits(k, col)
  }

  ghost predicate AllFit(k: Codec, chunks: seq<Cols>)
  {
    forall i :: 0 <= i < |chunks| ==> ChunkFits(k, chunks[i])
  }

  // ---- numbers ----

  lemma Word4Of(f: seq<Byte>, pos: nat, v: nat)
    requires pos + 4 <= |f| && v < TWO32 && f[pos..pos + 4] == BytesOf(v, 4)
    ensures Word4(f, pos) == v
  {
    Weights();
    ValueOfBytes(v, 4);
  }

  /** The high half of a small 64-bit number is zero. */
  lemma HighHalfZero(v: nat)
    requires v < TWO32
    ensures Value(BytesOf(v, 8)[4..8]) == 0
  {
    hide BytesOf, Value;
    var b := BytesOf(v, 8);
    Weights();
    ValueOfBytes(v, 8);
    assert b == b[..4] + b[4..8];
    ValueConcat(b[..4], b[4..8]);
    ValueBound(b[..4]);
    assert Pow256(|b[..4]|) == TWO32;
  }

  // ---- the table ----

  function InfoOf(k: Codec, c: Col): Info
    requires ColFits(k, c)
  {
    Info(c.id, c.esz, |c.raw|, |k.comp(c.raw)|)
  }

  function InfosOf(k: Codec, cs: seq<Col>): (i: seq<Info>)
    requires forall c :: c in cs ==> ColFits(k, c)
    ensures |i| == |cs|
  {
    if cs == [] then [] else [InfoOf(k, cs[0])] + InfosOf(k, cs[1..])
  }

  lemma Slice(f: seq<Byte>, pos: nat, n: nat, i: nat, j: nat)
    requires pos + n <= |f| && i <= j <= n
    ensures f[pos..pos + n][i..j] == f[pos + i..pos + j]
  {
    var a, b := f[pos..pos + n][i..j], f[pos + i..pos + j];
    forall x | 0 <= x < |b|
      ensures a[x] == b[x]
    {
    }
  }

  lemma TailParts(f: seq<Byte>, pos: nat, n: nat)
    requires pos + n <= |f|
    ensures f[pos..][..n] == f[pos..pos + n] && f[pos..][n..] == f[pos + n..]
  {
    var a, b := f[pos..][..n], f[pos..pos + n];
    forall x | 0 <= x < n
      ensures a[x] == b[x]
    {
    }
    var c, d := f[pos..][n..], f[pos + n..];
    forall x | 0 <= x < |d|
      ensures c[x] == d[x]
    {
    }
  }

  lemma EntryReads(k: Codec, f: seq<Byte>, pos: nat, c: Col)
    requires ColFits(k, c) && pos + 10 <= |f| && f[pos..pos + 10] == Entry(k, c)
    ensures InfoAt(f, pos) == InfoOf(k, c)
  {
    hide BytesOf, Word4;
    var e := f[pos..pos + 10];
    assert f[pos] == e[0] && f[pos + 1] == e[1];
    var raw, comp := BytesOf(|c.raw|, 4), BytesOf(|k.comp(c.raw)|, 4);
    assert e == [c.id, c.esz] + raw + comp;
    Slice(f, pos, 10, 2, 6);
    Slice(f, pos, 10, 6, 10);
    assert e[2..6] == raw && e[6..10] == comp;
    Word4Of(f, pos + 2, |c.raw|);
    Word4Of(f, pos + 6, |k.comp(c.raw)|);
  }

  lemma {:induction false} TableReads(k: Codec, f: seq<Byte>, pos: nat, cs: seq<Col>)
    requires (forall c :: c in cs ==> ColFits(k, c)) && pos + 10 * |cs| <= |f|
             && f[pos..pos + 10 * |cs|] == Table(k, cs)
    ensures ReadTable(f, pos, |cs|) == Some(InfosOf(k, cs))
    decreases |cs|
  {
    hide Entry, InfoAt, InfoOf, ColFits;
    if cs != [] {
      var n := 10 * |cs|;
      assert f[pos..pos + 10] == f[pos..pos + n][..10] == Entry(k, cs[0]);
      assert f[pos + 10..pos + n] == f[pos..pos + n][10..] == Table(k, cs[1..]);
      EntryReads(k, f, pos, cs[0]);
      TableReads(k, f, pos + 10, cs[1..]);
    }
  }

  lemma {:induction false} TableCut(f: seq<Byte>, pos: nat, nc: nat)
    requires pos <= |f| < pos + 10 * nc
    ensures ReadTable(f, pos, nc) == None
    decreases nc
  {
    if pos + 10 <= |f| { TableCut(f, pos + 10, nc - 1); }
  }

  // ---- the bodies ----

  lemma {:induction false} BodiesRead(k: Codec, f: seq<Byte>, pos: nat, cs: seq<Col>)
    requires Inverse(k) && (forall c :: c in cs ==> ColFits(k, c))
    requires pos + |Bodies(k, cs)| <= |f| && f[pos..pos + |Bodies(k, cs)|] == Bodies(k, cs)
    ensures ReadBodies(k, f, pos, InfosOf(k, cs)) == BodyRead(cs, pos + |Bodies(k, cs)|, Done)
    decreases |cs|
  {
    if cs != [] {
      var b, z, n := Bodies(k, cs), k.comp(cs[0].raw), |Bodies(k, cs)|;
      Slice(f, pos, n, 0, |z|);
      Slice(f, pos, n, |z|, n);
      assert b == z + Bodies(k, cs[1..]);
      assert b[0..|z|] == z && b[|z|..n] == Bodies(k, cs[1..]);
      BodiesRead(k, f, pos + |z|, cs[1..]);
    }
  }

  /** Bodies cut short: the columns before the cut are read, and reading ends there. */
  lemma {:induction false} BodiesCut(k: Codec, f: seq<Byte>, pos: nat, cs: seq<Col>) returns (j: nat)
    requires Inverse(k) && (forall c :: c in cs ==> ColFits(k, c))
    requires pos <= |f| < pos + |Bodies(k, cs)| && f[pos..] == Bodies(k, cs)[..|f| - pos]
    ensures j <= |cs|
    ensures var r := ReadBodies(k, f, pos, InfosOf(k, cs)); r.end == Cut && r.cols == cs[..j]
    decreases |cs|
  {
    var z, n := k.comp(cs[0].raw), |f| - pos;
    j := 0;
    if |z| <= n {
      var b := Bodies(k, cs);
      TailParts(f, pos, |z|);
      assert f[pos..][..|z|] == b[..|z|] == z;
      assert f[pos..][|z|..] == b[|z|..][..n - |z|];
      assert b[|z|..] == Bodies(k, cs[1..]);
      j := BodiesCut(k, f, pos + |z|, cs[1..]);
      assert cs[..j + 1] == [cs[0]] + cs[1..][..j];
      j := j + 1;
    }
  }

  // ---- the columns of a chunk ----

  /** What the reader keeps of a chunk. */
  function ViewOf(c: Cols): View
  {
    View(c.pc, c.dst, c.val, c.flags, |c.eidx|, c.stpc, c.staddr, c.stdata)
  }

  lemma {:induction false} AssignConcat(v: View, a: seq<Col>, b: seq<Col>)
    ensures AssignAll(v, a + b) == AssignAll(AssignAll(v, a), b)
    decreases |a|
  {
    hide Assign;
    if a == [] {
      assert a + b == b;
    } else {
      AssignConcat(Assign(v, a[0]), a[1..], b);
      assert (a + b)[1..] == a[1..] + b;
    }
  }

  /** A column put back: its elements, or nothing if it was empty. */
  lemma AssignPut(v: View, id: Byte, w: Byte, e: seq<nat>)
    ensures AssignAll(v, Put(id, w, e)) == if e == [] then v else Assign(v, Col(id, w, Elems(e, w)))
  {
    hide Assign;
    if e != [] { assert Put(id, w, e)[1..] == []; }
  }

  lemma WideBack(e: seq<Word64>)
    ensures UnElems(Elems(e, 8), 8) == e
  {
    Weights();
    UnElemsOf(e, 8);
  }

  lemma {:induction false} NarrowBack(e: seq<Byte>)
    ensures Elems(e, 1) == e
  {
    if e != [] {
      NarrowBack(e[1..]);
      assert BytesOf(e[0], 1) == [e[0]] + BytesOf(e[0] / 256, 0);
    }
  }

  /** The first four columns give the records. */
  lemma RecordsBack(c: Cols)
    ensures AssignAll(NOTHING, Put(CT_PC, 8, c.pc) + Put(CT_DST, 1, c.dst) + Put(CT_VAL, 8, c.val)
            + Put(CT_FLAGS, 1, c.flags))
            == NOTHING.(pc := c.pc, dst := c.dst, val := c.val, flags := c.flags)
  {
    hide Put, Elems, UnElems, AssignAll;
    var a, b, d, e := Put(CT_PC, 8, c.pc), Put(CT_DST, 1, c.dst), Put(CT_VAL, 8, c.val), Put(CT_FLAGS, 1, c.flags);
    AssignConcat(NOTHING, a + b + d, e);
    AssignConcat(NOTHING, a + b, d);
    AssignConcat(NOTHING, a, b);
    var v0 := NOTHING;
    AssignPut(v0, CT_PC, 8, c.pc);
    WideBack(c.pc);
    var v1 := v0.(pc := c.pc);
    AssignPut(v1, CT_DST, 1, c.dst);
    NarrowBack(c.dst);
    var v2 := v1.(dst := c.dst);
    AssignPut(v2, CT_VAL, 8, c.val);
    WideBack(c.val);
    var v3 := v2.(val := c.val);
    AssignPut(v3, CT_FLAGS, 1, c.flags);
    NarrowBack(c.flags);
  }

  /** The exception columns only count. */
  lemma ExceptionsBack(v: View, c: Cols)
    requires v.excs == 0
    ensures AssignAll(v, Put(CT_EXC_IDX, 4, c.eidx) + Put(CT_EXC_CAU, 1, c.ecau) + Put(CT_EXC_EPC, 8, c.eepc)
            + Put(CT_EXC_BAD, 8, c.ebad))
            == v.(excs := |c.eidx|)
  {
    hide Put, Elems, UnElems, AssignAll;
    var a, b, d, e := Put(CT_EXC_IDX, 4, c.eidx), Put(CT_EXC_CAU, 1, c.ecau), Put(CT_EXC_EPC, 8, c.eepc),
        Put(CT_EXC_BAD, 8, c.ebad);
    AssignConcat(v, a + b + d, e);
    AssignConcat(v, a + b, d);
    AssignConcat(v, a, b);
    AssignPut(v, CT_EXC_IDX, 4, c.eidx);
    var v1 := v.(excs := |c.eidx|);
    AssignPut(v1, CT_EXC_CAU, 1, c.ecau);
    AssignPut(v1, CT_EXC_EPC, 8, c.eepc);
    AssignPut(v1, CT_EXC_BAD, 8, c.ebad);
  }

  lemma StoresBack(v: View, c: Cols)
    requires v.stpc == v.staddr == v.stdata == []
    ensures AssignAll(v, Put(CT_ST_PC, 8, c.stpc) + Put(CT_ST_ADDR, 8, c.staddr) + Put(CT_ST_DATA, 8, c.stdata))
            == v.(stpc := c.stpc, staddr := c.staddr, stdata := c.stdata)
  {
    hide Put, Elems, UnElems, AssignAll;
    var a, b, d := Put(CT_ST_PC, 8, c.stpc), Put(CT_ST_ADDR, 8, c.staddr), Put(CT_ST_DATA, 8, c.stdata);
    AssignConcat(v, a + b, d);
    AssignConcat(v, a, b);
    AssignPut(v, CT_ST_PC, 8, c.stpc);
    WideBack(c.stpc);
    var v1 := v.(stpc := c.stpc);
    AssignPut(v1, CT_ST_ADDR, 8, c.staddr);
    WideBack(c.staddr);
    var v2 := v1.(staddr := c.staddr);
    AssignPut(v2, CT_ST_DATA, 8, c.stdata);
    WideBack(c.stdata);
  }

  lemma ColumnsBack(c: Cols)
    ensures AssignAll(NOTHING, ColumnsOf(c)) == ViewOf(c)
  {
    hide Put, Assign, AssignAll;
    var a := Put(CT_PC, 8, c.pc) + Put(CT_DST, 1, c.dst) + Put(CT_VAL, 8, c.val) + Put(CT_FLAGS, 1, c.flags);
    var b := Put(CT_EXC_IDX, 4, c.eidx) + Put(CT_EXC_CAU, 1, c.ecau) + Put(CT_EXC_EPC, 8, c.eepc)
        + Put(CT_EXC_BAD, 8, c.ebad);
    var d := Put(CT_ST_PC, 8, c.stpc) + Put(CT_ST_ADDR, 8, c.staddr) + Put(CT_ST_DATA, 8, c.stdata);
    assert ColumnsOf(c) == (a + b) + d;
    AssignConcat(NOTHING, a + b, d);
    AssignConcat(NOTHING, a, b);
    RecordsBack(c);
    var v := NOTHING.(pc := c.pc, dst := c.dst, val := c.val, flags := c.flags);
    ExceptionsBack(v, c);
    StoresBack(v.(excs := |c.eidx|), c);
  }

  // ---- one chunk ----

  /** Where a cut inside a chunk falls. */
  datatype Place = Before | InTable | InBodies

  function PlaceOf(k: Codec, c: Cols, n: nat): Place
  {
    if n < 8 then Before else if n < 8 + 10 * |ColumnsOf(c)| then InTable else InBodies
  }

  /** The parts of a chunk's bytes. */
  lemma ChunkParts(k: Codec, c: Cols, f: seq<Byte>, pos: nat, n: nat)
    requires 8 <= n <= |EncodeChunk(k, c)| && pos + n <= |f| && f[pos..pos + n] == EncodeChunk(k, c)[..n]
    ensures f[pos..pos + 4] == BytesOf(|c.pc|, 4) && f[pos + 4..pos + 8] == BytesOf(|ColumnsOf(c)|, 4)
    ensures var t := 8 + 10 * |ColumnsOf(c)|;
            n >= t ==>
              && f[pos + 8..pos + t] == Table(k, ColumnsOf(c))
              && f[pos + t..pos + n] == Bodies(k, ColumnsOf(c))[..n - t]
  {
    hide BytesOf, ColumnsOf, Table, Bodies;
    var cs := ColumnsOf(c);
    var a, b, t, d := BytesOf(|c.pc|, 4), BytesOf(|cs|, 4), Table(k, cs), Bodies(k, cs);
    var e := EncodeChunk(k, c);
    assert e == a + b + t + d;
    Slice(f, pos, n, 0, 4);
    Slice(f, pos, n, 4, 8);
    var m := 8 + |t|;
    FourParts(a, b, t, d, n);
    if n >= m {
      Slice(f, pos, n, 8, m);
      Slice(f, pos, n, m, n);
    }
  }

  /** The parts of the beginning of four byte strings end to end. */
  lemma FourParts(a: seq<Byte>, b: seq<Byte>, t: seq<Byte>, d: seq<Byte>, n: nat)
    requires |a| == |b| == 4 && 8 <= n <= |a + b + t + d|
    ensures var g := (a + b + t + d)[..n];
            g[0..4] == a && g[4..8] == b && (n >= 8 + |t| ==> g[8..8 + |t|] == t && g[8 + |t|..n] == d[..n - 8 - |t|])
  {
    var e, m := a + b + t + d, 8 + |t|;
    assert e[..4] == a && e[4..8] == b && e[8..m] == t && e[m..] == d;
    var g := e[..n];
    assert g[0..4] == e[..4] && g[4..8] == e[4..8];
    if n >= m { assert g[8..m] == e[8..m] && g[m..n] == e[m..][..n - m]; }
  }

  lemma Numbers(k: Codec, c: Cols, f: seq<Byte>, pos: nat)
    requires ChunkFits(k, c) && pos + 8 <= |f|
    requires f[pos..pos + 4] == BytesOf(|c.pc|, 4) && f[pos + 4..pos + 8] == BytesOf(|ColumnsOf(c)|, 4)
    ensures Word4(f, pos) == |c.pc| && Word4(f, pos + 4) == |ColumnsOf(c)| && 1 <= |ColumnsOf(c)| <= 16
  {
    hide BytesOf, Word4, Elems;
    Word4Of(f, pos, |c.pc|);
    Word4Of(f, pos + 4, |ColumnsOf(c)|);
    assert |Put(CT_PC, 8, c.pc)| == 1;
  }

  lemma ChunkLength(k: Codec, c: Cols)
    ensures |EncodeChunk(k, c)| == 8 + 10 * |ColumnsOf(c)| + |Bodies(k, ColumnsOf(c))|
  {
    hide ColumnsOf, BytesOf, Table, Bodies;
  }

  /** A whole chunk is read back. */
  lemma ChunkReads(k: Codec, c: Cols, f: seq<Byte>, pos: nat)
    requires Inverse(k) && ChunkFits(k, c)
    requires pos + |EncodeChunk(k, c)| <= |f| && f[pos..pos + |EncodeChunk(k, c)|] == EncodeChunk(k, c)
    ensures ReadChunk(k, f, pos) == Chunk(ViewOf(c), pos + |EncodeChunk(k, c)|)
  {
    hide ColumnsOf, EncodeChunk, BytesOf, Word4, Table, Bodies, ReadTable, ReadBodies, InfosOf, AssignAll, ColFits;
    var cs, n := ColumnsOf(c), |EncodeChunk(k, c)|;
    ChunkLength(k, c);
    assert EncodeChunk(k, c)[..n] == EncodeChunk(k, c);
    ChunkParts(k, c, f, pos, n);
    Numbers(k, c, f, pos);
    TableReads(k, f, pos + 8, cs);
    var b := pos + 8 + 10 * |cs|;
    assert Bodies(k, cs)[..n - 8 - 10 * |cs|] == Bodies(k, cs);
    BodiesRead(k, f, b, cs);
    ColumnsBack(c);
  }

  /** The number of exceptions a partly read chunk has already been counted for. */
  ghost predicate SomeOf(e: nat, c: Cols)
  {
    exists j :: 0 <= j <= |ColumnsOf(c)| && e == AssignAll(NOTHING, ColumnsOf(c)[..j]).excs
  }

  /** A cut chunk is no chunk, a short header, or discarded, by where the cut falls. */
  lemma ChunkCut(k: Codec, c: Cols, f: seq<Byte>, pos: nat)
    requires Inverse(k) && ChunkFits(k, c)
    requires pos <= |f| < pos + |EncodeChunk(k, c)| && f[pos..] == EncodeChunk(k, c)[..|f| - pos]
    ensures match PlaceOf(k, c, |f| - pos)
            case Before => ReadChunk(k, f, pos) == NoChunk
            case InTable => ReadChunk(k, f, pos) == ShortHeader
            case InBodies => ReadChunk(k, f, pos).Partial? && SomeOf(ReadChunk(k, f, pos).excs, c)
  {
    hide ColumnsOf, EncodeChunk, BytesOf, Word4, Table, Bodies, ReadTable, ReadBodies, InfosOf, AssignAll, ColFits;
    var cs, n := ColumnsOf(c), |f| - pos;
    if n >= 8 {
      assert f[pos..pos + n] == f[pos..];
      ChunkLength(k, c);
      ChunkParts(k, c, f, pos, n);
      Numbers(k, c, f, pos);
      var t := 8 + 10 * |cs|;
      if n < t {
        TableCut(f, pos + 8, |cs|);
      } else {
        TableReads(k, f, pos + 8, cs);
        assert f[pos + t..] == f[pos + t..pos + n];
        var j := BodiesCut(k, f, pos + t, cs);
      }
    }
  }

  // ---- the whole file ----

  function Views(chunks: seq<Cols>): (v: seq<View>)
    ensures |v| == |chunks|
  {
    if chunks == [] then [] else [ViewOf(chunks[0])] + Views(chunks[1..])
  }

  /** The chunks wholly inside the first n bytes. */
  function Complete(k: Codec, chunks: seq<Cols>, n: nat): (c: nat)
    ensures c <= |chunks|
  {
    if chunks == [] || |EncodeChunk(k, chunks[0])| > n then 0
    else 1 + Complete(k, chunks[1..], n - |EncodeChunk(k, chunks[0])|)
  }

  /** The bytes left after them. */
  function Left(k: Codec, chunks: seq<Cols>, n: nat): (left: nat)
    ensures left <= n
  {
    if chunks == [] || |EncodeChunk(k, chunks[0])| > n then n else Left(k, chunks[1..], n - |EncodeChunk(k, chunks[0])|)
  }

  /** The tail of a file after its chunks does not look like a chunk. */
  ghost predicate NotAChunk(k: Codec, tail: seq<Byte>)
  {
    forall f, pos :: 0 <= pos <= |f| && f[pos..] <= tail ==> ReadChunk(k, f, pos) == NoChunk
  }

  /** How reading ends, by where the bytes end. */
  ghost predicate EndsRightly(k: Codec, chunks: seq<Cols>, n: nat, r: Report, start: nat)
  {
    var c, left := Complete(k, chunks, n), Left(k, chunks, n);
    if c == |chunks| || PlaceOf(k, chunks[c], left) == Before then
      r == Report(Views(chunks[..c]), Stopped(start + n - left))
    else if PlaceOf(k, chunks[c], left) == InTable then r.end == Aborted
    else r.end.Discarded? && r.chunks == Views(chunks[..c]) && SomeOf(r.end.excs, chunks[c])
  }

  lemma {:induction false} ReadsPrefix(k: Codec, chunks: seq<Cols>, tail: seq<Byte>, f: seq<Byte>, pos: nat)
    requires Inverse(k) && AllFit(k, chunks) && NotAChunk(k, tail) && pos <= |f|
             && f[pos..] <= EncodeAll(k, chunks) + tail
    ensures EndsRightly(k, chunks, |f| - pos, ReadAll(k, f, pos), pos)
    decreases |chunks|
  {
    hide EncodeChunk, ReadChunk, SomeOf, ViewOf, PlaceOf, ChunkFits;
    if chunks == [] {
      assert EncodeAll(k, chunks) + tail == tail;
    } else {
      var c, rest := chunks[0], EncodeAll(k, chunks[1..]) + tail;
      var e := EncodeChunk(k, c);
      FitParts(k, chunks);
      assert EncodeAll(k, chunks) + tail == e + rest;
      hide AllFit, EncodeAll, NotAChunk;
      FirstChunk(f, pos, e, rest);
      if pos + |e| <= |f| {
        ChunkReads(k, c, f, pos);
        ChunkHasHeader(k, c);
        ReadsPrefix(k, chunks[1..], tail, f, pos + |e|);
        EndsOneMore(k, chunks, |f| - pos, ReadAll(k, f, pos + |e|), pos);
      } else {
        ChunkCut(k, c, f, pos);
        assert chunks[..0] == [];
      }
    }
  }

  lemma FitParts(k: Codec, chunks: seq<Cols>)
    requires chunks != [] && AllFit(k, chunks)
    ensures ChunkFits(k, chunks[0]) && AllFit(k, chunks[1..])
  {
    hide ChunkFits;
    assert forall i :: 0 <= i < |chunks[1..]| ==> chunks[1..][i] == chunks[i + 1];
  }

  lemma ChunkHasHeader(k: Codec, c: Cols)
    ensures |EncodeChunk(k, c)| >= 8
  {
    ChunkLength(k, c);
  }

  lemma FirstChunk(f: seq<Byte>, pos: nat, e: seq<Byte>, rest: seq<Byte>)
    requires pos <= |f| && f[pos..] <= e + rest
    ensures if pos + |e| <= |f| then f[pos..pos + |e|] == e && f[pos + |e|..] <= rest else f[pos..] == e[..|f| - pos]
  {
    var g := f[pos..];
    if pos + |e| <= |f| {
      TailParts(f, pos, |e|);
      assert g[..|e|] == (e + rest)[..|e|];
      assert g[|e|..] == (e + rest)[|e|..|g|] == rest[..|g| - |e|];
    } else {
      assert g == (e + rest)[..|g|] == e[..|g|];
    }
  }

  lemma EndsOneMore(k: Codec, chunks: seq<Cols>, n: nat, r: Report, start: nat)
    requires chunks != [] && |EncodeChunk(k, chunks[0])| <= n
    requires EndsRightly(k, chunks[1..], n - |EncodeChunk(k, chunks[0])|, r, start + |EncodeChunk(k, chunks[0])|)
    ensures EndsRightly(k, chunks, n, r.(chunks := [ViewOf(chunks[0])] + r.chunks), start)
  {
    hide EncodeChunk, SomeOf, ViewOf, PlaceOf;
    var c := Complete(k, chunks[1..], n - |EncodeChunk(k, chunks[0])|);
    assert Complete(k, chunks, n) == c + 1;
    assert chunks[..c + 1][0] == chunks[0] && chunks[..c + 1][1..] == chunks[1..][..c];
    assert Views(chunks[..c + 1]) == [ViewOf(chunks[0])] + Views(chunks[1..][..c]);
  }

  // ---- the tail ----

  lemma NoTail(k: Codec)
    ensures NotAChunk(k, [])
  {
  }

  /** The trailer is told from a chunk by the zero high half of its chunk count. */
  lemma TrailerIsNoChunk(k: Codec, nChunks: nat, total: nat)
    requires nChunks < TWO32
    ensures NotAChunk(k, Trailer(nChunks, total))
  {
    hide ReadTable, ReadBodies, AssignAll, BytesOf;
    var t := Trailer(nChunks, total);
    forall f, pos | 0 <= pos <= |f| && f[pos..] <= t
      ensures ReadChunk(k, f, pos) == NoChunk
    {
      if pos + 8 <= |f| {
        var g := f[pos..];
        assert f[pos + 4..pos + 8] == g[4..8] == t[4..8] == BytesOf(nChunks, 8)[4..8];
        HighHalfZero(nChunks);
      }
    }
  }

  lemma TrailerReads(f: seq<Byte>, pos: nat, nChunks: nat, total: nat)
    requires pos <= |f| && f[pos..] <= Trailer(nChunks, total) && nChunks < Pow256(8) && total < Pow256(8)
    ensures TrailerAt(f, Stopped(pos)) == if |f| == pos + 24 then Some((nChunks, total)) else None
  {
    hide BytesOf, Value, Pow256;
    var g, t := f[pos..], Trailer(nChunks, total);
    if pos + 24 <= |f| {
      assert g == t;
      Slice(f, pos, 24, 0, 8);
      Slice(f, pos, 24, 8, 16);
      Slice(f, pos, 24, 16, 24);
      assert f[pos..pos + 24] == g;
      assert t[0..8] == BytesOf(nChunks, 8) && t[8..16] == BytesOf(total, 8) && t[16..24] == TRAILR;
      ValueOfBytes(nChunks, 8);
      ValueOfBytes(total, 8);
    }
  }

  // ---- results ----

  /** Any beginning of any file of chunks, with or without a trailer: nothing at all if it is cut
      inside a chunk's column table; otherwise exactly the chunks wholly there, in order. */
  lemma CutFileGivesCompleteChunks(k: Codec, l: Log, m: nat)
    requires Inverse(k) && AllFit(k, l.chunks) && |l.chunks| < TWO32 && 8 <= m <= |FileOf(k, l)|
    ensures var n := m - 8;
            var c, left := Complete(k, l.chunks, n), Left(k, l.chunks, n);
            var s := Dump(k, FileOf(k, l)[..m]);
            if c < |l.chunks| && PlaceOf(k, l.chunks[c], left) == InTable then s == NoSummary
            else s.Summary? && s.report.chunks == Views(l.chunks[..c]) && (m < |FileOf(k, l)| ==> s.trailer == None)
  {
    hide FileOf, Dump, EndsRightly, Complete, Left, PlaceOf, Views, AllFit, NotAChunk, TrailerAt, EncodeAll, ReadAll;
    var f := FileOf(k, l)[..m];
    var tail := TailOf(k, l);
    HeadAndRest(EncodeAll(k, l.chunks), tail, f, m);
    ReadsPrefix(k, l.chunks, tail, f, 8);
    DumpIs(k, f);
    EndsMeans(k, l.chunks, m - 8, ReadAll(k, f, 8), 8);
    LeftAll(k, l.chunks, m - 8);
    if m < |FileOf(k, l)| { NoTrailerYet(f, ReadAll(k, f, 8).end); }
  }

  lemma NoTrailerYet(f: seq<Byte>, end: End)
    requires end.Stopped? ==> |f| < end.pos + 24
    ensures TrailerAt(f, end) == None
  {
  }

  lemma {:induction false} LeftAll(k: Codec, chunks: seq<Cols>, n: nat)
    ensures Complete(k, chunks, n) == |chunks| ==> |EncodeAll(k, chunks)| + Left(k, chunks, n) == n
    decreases |chunks|
  {
    hide EncodeChunk;
    if chunks != [] && |EncodeChunk(k, chunks[0])| <= n { LeftAll(k, chunks[1..], n - |EncodeChunk(k, chunks[0])|); }
  }

  /** What follows the chunks in a file. */
  lemma TailOf(k: Codec, l: Log) returns (tail: seq<Byte>)
    requires |l.chunks| < TWO32
    ensures FileOf(k, l) == MAGIC + EncodeAll(k, l.chunks) + tail && NotAChunk(k, tail)
    ensures |tail| <= 24 && (!l.open ==> tail == Trailer(|l.chunks|, Total(l.chunks)))
  {
    hide EncodeAll, NotAChunk, Trailer;
    if l.open {
      tail := [];
      NoTail(k);
    } else {
      tail := Trailer(|l.chunks|, Total(l.chunks));
      TrailerIsNoChunk(k, |l.chunks|, Total(l.chunks));
    }
  }

  lemma DumpIs(k: Codec, f: seq<Byte>)
    requires |f| >= 8 && f[..8] == MAGIC
    ensures var r := ReadAll(k, f, 8);
            Dump(k, f) == if r.end.Aborted? then NoSummary else Summary(r, TrailerAt(f, r.end))
  {
    hide ReadAll, TrailerAt;
  }

  lemma EndsMeans(k: Codec, chunks: seq<Cols>, n: nat, r: Report, start: nat)
    requires EndsRightly(k, chunks, n, r, start)
    ensures var c, left := Complete(k, chunks, n), Left(k, chunks, n);
            if c < |chunks| && PlaceOf(k, chunks[c], left) == InTable then r.end.Aborted?
            else !r.end.Aborted? && r.chunks == Views(chunks[..c])
    ensures Complete(k, chunks, n) == |chunks| ==> r == Report(Views(chunks), Stopped(start + n - Left(k, chunks, n)))
    ensures r.end.Stopped? ==>
              && r.end.pos == start + n - Left(k, chunks, n)
              && (Complete(k, chunks, n) < |chunks| ==> Left(k, chunks, n) < 8)
  {
    hide Complete, Left, ColumnsOf, Views, SomeOf;
    assert chunks[..|chunks|] == chunks;
  }

  lemma HeadAndRest(e: seq<Byte>, tail: seq<Byte>, f: seq<Byte>, m: nat)
    requires 8 <= m <= |MAGIC + e + tail| && f == (MAGIC + e + tail)[..m]
    ensures f[..8] == MAGIC && f[8..] <= e + tail
  {
    assert MAGIC + e + tail == MAGIC + (e + tail);
    assert f[8..] == (e + tail)[..m - 8];
  }

  /** Less than the magic is not a trace. */
  lemma NoMagicNoTrace(k: Codec, f: seq<Byte>)
    requires |f| < 8
    ensures Dump(k, f) == NotATrace
  {
  }

  /** The whole file of a closed writer: every chunk, and the trailer's counts match them. */
  lemma ClosedFileReadsBack(k: Codec, l: Log)
    requires Inverse(k) && AllFit(k, l.chunks) && !l.open && |l.chunks| < TWO32 && Total(l.chunks) < Pow256(8)
    ensures var s := Dump(k, FileOf(k, l));
            && s.Summary? && s.report.chunks == Views(l.chunks) && s.report.end.Stopped?
            && s.trailer == Some((|s.report.chunks|, Total(l.chunks)))
  {
    hide FileOf, Dump, EndsRightly, Complete, Left, Views, AllFit, NotAChunk, Total, EncodeAll, Trailer, TrailerAt,
         Pow256;
    var f, e := FileOf(k, l), EncodeAll(k, l.chunks);
    var tail := TailOf(k, l);
    assert f[..|f|] == f;
    HeadAndRest(e, tail, f, |f|);
    ReadsPrefix(k, l.chunks, tail, f, 8);
    AllComplete(k, l.chunks, tail);
    EndsMeans(k, l.chunks, |f| - 8, ReadAll(k, f, 8), 8);
    DumpIs(k, f);
    var pos := 8 + |e|;
    LastPart(MAGIC, e, tail);
    Weights();
    TrailerReads(f, pos, |l.chunks|, Total(l.chunks));
  }

  lemma LastPart(a: seq<Byte>, b: seq<Byte>, c: seq<Byte>)
    ensures (a + b + c)[|a| + |b|..] == c
  {
  }

  lemma {:induction false} AllComplete(k: Codec, chunks: seq<Cols>, tail: seq<Byte>)
    ensures Complete(k, chunks, |EncodeAll(k, chunks)| + |tail|) == |chunks|
    ensures Left(k, chunks, |EncodeAll(k, chunks)| + |tail|) == |tail|
  {
    hide EncodeChunk;
    if chunks != [] { AllComplete(k, chunks[1..], tail); }
  }

  // ---- what the report holds ----

  /** The columns of a view go together row by row. */
  ghost predicate Regular(v: View)
  {
    && |v.pc| == |v.dst| == |v.val| == |v.flags| && |v.stpc| == |v.staddr| == |v.stdata|
    && (forall i :: 0 <= i < |v.pc| ==> v.pc[i] < TWO64 && v.val[i] < TWO64)
    && (forall i :: 0 <= i < |v.stpc| ==> v.stpc[i] < TWO64 && v.staddr[i] < TWO64 && v.stdata[i] < TWO64)
  }

  ghost predicate AllRegular(vs: seq<View>) { forall i :: 0 <= i < |vs| ==> Regular(vs[i]) }

  /** The records of the report, chunk after chunk, row after row. */
  ghost function RecsRead(vs: seq<View>): seq<Rec>
    requires AllRegular(vs)
  {
    if vs == [] then [] else RecsRead(vs[..|vs| - 1]) + RecsOf(vs[|vs| - 1])
  }

  ghost function RecsOf(v: View): (r: seq<Rec>)
    requires Regular(v)
    ensures |r| == |v.pc|
  {
    seq(|v.pc|, i requires 0 <= i < |v.pc| => Rec(v.pc[i], v.dst[i], v.val[i], v.flags[i]))
  }

  ghost function StoresRead(vs: seq<View>): seq<StoreRec>
    requires AllRegular(vs)
  {
    if vs == [] then [] else StoresRead(vs[..|vs| - 1]) + StoresOf(vs[|vs| - 1])
  }

  ghost function StoresOf(v: View): (s: seq<StoreRec>)
    requires Regular(v)
    ensures |s| == |v.stpc|
  {
    seq(|v.stpc|, i requires 0 <= i < |v.stpc| => StoreRec(v.stpc[i], v.staddr[i], v.stdata[i]))
  }

  /** The exceptions the reader counts in its chunks. */
  function ExceptionsRead(vs: seq<View>): nat
  {
    if vs == [] then 0 else ExceptionsRead(vs[..|vs| - 1]) + vs[|vs| - 1].excs
  }

  /** A view's rows are its chunk's. */
  lemma ViewIsChunk(c: Cols)
    requires c.Aligned()
    ensures Regular(ViewOf(c)) && RecsOf(ViewOf(c)) == c.Recs() && StoresOf(ViewOf(c)) == c.Stores()
    ensures ViewOf(c).excs == |c.eidx|
  {
  }

  lemma {:induction false} ViewsAt(chunks: seq<Cols>, i: nat)
    requires i < |chunks|
    ensures Views(chunks)[i] == ViewOf(chunks[i])
    decreases |chunks|
  {
    if i > 0 { ViewsAt(chunks[1..], i - 1); }
  }

  lemma LastView(chunks: seq<Cols>)
    requires chunks != []
    ensures var m := |chunks| - 1; Views(chunks)[..m] == Views(chunks[..m]) && Views(chunks)[m] == ViewOf(chunks[m])
  {
    hide ViewOf;
    var m := |chunks| - 1;
    forall i | 0 <= i < m
      ensures Views(chunks)[i] == Views(chunks[..m])[i]
    {
      ViewsAt(chunks, i);
      ViewsAt(chunks[..m], i);
    }
    ViewsAt(chunks, m);
  }

  /** The report of the chunks holds what the chunks do. */
  lemma {:induction false} ReportIsChunks(chunks: seq<Cols>)
    requires WellMade(chunks)
    ensures AllRegular(Views(chunks)) && RecsRead(Views(chunks)) == RecsIn(chunks)
    ensures StoresRead(Views(chunks)) == StoresIn(chunks) && ExceptionsRead(Views(chunks)) == |ExceptionsIn(chunks)|
  {
    if chunks != [] {
      hide ViewOf, Views, Regular, RecsOf, StoresOf, AllRegular, RecsRead, StoresRead, ExceptionsRead, RecsIn, StoresIn,
           ExceptionsIn;
      var m := |chunks| - 1;
      var pre, c := chunks[..m], chunks[m];
      ReportIsChunks(pre);
      LastView(chunks);
      ViewIsChunk(c);
      assert pre + [c] == chunks && Views(chunks)[..m] + [Views(chunks)[m]] == Views(chunks);
      SnocIn(pre, c);
      SnocRead(Views(pre), ViewOf(c));
    }
  }

  lemma SnocRead(vs: seq<View>, v: View)
    requires AllRegular(vs) && Regular(v)
    ensures AllRegular(vs + [v]) && RecsRead(vs + [v]) == RecsRead(vs) + RecsOf(v)
    ensures StoresRead(vs + [v]) == StoresRead(vs) + StoresOf(v)
            && ExceptionsRead(vs + [v]) == ExceptionsRead(vs) + v.excs
  {
    hide Regular, RecsOf, StoresOf;
    assert (vs + [v])[..|vs|] == vs;
  }

  /** Round trip: any calls, then close, then the reader. The report holds every record in order
      and the trailer matches. The stores it holds, and the exceptions it counts, are exactly those
      of the kept calls: all of them, unless no record was logged after the last chunk. */
  lemma RoundTrip(k: Codec, chunkRecs: Word32, calls: seq<Call>)
    requires Inverse(k)
    requires var l := Closed(AfterAll(chunkRecs, calls));
             AllFit(k, l.chunks) && |l.chunks| < TWO32 && Total(l.chunks) < Pow256(8)
    ensures var l, kept := Closed(AfterAll(chunkRecs, calls)), Kept(chunkRecs, calls);
            var s := Dump(k, FileOf(k, l));
            && s.Summary? && s.trailer == Some((|s.report.chunks|, |AllRecs(calls)|)) && AllRegular(s.report.chunks)
            && RecsRead(s.report.chunks) == AllRecs(calls)
            && StoresRead(s.report.chunks) == AllStores(kept)
            && ExceptionsRead(s.report.chunks) == |AllExceptions(chunkRecs, kept)|
            && (StoresRead(s.report.chunks) == AllStores(calls)
                <==> AfterAll(chunkRecs, calls).pending.pc != [] || AfterAll(chunkRecs, calls).pending.stpc == [])
  {
    hide Dump, FileOf, RecsIn, StoresIn, AllRecs, AllStores, AllFit, Views, Kept, AllExceptions, ExceptionsIn;
    hide ExceptionsRead, RecsRead, StoresRead, AllRegular;
    var l := Closed(AfterAll(chunkRecs, calls));
    LogHolds(chunkRecs, calls);
    ClosedHolds(chunkRecs, calls);
    ClosedKeeps(chunkRecs, calls);
    ClosedFileReadsBack(k, l);
    ReportIsChunks(l.chunks);
    CountRecs(l.chunks);
  }

  // ---- concrete losses ----

  /** One store and no record: the closed file has no chunk and the store is gone. */
  lemma LoneStoreLost(k: Codec, chunkRecs: Word32, store: StoreRec)
    requires Inverse(k)
    ensures var calls := [AddStore(store)];
            var l := Closed(AfterAll(chunkRecs, calls));
            && AllStores(calls) == [store] && l.chunks == [] && StoresIn(l.chunks) == []
            && Dump(k, FileOf(k, l)).Summary? && Dump(k, FileOf(k, l)).report.chunks == []
  {
    hide Dump, FileOf;
    var calls := [AddStore(store)];
    var l := Closed(AfterAll(chunkRecs, calls));
    assert calls[..0] == [] && AfterAll(chunkRecs, calls[..0]) == FRESH_LOG;
    assert AllStores(calls[..0]) == [];
    Weights();
    ClosedFileReadsBack(k, l);
  }

  /** The codec that stores bytes as they are. */
  function Plain(): (k: Codec)
    ensures Inverse(k)
  {
    Codec(x => x, x => Some(x))
  }

  /** The chunk of one record. */
  function OneRecord(r: Rec): Cols { WithRec(EMPTY, r) }

  /** Two records, a chunk each, and the file cut inside the second chunk's column table: the first
      chunk is complete, but the reader gives up and prints no summary. */
  lemma CutInTable(r0: Rec, r1: Rec)
    ensures var k, l := Plain(), AfterAll(1, [Add(r0), Add(r1)]);
            var m := 8 + |EncodeChunk(k, OneRecord(r0))| + 12;
            && l.chunks == [OneRecord(r0), OneRecord(r1)] && Complete(k, l.chunks, m - 8) == 1
            && m < |FileOf(k, l)| && Dump(k, FileOf(k, l)[..m]) == NoSummary
  {
    hide EncodeChunk, ColumnsOf, Dump, OneRecord, AfterAll, ChunkFits, Complete, Left, EncodeAll;
    var k, c0, c1 := Plain(), OneRecord(r0), OneRecord(r1);
    TwoChunks(r0, r1);
    OneRecordFits(r0);
    OneRecordFits(r1);
    ChunkLength(k, c1);
    CutSecond(k, c0, c1, 12);
    CutFileGivesCompleteChunks(k, AfterAll(1, [Add(r0), Add(r1)]), 8 + |EncodeChunk(k, c0)| + 12);
  }

  /** A cut inside the second of two chunks. */
  lemma CutSecond(k: Codec, c0: Cols, c1: Cols, n: nat)
    requires n < |EncodeChunk(k, c1)|
    ensures var at := |EncodeChunk(k, c0)| + n;
            && Complete(k, [c0, c1], at) == 1 && Left(k, [c0, c1], at) == n
            && EncodeAll(k, [c0, c1]) == EncodeChunk(k, c0) + EncodeChunk(k, c1)
  {
    hide EncodeChunk;
    var at := |EncodeChunk(k, c0)| + n;
    assert [c0, c1][1..] == [c1] && [c1][1..] == [];
    assert EncodeAll(k, [c1]) == EncodeChunk(k, c1) + EncodeAll(k, [c1][1..]) == EncodeChunk(k, c1);
    assert Complete(k, [c0, c1], at) == 1 + Complete(k, [c1], n);
    assert Left(k, [c0, c1], at) == Left(k, [c1], n);
  }

  lemma TwoChunks(r0: Rec, r1: Rec)
    ensures AfterAll(1, [Add(r0), Add(r1)]) == Log(EMPTY, [OneRecord(r0), OneRecord(r1)], true)
  {
    var calls := [Add(r0), Add(r1)];
    assert calls[..1] == [Add(r0)] && calls[..1][..0] == [];
    assert AfterAll(1, calls[..1]) == Log(EMPTY, [OneRecord(r0)], true) by {
      assert [] + [OneRecord(r0)] == [OneRecord(r0)];
    }
    assert [OneRecord(r0)] + [OneRecord(r1)] == [OneRecord(r0), OneRecord(r1)];
  }

  lemma OneRecordFits(r: Rec)
    ensures var c := OneRecord(r);
            ChunkFits(Plain(), c) && |ColumnsOf(c)| == 4
  {
    var c := OneRecord(r);
    assert ColumnsOf(c) == Put(CT_PC, 8, c.pc) + Put(CT_DST, 1, c.dst) + Put(CT_VAL, 8, c.val)
        + Put(CT_FLAGS, 1, c.flags);
  }
}
