/**
 The chunked columnar retire trace: the byte format of a chunk, and what a sequence of calls to
 the writer means. Compression is a pair of functions of which only the inverse law is used.
 */
module CtraceFormat {
  import opened Prelude
  import opened LittleEndian

  datatype Codec = Codec(comp: seq<Byte> -> seq<Byte>, decomp: seq<Byte> -> Option<seq<Byte>>)

  /** Decompression undoes compression. */
  ghost predicate Inverse(k: Codec)
  {
    forall x :: k.decomp(k.comp(x)) == Some(x)
  }

  // ---- the writer's columns ----

  datatype Rec = Rec(pc: Word64, dst: Byte, val: Word64, flags: Byte)

  datatype StoreRec = StoreRec(pc: Word64, addr: Word64, data: Word64)

  /** An exception, with the number in its chunk of the record it belongs to. */
  datatype ExcRec = ExcRec(index: Word32, cause: Byte, epc: Word64, badv: Word64)

  /** The eleven column vectors. */
  datatype Cols = Cols(pc: seq<Word64>, dst: seq<Byte>, val: seq<Word64>, flags: seq<Byte>,
                       eidx: seq<Word32>, ecau: seq<Byte>, eepc: seq<Word64>, ebad: seq<Word64>,
                       stpc: seq<Word64>, staddr: seq<Word64>, stdata: seq<Word64>)
  {
    /** The four record columns go together, and so do the four of the exceptions and the three of the
        stores. */
    predicate Aligned()
    {
      |pc| == |dst| == |val| == |flags| && |eidx| == |ecau| == |eepc| == |ebad| && |stpc| == |staddr| == |stdata|
    }

    function Recs(): (r: seq<Rec>)
      requires Aligned()
      ensures |r| == |pc|
    {
      seq(|pc|, i requires 0 <= i < |pc| => Rec(pc[i], dst[i], val[i], flags[i]))
    }

    function Exceptions(): (x: seq<ExcRec>)
      requires Aligned()
      ensures |x| == |eidx|
    {
      seq(|eidx|, i requires 0 <= i < |eidx| => ExcRec(eidx[i], ecau[i], eepc[i], ebad[i]))
    }

    function Stores(): (s: seq<StoreRec>)
      requires Aligned()
      ensures |s| == |stpc|
    {
      seq(|stpc|, i requires 0 <= i < |stpc| => StoreRec(stpc[i], staddr[i], stdata[i]))
    }
  }

  const EMPTY := Cols([], [], [], [], [], [], [], [], [], [], [])

  // ---- bytes ----

  function Elems(v: seq<nat>, w: nat): (b: seq<Byte>)
    ensures |b| == w * |v|
  {
    if v == [] then [] else
      assert w * |v| == w + w * (|v| - 1);
      BytesOf(v[0], w) + Elems(v[1..], w)
  }

  /** As many whole elements as there are. */
  function UnElems(b: seq<Byte>, w: nat): (v: seq<nat>)
    requires w > 0
    ensures forall i :: 0 <= i < |v| ==> v[i] < Pow256(w)
  {
    if |b| < w then [] else (ValueBound(b[..w]); [Value(b[..w])] + UnElems(b[w..], w))
  }

  lemma {:induction false} UnElemsOf(v: seq<nat>, w: nat)
    requires w > 0 && forall i :: 0 <= i < |v| ==> v[i] < Pow256(w)
    ensures UnElems(Elems(v, w), w) == v
  {
    if v != [] {
      var b := Elems(v, w);
      assert b == BytesOf(v[0], w) + Elems(v[1..], w);
      assert b[..w] == BytesOf(v[0], w) && b[w..] == Elems(v[1..], w);
      ValueOfBytes(v[0], w);
      UnElemsOf(v[1..], w);
    }
  }

  /** One stored column: its number, element size and uncompressed bytes. */
  datatype Col = Col(id: Byte, esz: Byte, raw: seq<Byte>)

  const CT_PC: Byte := 0
  const CT_DST: Byte := 1
  const CT_VAL: Byte := 2
  const CT_FLAGS: Byte := 3
  const CT_EXC_IDX: Byte := 4
  const CT_EXC_CAU: Byte := 5
  const CT_EXC_EPC: Byte := 6
  const CT_EXC_BAD: Byte := 7
  const CT_ST_PC: Byte := 8
  const CT_ST_ADDR: Byte := 9
  const CT_ST_DATA: Byte := 10

  /** A column vector becomes a column unless it is empty. */
  function Put(id: Byte, w: Byte, v: seq<nat>): (c: seq<Col>)
    ensures |c| <= 1
  {
    if v == [] then [] else [Col(id, w, Elems(v, w))]
  }

  /** The columns of a chunk in file order. */
  function ColumnsOf(c: Cols): (s: seq<Col>)
    ensures |s| <= 11
  {
    Put(CT_PC, 8, c.pc) + Put(CT_DST, 1, c.dst) + Put(CT_VAL, 8, c.val) + Put(CT_FLAGS, 1, c.flags)
    + Put(CT_EXC_IDX, 4, c.eidx) + Put(CT_EXC_CAU, 1, c.ecau) + Put(CT_EXC_EPC, 8, c.eepc) + Put(CT_EXC_BAD, 8, c.ebad)
    + Put(CT_ST_PC, 8, c.stpc) + Put(CT_ST_ADDR, 8, c.staddr) + Put(CT_ST_DATA, 8, c.stdata)
  }

  /** A column's ten-byte table entry; the sizes are cut to 32 bits. */
  function Entry(k: Codec, c: Col): (b: seq<Byte>)
    ensures |b| == 10
  {
    [c.id, c.esz] + BytesOf(|c.raw|, 4) + BytesOf(|k.comp(c.raw)|, 4)
  }

  function Table(k: Codec, cs: seq<Col>): (b: seq<Byte>)
    ensures |b| == 10 * |cs|
  {
    if cs == [] then [] else Entry(k, cs[0]) + Table(k, cs[1..])
  }

  function Bodies(k: Codec, cs: seq<Col>): seq<Byte>
  {
    if cs == [] then [] else k.comp(cs[0].raw) + Bodies(k, cs[1..])
  }

  /** A chunk: record count, column count, table, bodies. */
  function EncodeChunk(k: Codec, c: Cols): seq<Byte>
  {
    BytesOf(|c.pc|, 4) + BytesOf(|ColumnsOf(c)|, 4) + Table(k, ColumnsOf(c)) + Bodies(k, ColumnsOf(c))
  }

  function EncodeAll(k: Codec, chunks: seq<Cols>): seq<Byte>
  {
    if chunks == [] then [] else EncodeChunk(k, chunks[0]) + EncodeAll(k, chunks[1..])
  }

  lemma {:induction false} EncodeAllSnoc(k: Codec, chunks: seq<Cols>, c: Cols)
    ensures EncodeAll(k, chunks + [c]) == EncodeAll(k, chunks) + EncodeChunk(k, c)
  {
    hide EncodeChunk;
    if chunks == [] {
      assert EncodeAll(k, [c][1..]) == [];
      assert chunks + [c] == [c];
    } else {
      EncodeAllSnoc(k, chunks[1..], c);
      assert (chunks + [c])[1..] == chunks[1..] + [c];
    }
  }

  const MAGIC: seq<Byte> := [0x52, 0x39, 0x54, 0x52, 0x41, 0x43, 0x45, 0x31]
  const TRAILR: seq<Byte> := [0x52, 0x39, 0x54, 0x52, 0x41, 0x49, 0x4c, 0x52]

  function Trailer(nChunks: nat, total: nat): (b: seq<Byte>)
    ensures |b| == 24
  {
    BytesOf(nChunks, 8) + BytesOf(total, 8) + TRAILR
  }

  function Total(chunks: seq<Cols>): nat
  {
    if chunks == [] then 0 else Total(chunks[..|chunks| - 1]) + |chunks[|chunks| - 1].pc|
  }

  // ---- what the calls mean ----

  datatype Call =
    | Add(rec: Rec)
    | AddStore(store: StoreRec)
    | AddException(cause: Byte, epc: Word64, badv: Word64)

  /** The columns being filled, the chunks written, and whether the file is still open. */
  datatype Log = Log(pending: Cols, chunks: seq<Cols>, open: bool)

  const FRESH_LOG := Log(EMPTY, [], true)

  function Flushed(l: Log): Log { Log(EMPTY, l.chunks + [l.pending], l.open) }

  function WithRec(c: Cols, r: Rec): Cols
  {
    c.(pc := c.pc + [r.pc], dst := c.dst + [r.dst], val := c.val + [r.val], flags := c.flags + [r.flags])
  }

  function WithStore(c: Cols, s: StoreRec): Cols
  {
    c.(stpc := c.stpc + [s.pc], staddr := c.staddr + [s.addr], stdata := c.stdata + [s.data])
  }

  function WithException(c: Cols, cause: Byte, epc: Word64, badv: Word64): Cols
  {
    c.(eidx := c.eidx + [Wrap32(|c.pc|)], ecau := c.ecau + [cause], eepc := c.eepc + [epc], ebad := c.ebad + [badv])
  }

  /** The effect of a call; a chunk is written as soon as it holds chunkRecs records. */
  function After(l: Log, chunkRecs: Word32, a: Call): Log
  {
    if !l.open then l
    else
      match a
      case Add(r) =>
        var l' := l.(pending := WithRec(l.pending, r));
        if |l'.pending.pc| >= chunkRecs then Flushed(l') else l'
      case AddStore(s) => l.(pending := WithStore(l.pending, s))
      case AddException(cause, epc, badv) => l.(pending := WithException(l.pending, cause, epc, badv))
  }

  function Closed(l: Log): Log
  {
    if !l.open then l else (if l.pending.pc != [] then Flushed(l) else l).(open := false)
  }

  function AfterAll(chunkRecs: Word32, calls: seq<Call>): Log
  {
    if calls == [] then FRESH_LOG else After(AfterAll(chunkRecs, calls[..|calls| - 1]), chunkRecs, calls[|calls| - 1])
  }

  /** The bytes of the file a log stands for. */
  function FileOf(k: Codec, l: Log): seq<Byte>
  {
    MAGIC + EncodeAll(k, l.chunks) + if l.open then [] else Trailer(|l.chunks|, Total(l.chunks))
  }
}
