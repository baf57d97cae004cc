/** The trace writer: column vectors filled in place, a chunk written whenever they are full. */
module CtraceWriter {
  import opened Prelude
  import opened LittleEndian
  import opened CtraceFormat

  /** Table and bodies of the columns so far. */
  ghost predicate Staged(k: Codec, cs: seq<Col>, hdr: seq<Byte>, body: seq<Byte>)
  {
    hdr == Table(k, cs) && body == Bodies(k, cs)
  }

  lemma {:induction false} StagedMore(k: Codec, cs: seq<Col>, c: Col)
    ensures Table(k, cs + [c]) == Table(k, cs) + Entry(k, c)
    ensures Bodies(k, cs + [c]) == Bodies(k, cs) + k.comp(c.raw)
  {
    if cs == [] {
      assert Table(k, [c][1..]) == [] && Bodies(k, [c][1..]) == [];
      assert cs + [c] == [c];
    } else {
      StagedMore(k, cs[1..], c);
      assert (cs + [c])[1..] == cs[1..] + [c];
    }
  }

  class Writer {
    const codec: Codec
    const chunkRecs: Word32
    var open: bool
    var file: seq<Byte>
    var nChunks: nat
    var total: nat
    var staged: nat
    var pc: seq<Word64>
    var dst: seq<Byte>
    var val: seq<Word64>
    var flags: seq<Byte>
    var eidx: seq<Word32>
    var ecau: seq<Byte>
    var eepc: seq<Word64>
    var ebad: seq<Word64>
    var stpc: seq<Word64>
    var staddr: seq<Word64>
    var stdata: seq<Word64>
    ghost var chunks: seq<Cols>

    ghost function Pending(): Cols
      reads this
    {
      Cols(pc, dst, val, flags, eidx, ecau, eepc, ebad, stpc, staddr, stdata)
    }

    ghost function Value(): Log
      reads this
    {
      Log(Pending(), chunks, open)
    }

    /** The file is what the log says, and the counters are the log's. */
    ghost predicate Valid()
      reads this
    {
      file == FileOf(codec, Value()) && nChunks == |chunks| && total == Total(chunks)
    }

    constructor (codec: Codec, chunkRecs: Word32)
      ensures this.codec == codec && this.chunkRecs == chunkRecs && Valid() && Value() == FRESH_LOG
    {
      this.codec, this.chunkRecs := codec, chunkRecs;
      open, file, nChunks, total, staged := true, MAGIC, 0, 0, 0;
      pc, dst, val, flags := [], [], [], [];
      eidx, ecau, eepc, ebad := [], [], [], [];
      stpc, staddr, stdata := [], [], [];
      chunks := [];
      new;
      assert EncodeAll(codec, []) == [];
    }

    method Add(r: Rec)
      requires Valid()
      modifies this
      ensures Valid() && Value() == After(old(Value()), chunkRecs, Call.Add(r))
    {
      hide EncodeAll, EncodeChunk, Total;
      if !open { return; }
      pc, dst, val, flags := pc + [r.pc], dst + [r.dst], val + [r.val], flags + [r.flags];
      if |pc| >= chunkRecs { FlushChunk(); }
    }

    /** A committed store. */
    method AddStore(s: StoreRec)
      requires Valid()
      modifies this
      ensures Valid() && Value() == After(old(Value()), chunkRecs, Call.AddStore(s))
    {
      hide EncodeAll, EncodeChunk, Total;
      if !open { return; }
      stpc, staddr, stdata := stpc + [s.pc], staddr + [s.addr], stdata + [s.data];
    }

    /** An exception of the record about to be added. */
    method AddException(cause: Byte, epc: Word64, badv: Word64)
      requires Valid()
      modifies this
      ensures Valid() && Value() == After(old(Value()), chunkRecs, Call.AddException(cause, epc, badv))
    {
      hide EncodeAll, EncodeChunk, Total;
      if !open { return; }
      eidx := eidx + [Wrap32(|pc|)];
      ecau, eepc, ebad := ecau + [cause], eepc + [epc], ebad + [badv];
    }

    method Close()
      requires Valid()
      modifies this
      ensures Valid() && Value() == Closed(old(Value()))
    {
      hide EncodeAll, EncodeChunk, Total;
      if !open { return; }
      if pc != [] { FlushChunk(); }
      file := file + BytesOf(nChunks, 8) + BytesOf(total, 8) + TRAILR;
      open := false;
    }

    /** One column into the table and the bodies, unless it is empty. */
    method PutCol(id: Byte, w: Byte, v: seq<nat>, hdr: seq<Byte>, body: seq<Byte>, ghost cs: seq<Col>)
        returns (hdr': seq<Byte>, body': seq<Byte>)
      requires Staged(codec, cs, hdr, body) && staged == |cs|
      modifies `staged
      ensures Staged(codec, cs + Put(id, w, v), hdr', body') && staged == |cs + Put(id, w, v)|
    {
      hide Table, Bodies, Elems, Entry;
      if v == [] {
        assert cs + Put(id, w, v) == cs;
        return hdr, body;
      }
      var raw := Elems(v, w);
      var comp := codec.comp(raw);
      StagedMore(codec, cs, Col(id, w, raw));
      assert Entry(codec, Col(id, w, raw)) == [id, w] + BytesOf(|raw|, 4) + BytesOf(|comp|, 4) by {
        EntryIs(codec, Col(id, w, raw));
      }
      hdr' := hdr + ([id, w] + BytesOf(|raw|, 4) + BytesOf(|comp|, 4));
      body' := body + comp;
      staged := staged + 1;
    }

    /** The four record columns. */
    method PutRecords() returns (hdr: seq<Byte>, body: seq<Byte>)
      modifies `staged
      ensures Staged(codec, RecordCols(Pending()), hdr, body) && staged == |RecordCols(Pending())|
    {
      hide Staged, Put;
      NothingStaged(codec);
      staged, hdr, body := 0, [], [];
      hdr, body := PutCol(CT_PC, 8, pc, hdr, body, []);
      ghost var s := [] + Put(CT_PC, 8, pc);
      hdr, body := PutCol(CT_DST, 1, dst, hdr, body, s);
      s := s + Put(CT_DST, 1, dst);
      hdr, body := PutCol(CT_VAL, 8, val, hdr, body, s);
      s := s + Put(CT_VAL, 8, val);
      hdr, body := PutCol(CT_FLAGS, 1, flags, hdr, body, s);
      s := s + Put(CT_FLAGS, 1, flags);
      assert [] + Put(CT_PC, 8, pc) == Put(CT_PC, 8, pc);
    }

    /** The four exception columns. */
    method PutExceptions(hdr0: seq<Byte>, body0: seq<Byte>, ghost cs: seq<Col>)
        returns (hdr: seq<Byte>, body: seq<Byte>)
      requires Staged(codec, cs, hdr0, body0) && staged == |cs|
      modifies `staged
      ensures Staged(codec, ExceptionCols(cs, Pending()), hdr, body) && staged == |ExceptionCols(cs, Pending())|
    {
      hide Staged, Put;
      hdr, body := PutCol(CT_EXC_IDX, 4, eidx, hdr0, body0, cs);
      ghost var s := cs + Put(CT_EXC_IDX, 4, eidx);
      hdr, body := PutCol(CT_EXC_CAU, 1, ecau, hdr, body, s);
      s := s + Put(CT_EXC_CAU, 1, ecau);
      hdr, body := PutCol(CT_EXC_EPC, 8, eepc, hdr, body, s);
      s := s + Put(CT_EXC_EPC, 8, eepc);
      hdr, body := PutCol(CT_EXC_BAD, 8, ebad, hdr, body, s);
    }

    /** The three store columns. */
    method PutStores(hdr0: seq<Byte>, body0: seq<Byte>, ghost cs: seq<Col>) returns (hdr: seq<Byte>, body: seq<Byte>)
      requires Staged(codec, cs, hdr0, body0) && staged == |cs|
      modifies `staged
      ensures Staged(codec, StoreCols(cs, Pending()), hdr, body) && staged == |StoreCols(cs, Pending())|
    {
      hide Staged, Put;
      hdr, body := PutCol(CT_ST_PC, 8, stpc, hdr0, body0, cs);
      ghost var s := cs + Put(CT_ST_PC, 8, stpc);
      hdr, body := PutCol(CT_ST_ADDR, 8, staddr, hdr, body, s);
      s := s + Put(CT_ST_ADDR, 8, staddr);
      hdr, body := PutCol(CT_ST_DATA, 8, stdata, hdr, body, s);
    }

    /** The bytes of the chunk the columns make. */
    method StageChunk() returns (bytes: seq<Byte>)
      modifies `staged
      ensures bytes == EncodeChunk(codec, Pending())
    {
      hide EncodeChunk, ColumnsOf, RecordCols, ExceptionCols, StoreCols, Staged, BytesOf;
      ghost var c := Pending();
      var hdr, body := PutRecords();
      hdr, body := PutExceptions(hdr, body, RecordCols(c));
      hdr, body := PutStores(hdr, body, ExceptionCols(RecordCols(c), c));
      ChunkBytes(codec, c, hdr, body);
      bytes := BytesOf(|pc|, 4) + BytesOf(staged, 4) + hdr + body;
    }

    method ClearColumns()
      modifies `pc, `dst, `val, `flags, `eidx, `ecau, `eepc, `ebad, `stpc, `staddr, `stdata
      ensures Pending() == EMPTY
    {
      pc, dst, val, flags := [], [], [], [];
      eidx, ecau, eepc, ebad := [], [], [], [];
      stpc, staddr, stdata := [], [], [];
    }

    /** The columns become a chunk and start again. */
    method FlushChunk()
      requires Valid() && open
      modifies this
      ensures Valid() && Value() == Flushed(old(Value()))
    {
      hide EncodeChunk, Total, FileOf;
      ghost var l := Value();
      var bytes := StageChunk();
      file := file + bytes;
      FileGrows(codec, l);
      TotalSnoc(chunks, l.pending);
      total, nChunks := total + |pc|, nChunks + 1;
      chunks := chunks + [l.pending];
      ClearColumns();
    }
  }

  lemma FileGrows(k: Codec, l: Log)
    requires l.open
    ensures FileOf(k, Flushed(l)) == FileOf(k, l) + EncodeChunk(k, l.pending)
  {
    hide EncodeAll, EncodeChunk;
    EncodeAllSnoc(k, l.chunks, l.pending);
  }

  function RecordCols(c: Cols): seq<Col>
  {
    Put(CT_PC, 8, c.pc) + Put(CT_DST, 1, c.dst) + Put(CT_VAL, 8, c.val) + Put(CT_FLAGS, 1, c.flags)
  }

  function ExceptionCols(cs: seq<Col>, c: Cols): seq<Col>
  {
    cs + Put(CT_EXC_IDX, 4, c.eidx) + Put(CT_EXC_CAU, 1, c.ecau) + Put(CT_EXC_EPC, 8, c.eepc)
      + Put(CT_EXC_BAD, 8, c.ebad)
  }

  function StoreCols(cs: seq<Col>, c: Cols): seq<Col>
  {
    cs + Put(CT_ST_PC, 8, c.stpc) + Put(CT_ST_ADDR, 8, c.staddr) + Put(CT_ST_DATA, 8, c.stdata)
  }

  /** Counts, table and bodies of all the columns are the chunk. */
  lemma ChunkBytes(k: Codec, c: Cols, hdr: seq<Byte>, body: seq<Byte>)
    requires Staged(k, StoreCols(ExceptionCols(RecordCols(c), c), c), hdr, body)
    ensures StoreCols(ExceptionCols(RecordCols(c), c), c) == ColumnsOf(c)
    ensures BytesOf(|c.pc|, 4) + BytesOf(|ColumnsOf(c)|, 4) + hdr + body == EncodeChunk(k, c)
  {
    hide Put, Table, Bodies, BytesOf;
  }

  lemma EntryIs(k: Codec, c: Col)
    ensures Entry(k, c) == [c.id, c.esz] + BytesOf(|c.raw|, 4) + BytesOf(|k.comp(c.raw)|, 4)
  {
  }

  lemma NothingStaged(k: Codec)
    ensures Staged(k, [], [], [])
  {
  }

  lemma TotalSnoc(chunks: seq<Cols>, c: Cols)
    ensures Total(chunks + [c]) == Total(chunks) + |c.pc|
  {
    assert (chunks + [c])[..|chunks|] == chunks;
  }
}
