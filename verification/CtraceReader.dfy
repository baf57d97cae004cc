/**
 The trace reader: a cursor over the file, chunk after chunk until the trailer, the end or an
 error, proved against a recursive reading of the bytes.
 */
module CtraceReader {
  import opened Prelude
  import opened LittleEndian
  import opened CtraceFormat

  /** A table entry as read. */
  datatype Info = Info(id: Byte, esz: Byte, raw: Word32, comp: Word32)

  /** The columns of one chunk as the reader keeps them: of the exceptions only the count. */
  datatype View = View(pc: seq<nat>, dst: seq<Byte>, val: seq<nat>, flags: seq<Byte>, excs: nat,
                       stpc: seq<nat>, staddr: seq<nat>, stdata: seq<nat>)

  const NOTHING := View([], [], [], [], 0, [], [], [])

  datatype BodyEnd = Done | Cut | Bad

  /** The columns decompressed, the position after them, and how it ended. */
  datatype BodyRead = BodyRead(cols: seq<Col>, pos: nat, end: BodyEnd)

  /** What the bytes at a position turn out to be. */
  datatype Outcome = NoChunk | ShortHeader | Partial(excs: nat) | Failed | Chunk(view: View, pos: nat)

  datatype End = Stopped(pos: nat) | Discarded(excs: nat) | Aborted

  /** The complete chunks and how reading ended. */
  datatype Report = Report(chunks: seq<View>, end: End)

  // ---- specification ----

  function Word4(f: seq<Byte>, pos: nat): Word32
    requires pos + 4 <= |f|
  {
    ValueBound(f[pos..pos + 4]);
    Weights();
    Value(f[pos..pos + 4])
  }

  function InfoAt(f: seq<Byte>, pos: nat): Info
    requires pos + 10 <= |f|
  {
    Info(f[pos], f[pos + 1], Word4(f, pos + 2), Word4(f, pos + 6))
  }

  function ReadTable(f: seq<Byte>, pos: nat, nc: nat): (r: Option<seq<Info>>)
    ensures r.Some? ==> |r.value| == nc && (nc > 0 ==> pos + 10 * nc <= |f|)
    decreases nc
  {
    if nc == 0 then Some([])
    else if pos + 10 > |f| then None
    else
      var rest := ReadTable(f, pos + 10, nc - 1);
      if rest.None? then None else Some([InfoAt(f, pos)] + rest.value)
  }

  function ReadBodies(k: Codec, f: seq<Byte>, pos: nat, infos: seq<Info>): (r: BodyRead)
    requires pos <= |f|
    ensures pos <= r.pos <= |f|
    decreases |infos|
  {
    if infos == [] then BodyRead([], pos, Done)
    else if pos + infos[0].comp > |f| then BodyRead([], pos, Cut)
    else
      var raw := k.decomp(f[pos..pos + infos[0].comp]);
      if raw.None? || |raw.value| != infos[0].raw then BodyRead([], pos, Bad)
      else
        var rest := ReadBodies(k, f, pos + infos[0].comp, infos[1..]);
        rest.(cols := [Col(infos[0].id, infos[0].esz, raw.value)] + rest.cols)
  }

  /** One column into the view; a number the reader does not use is skipped. */
  function Assign(v: View, c: Col): View
  {
    Weights();
    if c.id == CT_PC then v.(pc := UnElems(c.raw, 8))
    else if c.id == CT_VAL then v.(val := UnElems(c.raw, 8))
    else if c.id == CT_DST then v.(dst := c.raw)
    else if c.id == CT_FLAGS then v.(flags := c.raw)
    else if c.id == CT_EXC_IDX then v.(excs := v.excs + |c.raw| / 4)
    else if c.id == CT_ST_PC then v.(stpc := UnElems(c.raw, 8))
    else if c.id == CT_ST_ADDR then v.(staddr := UnElems(c.raw, 8))
    else if c.id == CT_ST_DATA then v.(stdata := UnElems(c.raw, 8))
    else v
  }

  function AssignAll(v: View, cs: seq<Col>): View
    decreases |cs|
  {
    if cs == [] then v else AssignAll(Assign(v, cs[0]), cs[1..])
  }

  function ReadChunk(k: Codec, f: seq<Byte>, pos: nat): (o: Outcome)
    ensures o.Chunk? ==> pos + 8 <= o.pos <= |f|
  {
    if pos + 8 > |f| then NoChunk
    else
      var n, nc := Word4(f, pos), Word4(f, pos + 4);
      if nc == 0 || nc > 16 then NoChunk
      else
        var infos := ReadTable(f, pos + 8, nc);
        if infos.None? then ShortHeader
        else
          var b := ReadBodies(k, f, pos + 8 + 10 * nc, infos.value);
          var v := AssignAll(NOTHING, b.cols);
          match b.end
          case Cut => Partial(v.excs)
          case Bad => Failed
          case Done => if |v.pc| != n then Failed else Chunk(v, b.pos)
  }

  function ReadAll(k: Codec, f: seq<Byte>, pos: nat): Report
    requires pos <= |f|
    decreases |f| - pos
  {
    match ReadChunk(k, f, pos)
    case NoChunk => Report([], Stopped(pos))
    case ShortHeader => Report([], Aborted)
    case Failed => Report([], Aborted)
    case Partial(e) => Report([], Discarded(e))
    case Chunk(v, p) =>
      var rest := ReadAll(k, f, p);
      rest.(chunks := [v] + rest.chunks)
  }

  /** The counts of a trailer at the place where reading stopped. */
  function TrailerAt(f: seq<Byte>, end: End): Option<(nat, nat)>
  {
    match end
    case Stopped(pos) =>
      if pos + 24 <= |f| && f[pos + 16..pos + 24] == TRAILR then
        Some((Value(f[pos..pos + 8]), Value(f[pos + 8..pos + 16])))
      else None
    case _ => None
  }

  datatype Summary = NotATrace | NoSummary | Summary(report: Report, trailer: Option<(nat, nat)>)

  /** The whole program: nothing on an abort, else the chunks and the trailer, if any. */
  function Dump(k: Codec, f: seq<Byte>): Summary
  {
    if |f| < 8 || f[..8] != MAGIC then NotATrace
    else
      var r := ReadAll(k, f, 8);
      if r.end.Aborted? then NoSummary else Summary(r, TrailerAt(f, r.end))
  }

  // ---- the reader's loops ----

  class Reader {
    const codec: Codec
    const file: seq<Byte>
    var pos: nat

    constructor (codec: Codec, file: seq<Byte>)
      ensures this.codec == codec && this.file == file && pos == 0
    {
      this.codec, this.file, pos := codec, file, 0;
    }

    /** n bytes, or None with the cursor at the end. */
    method Rd(n: nat) returns (b: Option<seq<Byte>>)
      requires pos <= |file|
      modifies this
      ensures old(pos) + n <= |file| ==> b == Some(file[old(pos)..old(pos) + n]) && pos == old(pos) + n
      ensures old(pos) + n > |file| ==> b == None && pos == |file|
    {
      if pos + n <= |file| {
        b := Some(file[pos..pos + n]);
        pos := pos + n;
      } else {
        b, pos := None, |file|;
      }
    }

    /** A four-byte number. */
    method Rd4() returns (w: Option<Word32>)
      requires pos <= |file|
      modifies this
      ensures old(pos) + 4 <= |file| ==> w == Some(Word4(file, old(pos))) && pos == old(pos) + 4
      ensures old(pos) + 4 > |file| ==> w == None && pos == |file|
    {
      var b := Rd(4);
      if b.None? { return None; }
      ValueBound(b.value);
      Weights();
      w := Some(Value(b.value));
    }

    method Header(nc: nat) returns (infos: Option<seq<Info>>)
      requires pos <= |file|
      modifies this
      ensures pos <= |file| && infos == ReadTable(file, old(pos), nc)
      ensures infos.Some? ==> pos == old(pos) + 10 * nc
    {
      hide Word4;
      var got: seq<Info> := [];
      JoinedNone(ReadTable(file, pos, nc));
      while |got| < nc
        invariant |got| <= nc && pos == old(pos) + 10 * |got| <= |file|
        invariant var rest := ReadTable(file, pos, nc - |got|);
                  ReadTable(file, old(pos), nc) == Joined(got, rest)
      {
        ghost var start, was := pos, got;
        var id := Rd(1);
        if id.None? { return None; }
        var esz := Rd(1);
        if esz.None? { return None; }
        var raw := Rd4();
        if raw.None? { return None; }
        var comp := Rd4();
        if comp.None? { return None; }
        got := got + [Info(id.value[0], esz.value[0], raw.value, comp.value)];
        assert got == was + [InfoAt(file, start)];
        Regroup(was, InfoAt(file, start), ReadTable(file, pos, nc - |got|));
      }
      infos := Some(got);
      assert got + [] == got;
    }

    method Bodies(infos: seq<Info>) returns (cols: seq<Col>, end: BodyEnd)
      requires pos <= |file|
      modifies this
      ensures pos <= |file|
      ensures var r := ReadBodies(codec, file, old(pos), infos);
              cols == r.cols && end == r.end && (end == Done ==> pos == r.pos)
    {
      hide ReadBodies;
      cols := [];
      var i := 0;
      assert infos[0..] == infos;
      NoneBefore(ReadBodies(codec, file, pos, infos));
      while i < |infos|
        invariant 0 <= i <= |infos| && pos <= |file|
        invariant ReadBodies(codec, file, old(pos), infos) == Before(cols, ReadBodies(codec, file, pos, infos[i..]))
      {
        ghost var start, was := pos, cols;
        var info := infos[i];
        BodyStep(codec, file, pos, infos[i..], cols);
        assert infos[i..][1..] == infos[i + 1..];
        var c := Rd(info.comp);
        if c.None? { return cols, Cut; }
        var raw := codec.decomp(c.value);
        if raw.None? || |raw.value| != info.raw { return cols, Bad; }
        cols := cols + [Col(info.id, info.esz, raw.value)];
        i := i + 1;
      }
      assert infos[i..] == [];
      NoBodies(codec, file, pos, cols);
      end := Done;
    }

    /** The switch over the columns of a chunk. */
    method Fill(cols: seq<Col>) returns (v: View)
      ensures v == AssignAll(NOTHING, cols)
    {
      hide Assign;
      v := NOTHING;
      for i := 0 to |cols|
        invariant AssignAll(NOTHING, cols) == AssignAll(v, cols[i..])
      {
        v := Assign(v, cols[i]);
      }
    }

    method NextChunk() returns (o: Outcome)
      requires pos <= |file|
      modifies this
      ensures o == ReadChunk(codec, file, old(pos)) && pos <= |file|
      ensures o.Chunk? ==> pos == o.pos
      ensures o == NoChunk ==> if old(pos) + 8 <= |file| then pos == old(pos) else pos >= old(pos)
    {
      hide Word4, ReadTable, ReadBodies, AssignAll;
      var start := pos;
      var n := Rd4();
      if n.None? { return NoChunk; }
      var nc := Rd4();
      if nc.None? { return NoChunk; }
      if nc.value == 0 || nc.value > 16 {
        pos := start;
        return NoChunk;
      }
      var infos := Header(nc.value);
      if infos.None? { return ShortHeader; }
      var cols, end := Bodies(infos.value);
      var v := Fill(cols);
      match end {
        case Cut => o := Partial(v.excs);
        case Bad => o := Failed;
        case Done => o := if |v.pc| != n.value then Failed else Chunk(v, pos);
      }
    }

    /** The program's main loop and trailer check. */
    method Run() returns (s: Summary)
      requires pos == 0
      modifies this
      ensures s == Dump(codec, file)
    {
      hide ReadChunk;
      var magic := Rd(8);
      if magic.None? || magic.value != MAGIC { return NotATrace; }
      var chunks: seq<View> := [];
      ghost var whole := ReadAll(codec, file, 8);
      while true
        invariant 8 <= pos <= |file|
        invariant var rest := ReadAll(codec, file, pos);
                  whole == rest.(chunks := chunks + rest.chunks)
        decreases |file| - pos
      {
        var start := pos;
        var o := NextChunk();
        match o {
          case ShortHeader => return NoSummary;
          case Failed => return NoSummary;
          case Partial(e) => return Summary(Report(chunks, Discarded(e)), None);
          case Chunk(v, _) =>
            Regroup2(chunks, v, ReadAll(codec, file, pos).chunks);
            chunks := chunks + [v];
          case NoChunk =>
            var t := ReadTrailer(start);
            return Summary(Report(chunks, Stopped(start)), t);
        }
      }
    }

    /** Three reads; they fail together unless all 24 bytes are there. */
    method ReadTrailer(ghost start: nat) returns (t: Option<(nat, nat)>)
      requires pos <= |file| && start <= |file| && (if start + 8 <= |file| then pos == start else pos >= start)
      modifies this
      ensures t == TrailerAt(file, Stopped(start))
    {
      var tc := Rd(8);
      if tc.None? { return None; }
      var tr := Rd(8);
      if tr.None? { return None; }
      var tm := Rd(8);
      if tm.None? || tm.value != TRAILR { return None; }
      t := Some((Value(tc.value), Value(tr.value)));
    }
  }

  /** Columns read before, then the rest. */
  ghost function Before(cols: seq<Col>, r: BodyRead): BodyRead { r.(cols := cols + r.cols) }

  lemma NoneBefore(r: BodyRead)
    ensures Before([], r) == r
  {
    assert [] + r.cols == r.cols;
  }

  lemma NoBodies(k: Codec, f: seq<Byte>, pos: nat, cols: seq<Col>)
    requires pos <= |f|
    ensures Before(cols, ReadBodies(k, f, pos, [])) == BodyRead(cols, pos, Done)
  {
    assert cols + [] == cols;
  }

  /** One column: cut, bad, or one more. */
  lemma BodyStep(k: Codec, f: seq<Byte>, pos: nat, infos: seq<Info>, cols: seq<Col>)
    requires pos <= |f| && infos != []
    ensures var i, b := infos[0], Before(cols, ReadBodies(k, f, pos, infos));
            if pos + i.comp > |f| then b == BodyRead(cols, pos, Cut)
            else
              var raw := k.decomp(f[pos..pos + i.comp]);
              if raw.None? || |raw.value| != i.raw then b == BodyRead(cols, pos, Bad)
              else b == Before(cols + [Col(i.id, i.esz, raw.value)], ReadBodies(k, f, pos + i.comp, infos[1..]))
  {
    var i := infos[0];
    assert cols + [] == cols;
    if pos + i.comp <= |f| {
      var raw := k.decomp(f[pos..pos + i.comp]);
      if raw.Some? && |raw.value| == i.raw {
        var c, rest := Col(i.id, i.esz, raw.value), ReadBodies(k, f, pos + i.comp, infos[1..]).cols;
        assert cols + ([c] + rest) == (cols + [c]) + rest;
      }
    }
  }

  /** Entries read before, then the rest of the table. */
  ghost function Joined(got: seq<Info>, rest: Option<seq<Info>>): Option<seq<Info>>
  {
    if rest.None? then None else Some(got + rest.value)
  }

  lemma JoinedNone(rest: Option<seq<Info>>)
    ensures Joined([], rest) == rest
  {
    if rest.Some? { assert [] + rest.value == rest.value; }
  }

  lemma Regroup(was: seq<Info>, i: Info, rest: Option<seq<Info>>)
    ensures rest.Some? ==> was + ([i] + rest.value) == (was + [i]) + rest.value
  {
  }

  lemma Regroup2(was: seq<View>, v: View, rest: seq<View>)
    ensures was + ([v] + rest) == (was + [v]) + rest
  {
  }
}
