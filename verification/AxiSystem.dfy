/**
 The master closed with an AXI slave whose memory effects float freely: a read beat takes its
 value at any instant between the address handshake and its transfer, a write beat takes
 effect at any instant between its own transfer and the response, and the two IDs are served
 in any order. An observer logs every acceptance and every response.
 */
module AxiSystem {
  import opened Prelude
  import opened AxiBus
  import AxiLane
  import AxiMaster

  /** A read transaction in the slave: beats sampled so far, next beat to send. */
  datatype ReadTxn = ReadTxn(addr: Word32, len: nat, vals: seq<Option<Beat>>, next: nat)

  datatype WriteBeat = WriteBeat(data: Beat, strb: Strobe)

  /** A write transaction in the slave: beats received, indices of those already in memory. */
  datatype WriteTxn = WriteTxn(addr: Word32, len: nat, got: seq<WriteBeat>, applied: set<nat>)
  {
    predicate Complete() { |got| == len + 1 && (forall k :: 0 <= k <= len ==> k in applied) }
  }

  /** The slave's transactions of one ID. */
  datatype Port = Port(rd: Option<ReadTxn>, wr: Option<WriteTxn>)
  {
    /** The slave can put a beat of this ID on the R channel. */
    predicate CanSend() { rd.Some? && rd.value.next < |rd.value.vals| && rd.value.vals[rd.value.next].Some? }
    predicate CanRespond() { wr.Some? && wr.value.Complete() }
  }

  /** A memory effect: sample beat k of the read of an ID, or apply beat k of its write. */
  datatype Act = Sample(id: Lane, k: nat) | Apply(id: Lane, k: nat)

  /** Master, slave ports, the order in which write data is expected, and the memory. */
  datatype Sys = Sys(m: AxiMaster.Regs, p0: Port, p1: Port, wq: seq<Lane>, mem: Mem)
  {
    function P(id: Lane): Port { if id == 0 then p0 else p1 }
  }

  function First(addr: Word32): nat { addr / 16 }

  function DoSample(p: Port, mem: Mem, k: nat): Port
  {
    if p.rd.Some? && k < |p.rd.value.vals| && p.rd.value.vals[k].None? && First(p.rd.value.addr) + k < N_BEATS then
      p.(rd := Some(p.rd.value.(vals := p.rd.value.vals[k := Some(mem[First(p.rd.value.addr) + k])])))
    else p
  }

  predicate CanApply(p: Port, k: nat)
  {
    p.wr.Some? && k < |p.wr.value.got| && k !in p.wr.value.applied && First(p.wr.value.addr) + k < N_BEATS
  }

  function ApplyTo(p: Port, mem: Mem, k: nat): Mem
    requires CanApply(p, k)
  {
    var a := First(p.wr.value.addr) + k;
    mem[a := Merge(mem[a], p.wr.value.got[k].data, p.wr.value.got[k].strb)]
  }

  function MarkApplied(p: Port, k: nat): Port
    requires CanApply(p, k)
  {
    p.(wr := Some(p.wr.value.(applied := p.wr.value.applied + {k})))
  }

  /** A memory effect that is not enabled does nothing. */
  function Do(s: Sys, a: Act): Sys
  {
    match a
    case Sample(id, k) =>
      if id == 0 then s.(p0 := DoSample(s.p0, s.mem, k)) else s.(p1 := DoSample(s.p1, s.mem, k))
    case Apply(id, k) =>
      if !CanApply(s.P(id), k) then s
      else if id == 0 then s.(mem := ApplyTo(s.p0, s.mem, k), p0 := MarkApplied(s.p0, k))
      else s.(mem := ApplyTo(s.p1, s.mem, k), p1 := MarkApplied(s.p1, k))
  }

  function DoAll(s: Sys, acts: seq<Act>): Sys
  {
    if acts == [] then s else Do(DoAll(s, acts[..|acts| - 1]), acts[|acts| - 1])
  }

  /** What happens on the five channels of one ID in one cycle. */
  datatype PortEvents = PortEvents(
    ar: Option<(Word32, nat)>, rTaken: bool, aw: Option<(Word32, nat)>, w: Option<WriteBeat>, bTaken: bool)

  function NextPort(p: Port, e: PortEvents): Port
  {
    var rd :=
      if e.ar.Some? then Some(ReadTxn(e.ar.value.0, e.ar.value.1, seq(e.ar.value.1 + 1, _ => None), 0))
      else if e.rTaken && p.rd.Some? then
        if p.rd.value.next == p.rd.value.len then None else Some(p.rd.value.(next := p.rd.value.next + 1))
      else p.rd;
    var wr :=
      if e.aw.Some? then Some(WriteTxn(e.aw.value.0, e.aw.value.1, [], {}))
      else if e.w.Some? && p.wr.Some? then Some(p.wr.value.(got := p.wr.value.got + [e.w.value]))
      else if e.bTaken then None
      else p.wr;
    Port(rd, wr)
  }

  /** The environment's choices for one cycle; every choice is legal. */
  datatype Choice = Choice(
    acts: seq<Act>, cfg: Config, req0: Request, req1: Request,
    arReady: bool, awReady: bool, wReady: bool, rSel: Option<Lane>, bSel: Option<Lane>)

  /** The bus as the master sees it: R and B are valid only when the slave has them. */
  function MasterIn(s: Sys, c: Choice): AxiMaster.Inputs
  {
    var r := if c.rSel.Some? && s.P(c.rSel.value).CanSend() then
               var t := s.P(c.rSel.value).rd.value;
               Some((c.rSel.value, AxiLane.ReadBeat(t.vals[t.next].value, t.next == t.len)))
             else None;
    var b := if c.bSel.Some? && s.P(c.bSel.value).CanRespond() then c.bSel else None;
    AxiMaster.Inputs(c.cfg, c.req0, c.req1, c.arReady, c.awReady, c.wReady, r, b)
  }

  /** The slave's view of the channels: addresses come with their ID, write data does not and
      goes to the oldest write whose data is still due. */
  function EventsOf(s: Sys, i: AxiMaster.Inputs, id: Lane): PortEvents
    requires s.m.l0.beat < 4 && s.m.l1.beat < 4
  {
    var m := s.m;
    var ar := m.L(m.ArSel());
    var aw := m.L(m.AwSel());
    var wl := m.L(m.wOwn);
    PortEvents(
      if AxiMaster.ArFire(m, i) && m.ArSel() == id then Some((ar.addr, ar.len)) else None,
      i.r.Some? && i.r.value.0 == id,
      if AxiMaster.AwFire(m, i) && m.AwSel() == id then Some((aw.addr, aw.len)) else None,
      if AxiMaster.WFire(m, i) && s.wq != [] && s.wq[0] == id then Some(WriteBeat(wl.sd[wl.beat], wl.Strb())) else None,
      i.b == Some(id))
  }

  /** The write-data order: a burst leaves when the slave has its AWLEN + 1 beats. */
  function NextWq(s: Sys, i: AxiMaster.Inputs): seq<Lane>
  {
    var q := if AxiMaster.WFire(s.m, i) && s.wq != [] && s.P(s.wq[0]).wr.Some?
                && |s.P(s.wq[0]).wr.value.got| == s.P(s.wq[0]).wr.value.len
             then s.wq[1..] else s.wq;
    if AxiMaster.AwFire(s.m, i) then q + [s.m.AwSel()] else q
  }

  /** One clock edge of master and slave. */
  function Edge(s: Sys, i: AxiMaster.Inputs): Sys
    requires s.m.l0.beat < 4 && s.m.l1.beat < 4
  {
    Sys(AxiMaster.Next(s.m, i), NextPort(s.p0, EventsOf(s, i, 0)), NextPort(s.p1, EventsOf(s, i, 1)),
        NextWq(s, i), s.mem)
  }

  // ---- the observer ----

  /** A response: which log entry it answers, the error flag and the data. */
  datatype Response = Response(lane: Lane, idx: Option<nat>, bad: bool, data: seq<Beat>)

  /** Accesses in acceptance order, the log index of each lane's current access, responses. */
  datatype Obs = Obs(log: seq<Access>, cur0: Option<nat>, cur1: Option<nat>, rsps: seq<Response>)

  datatype World = World(s: Sys, o: Obs)

  function AccessesOf(id: Lane, l: AxiLane.Regs, i: AxiLane.Inputs): seq<Access>
  {
    if AxiLane.Accepts(id, l, i) then [AxiLane.Candidate(id, i)] else []
  }

  function ResponsesOf(id: Lane, cur: Option<nat>, l: AxiLane.Regs): seq<Response>
    requires l.len < 4
  {
    if l.rspValid then [Response(id, cur, l.rspBad, if l.isWr then [] else l.data[..l.len + 1])] else []
  }

  function Observe(o: Obs, m: AxiMaster.Regs, i: AxiMaster.Inputs, m': AxiMaster.Regs): Obs
    requires m'.l0.len < 4 && m'.l1.len < 4
  {
    var a0 := AccessesOf(0, m.l0, AxiMaster.LaneIn0(m, i));
    var a1 := AccessesOf(1, m.l1, AxiMaster.LaneIn1(m, i));
    var cur0 := if a0 != [] then Some(|o.log|) else o.cur0;
    var cur1 := if a1 != [] then Some(|o.log| + |a0|) else o.cur1;
    Obs(o.log + a0 + a1, cur0, cur1, o.rsps + ResponsesOf(0, cur0, m'.l0) + ResponsesOf(1, cur1, m'.l1))
  }

  predicate Sane(m: AxiMaster.Regs) { m.l0.beat < 4 && m.l1.beat < 4 && m.l0.len < 4 && m.l1.len < 4 }

  lemma SaneNext(m: AxiMaster.Regs, i: AxiMaster.Inputs)
    requires Sane(m)
    ensures Sane(AxiMaster.Next(m, i))
  {
    hide AxiLane.Next, AxiMaster.LaneIn0, AxiMaster.LaneIn1;
    LaneSane(0, m.l0, AxiMaster.LaneIn0(m, i));
    LaneSane(1, m.l1, AxiMaster.LaneIn1(m, i));
  }

  lemma LaneSane(id: Lane, l: AxiLane.Regs, i: AxiLane.Inputs)
    requires l.beat < 4 && l.len < 4
    ensures var l' := AxiLane.Next(id, l, i); l'.beat < 4 && l'.len < 4
  {
    hide AxiLane.Accepts, AxiLane.LatchedAddr;
  }

  /** What the observer has seen after a clock edge. */
  function Observed(o: Obs, s: Sys, i: AxiMaster.Inputs): Obs
    requires Sane(s.m)
  {
    SaneNext(s.m, i);
    Observe(o, s.m, i, AxiMaster.Next(s.m, i))
  }

  /** One cycle: the memory effects, then the clock edge, then what the observer saw. */
  function Step(w: World, c: Choice): (w': World)
    requires Sane(w.s.m)
    ensures Sane(w'.s.m)
  {
    var s := DoAll(w.s, c.acts);
    DoAllKeepsMaster(w.s, c.acts);
    var i := MasterIn(s, c);
    SaneNext(s.m, i);
    World(Edge(s, i), Observed(w.o, s, i))
  }

  lemma DoAllKeepsMaster(s: Sys, acts: seq<Act>)
    ensures DoAll(s, acts).m == s.m && DoAll(s, acts).wq == s.wq
  {
  }

  /** Power-up: lanes in reset, nothing in the slave, memory m0. */
  function Init(m0: Mem, sd0: Quad, data0: Quad, sd1: Quad, data1: Quad): World
  {
    World(Sys(AxiMaster.ResetRegs(AxiLane.ResetRegs(sd0, data0), AxiLane.ResetRegs(sd1, data1)),
              Port(None, None), Port(None, None), [], m0),
          Obs([], None, None, []))
  }

  function Run(w: World, cs: seq<Choice>): (w': World)
    requires Sane(w.s.m)
    ensures Sane(w'.s.m)
  {
    if cs == [] then w else Step(Run(w, cs[..|cs| - 1]), cs[|cs| - 1])
  }
}
