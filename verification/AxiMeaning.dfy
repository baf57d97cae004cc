/**
 What the requests mean, told from opcode, address and lane: 4 loads and 7 stores sixteen bytes on
 either lane, 5 loads and 6 stores a 64-byte line on the devices' lane, and nothing else is ever
 accepted. Every run answers, and leaves memory, as a sequential memory with that meaning does.
 */
module AxiMeaning {
  import opened Prelude
  import opened AxiBus
  import AxiLane
  import AxiMaster
  import opened AxiSystem
  import opened AxiRefinement

  const LOAD16 := 4
  const LOAD64 := 5
  const STORE64 := 6
  const STORE16 := 7

  /** Where an address goes on the bus, from the control registers: the bench's map of the IP22
      address space (the address itself outside SGI mode), on top of the base. */
  function Offset(c: Config, a: nat): nat { if c.sgi && a < TWO32 then FpgaMap(a).0 else a }

  lemma BusAddress(c: Config, a: nat)
    ensures AxiAddr(c, a) == (c.base + Offset(c, a)) % TWO32 && (OutOfRange(c, a) <==> Offset(c, a) > c.addrmask)
  {
    var f := Fold(c.sgi, a);
    assert (c.base + f) % TWO32 == (c.base + f % TWO32) % TWO32;
  }

  /** The bus address of a request and whether it is inside DRAM. */
  function Bus(x: Access): Word32 { (x.cfg.base + Offset(x.cfg, x.req.addr)) % TWO32 }

  predicate Inside(x: Access) { Offset(x.cfg, x.req.addr) <= x.cfg.addrmask }

  /** The accesses there are. */
  predicate Known(x: Access)
  {
    x.req.valid && (x.req.opcode == LOAD16 || x.req.opcode == STORE16
                    || (x.lane == 1 && (x.req.opcode == LOAD64 || x.req.opcode == STORE64)))
  }

  predicate AllKnown(log: seq<Access>) { forall k :: 0 <= k < |log| ==> Known(log[k]) }

  function Masked(was: Beat, data: Beat, mask: Strobe): Beat
  {
    seq(16, i requires 0 <= i < 16 => if mask[i] then data[i] else was[i])
  }

  /** Memory after an access. */
  function Meant(m: Mem, x: Access): Mem
  {
    var b, l := Bus(x) / 16, Bus(x) / 64 * 4;
    if !Inside(x) then m
    else if x.req.opcode == STORE16 then m[b := Masked(m[b], x.req.data[0], x.req.mask)]
    else if x.req.opcode == STORE64 then
      m[l := x.req.data[0]][l + 1 := x.req.data[1]][l + 2 := x.req.data[2]][l + 3 := x.req.data[3]]
    else m
  }

  /** What a fault is answered with. */
  function Poison(): Beat { seq(16, _ => 0xa5) }

  /** The beats an access is answered. */
  function Told(m: Mem, x: Access): seq<Beat>
  {
    var b, l := Bus(x) / 16, Bus(x) / 64 * 4;
    if x.req.opcode == LOAD16 then [if Inside(x) then m[b] else Poison()]
    else if x.req.opcode == LOAD64 then
      if Inside(x) then [m[l], m[l + 1], m[l + 2], m[l + 3]] else [Poison(), Poison(), Poison(), Poison()]
    else []
  }

  function MeantAll(m: Mem, log: seq<Access>): Mem
  {
    if log == [] then m else Meant(MeantAll(m, log[..|log| - 1]), log[|log| - 1])
  }

  /** The sequential memory of the proofs has this meaning. */
  lemma PerformIsMeant(m: Mem, x: Access)
    requires Known(x)
    ensures Perform(m, x) == Meant(m, x)
  {
    BusAddress(x.cfg, x.req.addr);
    InSpace(x);
    var p, t := Perform(m, x), Meant(m, x);
    forall a | 0 <= a < N_BEATS
      ensures p[a] == t[a]
    {
      PerformAt(m, x, a);
      MeantAt(m, x, a);
    }
  }

  lemma MeantAt(m: Mem, x: Access, a: nat)
    requires Known(x) && a < N_BEATS
    ensures Written(x, a, m[a]) == Meant(m, x)[a]
  {
    BusAddress(x.cfg, x.req.addr);
  }

  lemma AnswerIsTold(m: Mem, x: Access)
    requires Known(x)
    ensures Answer(m, x) == Told(m, x)
  {
    assert A5_BEAT == Poison();
    BusAddress(x.cfg, x.req.addr);
    InSpace(x);
  }

  lemma BadIsOutside(x: Access)
    ensures x.Bad() <==> !Inside(x)
  {
    BusAddress(x.cfg, x.req.addr);
  }

  lemma {:induction false} ReplayIsMeant(m: Mem, log: seq<Access>)
    requires AllKnown(log)
    ensures Replay(m, log) == MeantAll(m, log)
  {
    hide Perform, Meant, Known;
    if log != [] {
      ReplayIsMeant(m, log[..|log| - 1]);
      PerformIsMeant(Replay(m, log[..|log| - 1]), log[|log| - 1]);
    }
  }

  // ---- what is accepted ----

  /** An idle lane accepts exactly the known requests that meet no hazard. */
  lemma AcceptsKnown(id: Lane, l: AxiLane.Regs, i: AxiLane.Inputs)
    ensures AxiLane.Accepts(id, l, i)
            <==> l.st == AxiLane.IDLE && Known(Access(id, i.cfg, i.req)) && !AxiLane.Hazard(id, i)
  {
  }

  /** The request a lane accepts in a cycle: the one on its wires, under that cycle's registers. */
  function Taken(w: World, c: Choice, id: Lane): seq<Access>
  {
    var s := DoAll(w.s, c.acts);
    if AcceptsAt(s, MasterIn(s, c), id) then [Access(id, c.cfg, if id == 0 then c.req0 else c.req1)] else []
  }

  /** A cycle logs those of both lanes, lane 0 first, each of them a known one. */
  lemma LoggedAsAsked(w: World, c: Choice)
    requires Sane(w.s.m)
    ensures Step(w, c).o.log == w.o.log + Taken(w, c, 0) + Taken(w, c, 1)
    ensures forall id: Lane, x :: x in Taken(w, c, id) ==> Known(x)
  {
    DoAllKeepsMaster(w.s, c.acts);
    var s := DoAll(w.s, c.acts);
    var i := MasterIn(s, c);
    SaneNext(s.m, i);
    Wires(s, c);
    AcceptsKnown(0, s.m.l0, AxiMaster.LaneIn0(s.m, i));
    AcceptsKnown(1, s.m.l1, AxiMaster.LaneIn1(s.m, i));
    hide AxiLane.Accepts, AxiLane.Next, AxiMaster.Next, MasterIn, AxiMaster.LaneIn0, AxiMaster.LaneIn1, NextPort,
         EventsOf, NextWq, Known;
  }

  lemma Wires(s: Sys, c: Choice)
    ensures var i := MasterIn(s, c);
            && AxiLane.Candidate(0, AxiMaster.LaneIn0(s.m, i)) == Access(0, c.cfg, c.req0)
            && AxiLane.Candidate(1, AxiMaster.LaneIn1(s.m, i)) == Access(1, c.cfg, c.req1)
  {
  }

  lemma KnownMore(log: seq<Access>, a0: seq<Access>, a1: seq<Access>)
    requires AllKnown(log)
    requires (forall x :: x in a0 ==> Known(x)) && (forall x :: x in a1 ==> Known(x))
    ensures AllKnown(log + a0 + a1)
  {
    hide Known;
  }

  lemma {:induction false} OnlyKnown(w: World, cs: seq<Choice>)
    requires Sane(w.s.m) && AllKnown(w.o.log)
    ensures AllKnown(Run(w, cs).o.log)
  {
    hide Step, Known, Taken;
    if cs != [] {
      OnlyKnown(w, cs[..|cs| - 1]);
      var v, c := Run(w, cs[..|cs| - 1]), cs[|cs| - 1];
      LoggedAsAsked(v, c);
      KnownMore(v.o.log, Taken(v, c, 0), Taken(v, c, 1));
    }
  }

  /** In every run only known accesses are accepted; every response of both lanes is what the
      memory with that meaning answers after the accesses accepted before it; and with both lanes
      idle DRAM is that memory. */
  lemma MemoryByOpcode(m0: Mem, sd0: Quad, data0: Quad, sd1: Quad, data1: Quad, cs: seq<Choice>)
    ensures var w := Run(Init(m0, sd0, data0, sd1, data1), cs);
            && AllKnown(w.o.log)
            && (forall k :: 0 <= k < |w.o.rsps| ==> AnsweredAsMeant(m0, w.o.log, w.o.rsps[k]))
            && (!w.s.m.l0.Busy() && !w.s.m.l1.Busy() ==> w.s.mem == MeantAll(m0, w.o.log))
  {
    var w0 := Init(m0, sd0, data0, sd1, data1);
    assert w0.o.log == [];
    LinearizableMemory(m0, sd0, data0, sd1, data1, cs);
    hide Init, Run, Known, Correct, InOrder, AnsweredAsMeant;
    OnlyKnown(w0, cs);
    var w := Run(w0, cs);
    ReplayIsMeant(m0, w.o.log);
    forall k | 0 <= k < |w.o.rsps|
      ensures AnsweredAsMeant(m0, w.o.log, w.o.rsps[k])
    {
      CorrectIsMeant(m0, w.o.log, w.o.rsps[k]);
    }
  }

  /** A response belongs to a logged access of its lane, flags an address outside DRAM, and carries
      what the access is told. */
  predicate AnsweredAsMeant(m0: Mem, log: seq<Access>, r: Response)
  {
    && r.idx.Some? && r.idx.value < |log|
    && var x := log[r.idx.value];
       r.lane == x.lane && (r.bad <==> !Inside(x)) && r.data == Told(MeantAll(m0, log[..r.idx.value]), x)
  }

  lemma CorrectIsMeant(m0: Mem, log: seq<Access>, r: Response)
    requires Correct(m0, log, r) && AllKnown(log)
    ensures AnsweredAsMeant(m0, log, r)
  {
    hide Known, Told, Answer, Inside, Replay, MeantAll;
    var n := r.idx.value;
    ReplayIsMeant(m0, log[..n]);
    AnswerIsTold(Replay(m0, log[..n]), log[n]);
    BadIsOutside(log[n]);
  }

  // ---- faults ----

  predicate Stores(x: Access) { x.req.opcode == STORE16 || x.req.opcode == STORE64 }

  /** A lane over some clock edges. */
  function Clocks(id: Lane, l: AxiLane.Regs, ins: seq<AxiLane.Inputs>): (l': AxiLane.Regs)
    requires l.beat < 4
    ensures l'.beat < 4
  {
    if ins == [] then l
    else
      var q := Clocks(id, l, ins[..|ins| - 1]);
      AxiLane.BeatRange(id, q, ins[|ins| - 1]);
      AxiLane.Next(id, q, ins[|ins| - 1])
  }

  /** An access outside DRAM touches no channel: it is answered, as a fault, by the seventeenth edge after
      its acceptance and not before, whatever is on the wires. */
  lemma {:induction false} FaultTiming(id: Lane, l: AxiLane.Regs, i: AxiLane.Inputs, ins: seq<AxiLane.Inputs>)
    requires l.beat < 4 && AxiLane.Accepts(id, l, i) && !Inside(AxiLane.Candidate(id, i)) && |ins| <= 17
    ensures AxiLane.Accepted(id, l, i).beat < 4
    ensures var r := Clocks(id, AxiLane.Accepted(id, l, i), ins);
            if |ins| < 17 then r.st == AxiLane.BAD && r.ticks == |ins| && !r.rspValid
            else r.st == AxiLane.WAIT && r.rspValid && r.rspBad
  {
    hide AxiLane.Accepts, AxiLane.LatchedAddr;
    BadIsOutside(AxiLane.Candidate(id, i));
    if ins != [] { FaultTiming(id, l, i, ins[..|ins| - 1]); }
  }

  /** Until then its address register holds the beat's address, marked 1 for a store and 2 for a load. */
  lemma FaultMarked(id: Lane, l: AxiLane.Regs, i: AxiLane.Inputs)
    requires AxiLane.Accepts(id, l, i) && !Inside(AxiLane.Candidate(id, i))
    ensures var x := AxiLane.Candidate(id, i);
            AxiLane.Accepted(id, l, i).addr == Bus(x) - Bus(x) % 16 + if Stores(x) then 1 else 2
  {
    var x := AxiLane.Candidate(id, i);
    AcceptsKnown(id, l, i);
    BadIsOutside(x);
    BusAddress(x.cfg, x.req.addr);
  }

  // ---- what is made to wait ----

  /** Two accesses on one 64-byte line, a store among them. */
  predicate Conflict(x: Access, y: Access) { Bus(x) / 64 == Bus(y) / 64 && (Stores(x) || Stores(y)) }

  /** The access a lane is working for. */
  function Current(w: World, id: Lane): Access { AccessAt(w.o.log, if id == 0 then w.o.cur0 else w.o.cur1) }

  /** In every reachable state an idle lane takes the request on its wires at once, unless it
      conflicts with the access the other lane is working for, or, on the devices' lane, with one
      the processor's lane takes in the same cycle. */
  lemma WaitsOnlyForConflict(m0: Mem, w: World, c: Choice, id: Lane)
    requires WorldInv(m0, w) && w.s.m.L(id).st == AxiLane.IDLE
    requires Known(Access(id, c.cfg, if id == 0 then c.req0 else c.req1)) && AllKnown(w.o.log)
    ensures var x := Access(id, c.cfg, if id == 0 then c.req0 else c.req1);
            Taken(w, c, id) == []
            <==> || (w.s.m.L(1 - id).Busy() && Conflict(x, Current(w, 1 - id)))
                 || (id == 1 && exists y :: y in Taken(w, c, 0) && Conflict(x, y))
  {
    hide AxiLane.Accepts, AxiLane.Next, AxiMaster.Next, MasterIn, AxiMaster.LaneIn0, AxiMaster.LaneIn1, NextPort,
         EventsOf, NextWq, Bus, AxiLane.Hazard, AxiLane.WantsWrite, AxiLane.WantedLine, Conflict, Taken, In;
    DoAllKeepsMaster(w.s, c.acts);
    var s := DoAll(w.s, c.acts);
    var i := MasterIn(s, c);
    var x := Access(id, c.cfg, if id == 0 then c.req0 else c.req1);
    OnWires(w, c, id);
    BusyIn(s, i, id);
    BlockedByBusy(m0, w, x, In(s, i, id).other, id);
    if id == 1 {
      OnWires(w, c, 0);
      BlockedByTaken(w, c, x, In(s, i, 1).other);
    }
    HazardIs(id, In(s, i, id));
  }

  /** A lane's candidate, and whether it is taken. */
  lemma OnWires(w: World, c: Choice, id: Lane)
    ensures var s := DoAll(w.s, c.acts);
            var i := MasterIn(s, c);
            var x := Access(id, c.cfg, if id == 0 then c.req0 else c.req1);
            && AxiLane.Candidate(id, In(s, i, id)) == x
            && Taken(w, c, id) == (if AcceptsAt(s, i, id) then [x] else [])
            && (AcceptsAt(s, i, id)
                <==> s.m.L(id).st == AxiLane.IDLE && Known(x) && !AxiLane.Hazard(id, In(s, i, id)))
  {
    var s := DoAll(w.s, c.acts);
    Wires(s, c);
    AcceptsKnown(id, s.m.L(id), In(s, MasterIn(s, c), id));
    hide AxiLane.Accepts, MasterIn, AxiLane.Hazard, Known, AxiMaster.LaneIn0, AxiMaster.LaneIn1;
  }

  lemma BlockedByBusy(m0: Mem, w: World, x: Access, o: AxiLane.Other, id: Lane)
    requires WorldInv(m0, w) && AllKnown(w.o.log)
    requires var l := w.s.m.L(1 - id); o.busy == l.Busy() && o.wr == l.isWr && o.line == l.Line()
    ensures o.busy && o.line == Bus(x) / 64 && (o.wr || Stores(x))
            <==> w.s.m.L(1 - id).Busy() && Conflict(x, Current(w, 1 - id))
  {
    HeldLine(1 - id, w.s.m.L(1 - id), Current(w, 1 - id));
    if w.s.m.L(1 - id).Busy() { InLog(w, 1 - id); }
    hide Bus, WorldInv, Current, Known;
  }

  lemma BlockedByTaken(w: World, c: Choice, x: Access, o: AxiLane.Other)
    requires var s := DoAll(w.s, c.acts);
             var i := MasterIn(s, c);
             && (o.acc <==> AcceptsAt(s, i, 0))
             && o.accWr == AxiLane.WantsWrite(0, In(s, i, 0)) && o.accLine == AxiLane.WantedLine(In(s, i, 0))
    ensures o.acc && o.accLine == Bus(x) / 64 && (o.accWr || Stores(x))
            <==> exists y :: y in Taken(w, c, 0) && Conflict(x, y)
  {
    hide AxiLane.Accepts, AxiLane.Next, MasterIn, AxiMaster.LaneIn0, AxiMaster.LaneIn1, Bus, AxiLane.Hazard,
         AxiLane.WantsWrite, AxiLane.WantedLine, Taken, In, Known, Stores;
    OnWires(w, c, 0);
    var s := DoAll(w.s, c.acts);
    HazardIs(0, In(s, MasterIn(s, c), 0));
    var y := Access(0, c.cfg, c.req0);
    if AcceptsAt(s, MasterIn(s, c), 0) { assert y in Taken(w, c, 0); }
  }

  lemma InLog(w: World, id: Lane)
    requires AllKnown(w.o.log) && CurOk(w.o.log, if id == 0 then w.o.cur0 else w.o.cur1, w.s.m.L(id))
             && w.s.m.L(id).Busy()
    ensures Known(Current(w, id))
  {
  }

  /** A busy lane's line and direction are its access's. */
  lemma HeldLine(id: Lane, l: AxiLane.Regs, x: Access)
    requires Holds(id, l, x)
    ensures l.Busy() ==> l.Line() == Bus(x) / 64 && (Known(x) ==> (l.isWr <==> Stores(x)))
  {
    BusAddress(x.cfg, x.req.addr);
  }

  /** What a lane sees of the other one. */
  lemma BusyIn(s: Sys, i: AxiMaster.Inputs, id: Lane)
    ensures var o, l := In(s, i, id).other, s.m.L(1 - id);
            && o.busy == l.Busy() && o.wr == l.isWr && o.line == l.Line()
            && (o.acc <==> id == 1 && AcceptsAt(s, i, 0))
            && (id == 1 ==>
                  o.accWr == AxiLane.WantsWrite(0, In(s, i, 0)) && o.accLine == AxiLane.WantedLine(In(s, i, 0)))
  {
    hide AxiLane.Accepts, AxiLane.WantsWrite, AxiLane.WantedLine;
  }

  lemma HazardIs(id: Lane, i: AxiLane.Inputs)
    ensures var x := Access(id, i.cfg, i.req);
            && AxiLane.WantedLine(i) == Bus(x) / 64 && (Known(x) ==> (AxiLane.WantsWrite(id, i) <==> Stores(x)))
            && (Known(x) ==>
                  (AxiLane.Hazard(id, i)
                   <==> (i.other.busy && i.other.line == Bus(x) / 64 && (i.other.wr || Stores(x)))
                        || (i.other.acc && i.other.accLine == Bus(x) / 64 && (i.other.accWr || Stores(x)))))
  {
    BusAddress(i.cfg, i.req.addr);
  }
}
