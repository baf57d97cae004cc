/**
 Service: with a slave that leaves nothing it owes undone for b cycles, a request held on an idle
 lane is accepted exactly once and answered within 66 * b cycles, whatever the other lane does.
 */
module AxiService {
  import opened Prelude
  import opened Modular
  import opened AxiBus
  import AxiLane
  import AxiMaster
  import opened AxiSystem
  import opened AxiRefinement
  import opened AxiChannels

  // ---- how far a request is ----

  /** Steps a busy lane has before its response: channel handshakes, or ticks out of range. */
  function LaneSteps(l: AxiLane.Regs): int
  {
    match l.st
    case AR => l.len + 2
    case RD => l.len + 1 - l.beat
    case AW => l.len + 3
    case WD => l.len + 2 - l.beat
    case WB => 1
    case BAD => (AxiLane.BAD_TICKS - l.ticks) % 32 + 1
    case IDLE => 0
    case WAIT => 0
  }

  /** Steps of the other lane that may come first on a shared channel. */
  function Turns(m: AxiMaster.Regs, id: Lane): int
  {
    var o := m.L(1 - id);
    match m.L(id).st
    case AR => if m.arLock && m.arOwn == id then 0 else if o.st != AxiLane.AR then 1 else 2
    case AW =>
      if m.awLock && m.awOwn == id then 0
      else if m.wBusy then 1 + (o.len + 1 - o.beat)
      else if o.st != AxiLane.AW then 1 else 6
    case _ => 0
  }

  /** Steps of the slave until a busy lane responds. */
  function InFlight(m: AxiMaster.Regs, id: Lane): int { LaneSteps(m.L(id)) + Turns(m, id) }

  const MAX_FLIGHT := 32

  /** The same for a lane that may still have to be accepted: lane 0 waits for at most the access
      lane 1 has in flight, lane 1 for that of lane 0 and one more. */
  function Due(m: AxiMaster.Regs, id: Lane): int
  {
    var o := m.L(1 - id);
    if m.L(id).st != AxiLane.IDLE then InFlight(m, id)
    else if o.Busy() then MAX_FLIGHT + 1 + InFlight(m, 1 - id)
    else if o.st == AxiLane.WAIT then MAX_FLIGHT + 1
    else 2 * MAX_FLIGHT + 2
  }

  // ---- what the slave may owe ----

  datatype Need = OnAr | OnAw | OnW | OnR(id: Lane) | OnB(id: Lane) | OnNothing

  /** What a busy lane waits for. */
  function NeedOf(m: AxiMaster.Regs, id: Lane): Need
  {
    match m.L(id).st
    case AR => OnAr
    case RD => OnR(id)
    case AW => if m.wBusy then OnW else OnAw
    case WD => OnW
    case WB => OnB(id)
    case _ => OnNothing
  }

  /** ... and what a request does, in the lane or before it. */
  function RequestNeed(m: AxiMaster.Regs, id: Lane): Need
  {
    if m.L(id).st == AxiLane.IDLE then NeedOf(m, 1 - id) else NeedOf(m, id)
  }

  /** The slave owes this and does not give it in this cycle: an offered address or write beat is
      not taken, a read beat not sent, a write not answered. */
  predicate Stalls(m: AxiMaster.Regs, i: AxiMaster.Inputs, n: Need)
  {
    match n
    case OnAr => m.ArValid() && !i.arReady
    case OnAw => m.AwValid() && !i.awReady
    case OnW => m.WValid() && !i.wReady
    case OnR(id) => m.L(id).st == AxiLane.RD && !(i.r.Some? && i.r.value.0 == id)
    case OnB(id) => m.L(id).st == AxiLane.WB && i.b != Some(id)
    case OnNothing => false
  }

  // ---- one clock ----

  /** Lanes, slave ports and locks in step, and the tick counters in range. */
  ghost predicate Aligned(s: Sys)
  {
    && Paired(s.m.l0, s.p0) && Paired(s.m.l1, s.p1) && Locks(s.m, s.wq)
    && s.m.l0.ticks < 32 && s.m.l1.ticks < 32
  }

  lemma AlignedBeats(s: Sys)
    requires Paired(s.m.l0, s.p0) && Paired(s.m.l1, s.p1)
    ensures s.m.l0.beat < 4 && s.m.l1.beat < 4
  {
  }

  lemma BeatsInRange(s: Sys)
    requires Aligned(s)
    ensures s.m.l0.beat < 4 && s.m.l1.beat < 4
  {
    AlignedBeats(s);
  }

  lemma FlightRange(s: Sys, id: Lane)
    requires Aligned(s)
    ensures if s.m.L(id).Busy() then 1 <= InFlight(s.m, id) <= MAX_FLIGHT else InFlight(s.m, id) == 0
  {
  }

  /** A request the lane understands. */
  predicate Asks(q: Request, id: Lane)
  {
    q.valid && (q.opcode == 4 || q.opcode == 7 || (id == 1 && (q.opcode == 5 || q.opcode == 6)))
  }

  /** The lane's own handshake happens. */
  predicate Moves(l: AxiLane.Regs, i: AxiLane.Inputs)
  {
    match l.st
    case AR => i.arFire
    case RD => i.r.Some?
    case AW => i.awFire
    case WD => i.wFire
    case WB => i.bValid
    case _ => l.st == AxiLane.BAD
  }

  /** A busy lane takes one step exactly when its handshake happens, and else stays. */
  ghost predicate Paced(l: AxiLane.Regs, i: AxiLane.Inputs, l': AxiLane.Regs)
  {
    && (if Moves(l, i) then LaneSteps(l') == LaneSteps(l) - 1 else LaneSteps(l') == LaneSteps(l) && l'.st == l.st)
    && (l.st != AxiLane.AR ==> l'.st != AxiLane.AR) && (l.st != AxiLane.AW ==> l'.st != AxiLane.AW)
  }

  lemma LaneReads(id: Lane, l: AxiLane.Regs, p: Port, i: AxiLane.Inputs, e: PortEvents)
    requires Paired(l, p) && Matched(l, p, i, e) && (l.st == AxiLane.AR || l.st == AxiLane.RD)
    ensures Paced(l, i, AxiLane.Next(id, l, i))
  {
    hide AxiLane.Accepted, AxiLane.Accepts;
  }

  lemma LaneWrites(id: Lane, l: AxiLane.Regs, p: Port, i: AxiLane.Inputs, e: PortEvents)
    requires Paired(l, p) && Matched(l, p, i, e) && (l.st == AxiLane.AW || l.st == AxiLane.WD || l.st == AxiLane.WB)
    ensures Paced(l, i, AxiLane.Next(id, l, i))
  {
    hide AxiLane.Accepted, AxiLane.Accepts;
  }

  lemma LaneTicks(id: Lane, l: AxiLane.Regs, i: AxiLane.Inputs)
    requires l.beat < 4 && l.st == AxiLane.BAD && l.ticks < 32
    ensures Paced(l, i, AxiLane.Next(id, l, i))
  {
    hide AxiLane.Accepted, AxiLane.Accepts;
  }

  lemma LaneMoves(id: Lane, l: AxiLane.Regs, p: Port, i: AxiLane.Inputs, e: PortEvents)
    requires Paired(l, p) && Matched(l, p, i, e) && l.Busy() && l.ticks < 32
    ensures Paced(l, i, AxiLane.Next(id, l, i))
  {
    hide AxiLane.Next, Paced;
    match l.st {
      case AR => LaneReads(id, l, p, i, e);
      case RD => LaneReads(id, l, p, i, e);
      case BAD => LaneTicks(id, l, i);
      case _ => LaneWrites(id, l, p, i, e);
    }
  }

  lemma LaneAfter(m: AxiMaster.Regs, i: AxiMaster.Inputs, id: Lane)
    requires m.l0.beat < 4 && m.l1.beat < 4
    ensures AxiMaster.Next(m, i).L(id)
            == AxiLane.Next(id, m.L(id), if id == 0 then AxiMaster.LaneIn0(m, i) else AxiMaster.LaneIn1(m, i))
  {
    hide AxiLane.Next, AxiMaster.LaneIn0, AxiMaster.LaneIn1;
  }

  /** The other lane's turns shrink while this one waits, unless the slave stalls its channel. */
  lemma ReadTurns(s: Sys, c: Choice, id: Lane)
    requires Aligned(s) && s.m.L(id).st == AxiLane.AR
    ensures var i := MasterIn(s, c);
            var m' := AxiMaster.Next(s.m, i);
            && (m'.L(id).st == AxiLane.AR ==>
                  && Turns(m', id) <= Turns(s.m, id)
                  && (Turns(m', id) == Turns(s.m, id) ==> Stalls(s.m, i, OnAr)))
            && (m'.L(id).st != AxiLane.AR ==> m'.L(id).st == AxiLane.RD)
  {
    hide AxiLane.Accepted, AxiLane.Accepts;
  }

  lemma WriteTurns(s: Sys, c: Choice, id: Lane)
    requires Aligned(s) && s.m.L(id).st == AxiLane.AW
    ensures var i := MasterIn(s, c);
            var m' := AxiMaster.Next(s.m, i);
            && (m'.L(id).st == AxiLane.AW ==>
                  && Turns(m', id) <= Turns(s.m, id)
                  && (Turns(m', id) == Turns(s.m, id) ==>
                        Stalls(s.m, i, if s.m.wBusy then OnW else OnAw) && m'.wBusy == s.m.wBusy))
            && (m'.L(id).st != AxiLane.AW ==> m'.L(id).st == AxiLane.WD)
  {
    hide AxiLane.Accepted, AxiLane.Accepts;
  }

  /** A data or response handshake that does not happen is the slave's stall. */
  lemma NoMoveStalls(s: Sys, c: Choice, id: Lane)
    requires Aligned(s)
    requires var st := s.m.L(id).st; st == AxiLane.RD || st == AxiLane.WD || st == AxiLane.WB
    requires !Moves(s.m.L(id), In(s, MasterIn(s, c), id))
    ensures Stalls(s.m, MasterIn(s, c), NeedOf(s.m, id))
  {
  }

  /** Closer to the response, or waiting for the same thing that the slave withholds. */
  ghost predicate Nearer(m: AxiMaster.Regs, i: AxiMaster.Inputs, m': AxiMaster.Regs, id: Lane)
  {
    && InFlight(m', id) <= InFlight(m, id)
    && (InFlight(m', id) == InFlight(m, id) ==>
          Stalls(m, i, NeedOf(m, id)) && NeedOf(m', id) == NeedOf(m, id) && m'.L(id).Busy())
  }

  lemma FlightStep(s: Sys, c: Choice, id: Lane)
    requires Aligned(s) && s.m.L(id).Busy()
    ensures Nearer(s.m, MasterIn(s, c), AxiMaster.Next(s.m, MasterIn(s, c)), id)
  {
    hide AxiLane.Next, AxiMaster.Next, EventsOf, In, MasterIn, Stalls, LaneSteps, Matched, Locks;
    var i := MasterIn(s, c);
    var l := s.m.L(id);
    BusMatches(s, c, id);
    LaneMoves(id, l, s.P(id), In(s, i, id), EventsOf(s, i, id));
    LaneAfter(s.m, i, id);
    InIs(s, i, id);
    match l.st {
      case AR => ReadTurns(s, c, id);
      case AW => WriteTurns(s, c, id);
      case BAD =>
      case _ => if !Moves(l, In(s, i, id)) { NoMoveStalls(s, c, id); }
    }
  }

  lemma InIs(s: Sys, i: AxiMaster.Inputs, id: Lane)
    ensures In(s, i, id) == if id == 0 then AxiMaster.LaneIn0(s.m, i) else AxiMaster.LaneIn1(s.m, i)
  {
  }

  // ---- a request from the other side of its acceptance ----

  function AskedBy(c: Choice, id: Lane): Request { if id == 0 then c.req0 else c.req1 }

  /** An idle lane either accepts what it is asked or stays; only a hazard makes it stay. */
  lemma IdleLane(s: Sys, c: Choice, id: Lane)
    requires s.m.l0.beat < 4 && s.m.l1.beat < 4 && s.m.L(id).st == AxiLane.IDLE && Asks(AskedBy(c, id), id)
    ensures var i := MasterIn(s, c);
            var m' := AxiMaster.Next(s.m, i);
            && (if AcceptsAt(s, i, id) then m'.L(id).Busy() else m'.L(id).st == AxiLane.IDLE)
            && (!s.m.L(1 - id).Busy() && !(id == 1 && AcceptsAt(s, i, 0)) ==> AcceptsAt(s, i, id))
  {
    LaneAfter(s.m, MasterIn(s, c), id);
    hide AxiMaster.Next;
  }

  lemma NextState(id: Lane, l: AxiLane.Regs, i: AxiLane.Inputs)
    requires l.beat < 4
    ensures var l' := AxiLane.Next(id, l, i);
            && (AxiLane.Accepts(id, l, i) ==> l.st == AxiLane.IDLE && l'.Busy())
            && (l.Busy() ==> l'.Busy() || l'.st == AxiLane.WAIT)
            && (l.st == AxiLane.WAIT ==> l'.st == if i.req.valid then AxiLane.WAIT else AxiLane.IDLE)
            && (l.ticks < 32 ==> l'.ticks < 32)
  {
  }

  /** Lane states of one clock: a lane that accepts was idle and is busy, one that responds waits
      for its requester. */
  lemma LaneStates(s: Sys, c: Choice, id: Lane)
    requires s.m.l0.beat < 4 && s.m.l1.beat < 4
    ensures var i := MasterIn(s, c);
            var l, l' := s.m.L(id), AxiMaster.Next(s.m, i).L(id);
            && (AcceptsAt(s, i, id) ==> l.st == AxiLane.IDLE && l'.Busy())
            && (l.Busy() ==> l'.Busy() || l'.st == AxiLane.WAIT)
            && (l.st == AxiLane.WAIT ==> l'.st == if AskedBy(c, id).valid then AxiLane.WAIT else AxiLane.IDLE)
            && (l.ticks < 32 ==> l'.ticks < 32)
  {
    var i := MasterIn(s, c);
    LaneAfter(s.m, i, id);
    InIs(s, i, id);
    AskedIs(s, c, id);
    hide AxiLane.Next, AxiLane.Accepts, AxiMaster.Next, In, MasterIn, AxiMaster.LaneIn0, AxiMaster.LaneIn1;
    NextState(id, s.m.L(id), In(s, i, id));
  }

  lemma AskedIs(s: Sys, c: Choice, id: Lane)
    ensures In(s, MasterIn(s, c), id).req == AskedBy(c, id) && In(s, MasterIn(s, c), id).cfg == c.cfg
  {
  }

  /** A held request comes closer to its response, or waits for what the slave withholds. */
  ghost predicate Closer(m: AxiMaster.Regs, i: AxiMaster.Inputs, m': AxiMaster.Regs, id: Lane)
  {
    && Due(m', id) <= Due(m, id)
    && (Due(m', id) == Due(m, id) ==> Stalls(m, i, RequestNeed(m, id)) && RequestNeed(m', id) == RequestNeed(m, id))
  }

  lemma DueStep(s: Sys, c: Choice, id: Lane)
    requires Aligned(s) && s.m.L(id).st != AxiLane.WAIT && Asks(AskedBy(c, id), id)
    requires Aligned(Edge(s, MasterIn(s, c)))
    ensures Closer(s.m, MasterIn(s, c), AxiMaster.Next(s.m, MasterIn(s, c)), id)
  {
    hide Aligned, AxiLane.Next, AxiMaster.Next, InFlight, Stalls, NeedOf, AxiLane.Accepts, In, MasterIn, NextPort,
         NextWq, EventsOf;
    BeatsInRange(s);
    hide Edge, AcceptsAt;
    if s.m.L(id).Busy() {
      LaneStates(s, c, id);
      FlightStep(s, c, id);
    } else {
      IdleDue(s, c, id);
    }
  }

  /** A request that is still to be accepted waits for what the other lane has in flight. */
  lemma IdleDue(s: Sys, c: Choice, id: Lane)
    requires Aligned(s) && s.m.L(id).st == AxiLane.IDLE && Asks(AskedBy(c, id), id)
    requires Aligned(Edge(s, MasterIn(s, c)))
    ensures Closer(s.m, MasterIn(s, c), AxiMaster.Next(s.m, MasterIn(s, c)), id)
  {
    hide Aligned, AxiLane.Next, AxiMaster.Next, InFlight, Stalls, NeedOf, AxiLane.Accepts, In, MasterIn, NextPort,
         NextWq, EventsOf;
    BeatsInRange(s);
    hide Edge, AcceptsAt;
    var i := MasterIn(s, c);
    FlightRange(s, 1 - id);
    FlightRange(Edge(s, i), id);
    FlightRange(Edge(s, i), 1 - id);
    LaneStates(s, c, id);
    IdleLane(s, c, id);
    LaneStates(s, c, 1 - id);
    if s.m.L(1 - id).Busy() {
      FlightStep(s, c, 1 - id);
    } else if s.m.L(1 - id).st == AxiLane.IDLE {
      LaneStates(s, c, 0);
    }
  }

  // ---- runs ----

  /** What every reachable world keeps. */
  ghost predicate Ready(m0: Mem, w: World)
  {
    WorldInv(m0, w) && Ordered(w) && w.s.m.l0.ticks < 32 && w.s.m.l1.ticks < 32
  }

  lemma ReadyStep(m0: Mem, w: World, c: Choice)
    requires Ready(m0, w)
    ensures var s := DoAll(w.s, c.acts);
            && s.m == w.s.m && Aligned(s) && Aligned(Edge(s, MasterIn(s, c)))
            && Step(w, c).s == Edge(s, MasterIn(s, c)) && Ready(m0, Step(w, c))
  {
    hide WorldInv, Ordered, AxiLane.Next, MasterIn, Paired, Locks;
    EffectsKeep(m0, w, c);
    StepKeepsInv(m0, w, c);
    WorldAligned(m0, Step(w, c));
    WorldAligned(m0, w);
    OrderedStep(w, c);
    var s := DoAll(w.s, c.acts);
    AlignedBeats(s);
    LaneStates(s, c, 0);
    LaneStates(s, c, 1);
  }

  lemma WorldAligned(m0: Mem, w: World)
    requires WorldInv(m0, w)
    ensures Sane(w.s.m) && Paired(w.s.m.l0, w.s.p0) && Paired(w.s.m.l1, w.s.p1) && Locks(w.s.m, w.s.wq)
  {
  }

  lemma {:induction false} RunReady(m0: Mem, w: World, cs: seq<Choice>)
    requires Ready(m0, w)
    ensures Sane(w.s.m) && Ready(m0, Run(w, cs))
  {
    WorldAligned(m0, w);
    hide Ready, Step;
    if cs != [] {
      RunReady(m0, w, cs[..|cs| - 1]);
      ReadyStep(m0, Run(w, cs[..|cs| - 1]), cs[|cs| - 1]);
    }
  }

  /** The slave withholds this throughout. */
  predicate StallsAt(w: World, c: Choice, n: Need)
  {
    Stalls(w.s.m, MasterIn(DoAll(w.s, c.acts), c), n)
  }

  ghost predicate AllStall(w: World, cs: seq<Choice>, n: Need)
    requires Sane(w.s.m)
  {
    forall k :: 0 <= k < |cs| ==> StallsAt(Run(w, cs[..k]), cs[k], n)
  }

  /** Nothing is withheld throughout. */
  ghost predicate NoneStalls(w: World, cs: seq<Choice>)
    requires Sane(w.s.m)
  {
    forall n :: !AllStall(w, cs, n)
  }

  /** In the b cycles from cycle k on the slave withholds nothing it owes throughout. */
  ghost predicate FairWindow(w: World, cs: seq<Choice>, b: nat, k: nat)
    requires Sane(w.s.m) && k + b <= |cs|
  {
    NoneStalls(Run(w, cs[..k]), cs[k..k + b])
  }

  /** A responsive slave: whatever it owes for b cycles it has given. */
  ghost predicate Responsive(w: World, cs: seq<Choice>, b: nat)
    requires Sane(w.s.m)
  {
    forall k :: 0 <= k && k + b <= |cs| ==> FairWindow(w, cs, b, k)
  }

  /** The requester of a lane holds one request. */
  ghost predicate Holding(cs: seq<Choice>, id: Lane, q: Request)
  {
    forall k :: 0 <= k < |cs| ==> AskedBy(cs[k], id) == q
  }

  /** One cycle of a held request. */
  lemma HeldStep(m0: Mem, w: World, c: Choice, id: Lane)
    requires Ready(m0, w) && Sane(w.s.m) && Asks(AskedBy(c, id), id)
    ensures var w' := Step(w, c);
            && (Due(w.s.m, id) == 0 ==> Due(w'.s.m, id) == 0)
            && 0 <= Due(w'.s.m, id) <= Due(w.s.m, id)
            && (Due(w'.s.m, id) == Due(w.s.m, id) > 0 ==>
                  StallsAt(w, c, RequestNeed(w.s.m, id)) && RequestNeed(w'.s.m, id) == RequestNeed(w.s.m, id))
  {
    ReadyStep(m0, w, c);
    hide Step, Ready, Aligned, InFlight, Stalls, RequestNeed, Edge;
    var s := DoAll(w.s, c.acts);
    AlignedMaster(s, c);
    DueRange(s, id);
    DueRange(Edge(s, MasterIn(s, c)), id);
    if s.m.L(id).st == AxiLane.WAIT { LaneStates(s, c, id); } else { DueStep(s, c, id); }
  }

  lemma AlignedMaster(s: Sys, c: Choice)
    requires Aligned(s)
    ensures s.m.l0.beat < 4 && s.m.l1.beat < 4 && Edge(s, MasterIn(s, c)).m == AxiMaster.Next(s.m, MasterIn(s, c))
  {
  }

  lemma DueRange(s: Sys, id: Lane)
    requires Aligned(s)
    ensures 0 <= Due(s.m, id) <= 2 * MAX_FLIGHT + 2 && (Due(s.m, id) == 0 <==> s.m.L(id).st == AxiLane.WAIT)
    ensures s.m.L(id).Busy() ==> Due(s.m, id) <= MAX_FLIGHT
  {
    hide InFlight, Paired, Locks;
    FlightRange(s, id);
    FlightRange(s, 1 - id);
  }

  lemma {:induction false} HeldRun(m0: Mem, w: World, cs: seq<Choice>, id: Lane, q: Request)
    requires Ready(m0, w) && Sane(w.s.m) && Asks(q, id) && Holding(cs, id, q)
    ensures Ready(m0, Run(w, cs)) && Due(Run(w, cs).s.m, id) <= Due(w.s.m, id)
  {
    hide Ready, Step, Due, Asks;
    RunReady(m0, w, cs);
    if cs != [] {
      HeldRun(m0, w, cs[..|cs| - 1], id, q);
      HeldStep(m0, Run(w, cs[..|cs| - 1]), cs[|cs| - 1], id);
    }
  }

  lemma {:induction false} RunConcat(w: World, a: seq<Choice>, b: seq<Choice>)
    requires Sane(w.s.m)
    ensures Run(w, a + b) == Run(Run(w, a), b)
    decreases |b|
  {
    hide Step, Sane;
    if b == [] {
      assert a + b == a;
    } else {
      RunConcat(w, a, b[..|b| - 1]);
      assert (a + b)[..|a + b| - 1] == a + b[..|b| - 1];
    }
  }

  lemma StallMore(w: World, cs: seq<Choice>, c: Choice, n: Need)
    requires Sane(w.s.m) && AllStall(w, cs, n) && StallsAt(Run(w, cs), c, n)
    ensures AllStall(w, cs + [c], n)
  {
    hide Run, StallsAt;
    var more := cs + [c];
    forall k | 0 <= k < |more|
      ensures StallsAt(Run(w, more[..k]), more[k], n)
    {
      assert more[..k] == cs[..k];
      if k == |cs| { assert cs[..k] == cs; }
    }
  }

  /** A window that brings a request no closer withholds one thing throughout. */
  lemma {:induction false} NeedHolds(m0: Mem, w: World, cs: seq<Choice>, id: Lane, q: Request)
    requires Ready(m0, w) && Sane(w.s.m) && Asks(q, id) && Holding(cs, id, q) && Due(w.s.m, id) > 0
    ensures var v, n := Run(w, cs), RequestNeed(w.s.m, id);
            Due(v.s.m, id) < Due(w.s.m, id) || (AllStall(w, cs, n) && RequestNeed(v.s.m, id) == n)
  {
    hide Ready, Step, Due, Asks, RequestNeed, StallsAt;
    if cs != [] {
      var pre, c := cs[..|cs| - 1], cs[|cs| - 1];
      NeedHolds(m0, w, pre, id, q);
      HeldRun(m0, w, pre, id, q);
      HeldStep(m0, Run(w, pre), c, id);
      if Due(Run(w, cs).s.m, id) >= Due(w.s.m, id) {
        StallMore(w, pre, c, RequestNeed(w.s.m, id));
        assert pre + [c] == cs;
      }
    }
  }

  /** b cycles per step still due bring the response. */
  lemma {:induction false} DueRunsOut(m0: Mem, w: World, cs: seq<Choice>, id: Lane, q: Request, b: nat)
    requires Ready(m0, w) && Sane(w.s.m) && Asks(q, id) && Holding(cs, id, q)
    requires b >= 1 && Responsive(w, cs, b) && Due(w.s.m, id) >= 0 && |cs| >= b * Due(w.s.m, id)
    ensures Due(Run(w, cs).s.m, id) == 0
    decreases Due(w.s.m, id)
  {
    hide Ready, Step, Due, Asks, RequestNeed, AllStall, Run, Sane;
    HeldRun(m0, w, cs, id, q);
    DueNat(m0, Run(w, cs), id);
    if Due(w.s.m, id) > 0 {
      OnceOrMore(Due(w.s.m, id), b);
      var first, rest := cs[..b], cs[b..];
      var v := Run(w, first);
      assert FairWindow(w, cs, b, 0);
      FirstFair(w, cs, b);
      NeedHolds(m0, w, first, id, q);
      HeldRun(m0, w, first, id, q);
      DueNat(m0, v, id);
      RestResponsive(w, cs, b);
      LessTimes(b, Due(v.s.m, id), Due(w.s.m, id));
      DueRunsOut(m0, v, rest, id, q, b);
      assert first + rest == cs;
      RunConcat(w, first, rest);
    }
  }

  lemma DueNat(m0: Mem, w: World, id: Lane)
    requires Ready(m0, w)
    ensures Due(w.s.m, id) >= 0
  {
    WorldAligned(m0, w);
    DueRange(w.s, id);
  }

  lemma FirstFair(w: World, cs: seq<Choice>, b: nat)
    requires Sane(w.s.m) && |cs| >= b && FairWindow(w, cs, b, 0)
    ensures NoneStalls(w, cs[..b])
  {
    hide NoneStalls;
    assert cs[..0] == [] && cs[0..b] == cs[..b];
  }

  /** The rest of a responsive run is responsive. */
  lemma RestResponsive(w: World, cs: seq<Choice>, b: nat)
    requires Sane(w.s.m) && |cs| >= b && Responsive(w, cs, b)
    ensures Responsive(Run(w, cs[..b]), cs[b..], b)
  {
    hide Run, NoneStalls;
    var v, rest := Run(w, cs[..b]), cs[b..];
    forall k | 0 <= k && k + b <= |rest|
      ensures FairWindow(v, rest, b, k)
    {
      assert FairWindow(w, cs, b, b + k);
      assert cs[..b] + rest[..k] == cs[..b + k];
      RunConcat(w, cs[..b], rest[..k]);
      assert rest[k..k + b] == cs[b + k..b + k + b];
    }
  }

  // ---- what is accepted ----

  function Cur(o: Obs, id: Lane): Option<nat> { if id == 0 then o.cur0 else o.cur1 }

  /** Since world w: nothing accepted while idle, and then exactly the held request. */
  ghost predicate TookOnly(w: World, v: World, id: Lane, q: Request)
  {
    if w.s.m.L(id).st != AxiLane.IDLE || v.s.m.L(id).st == AxiLane.IDLE then
      Accepted(v.o.log, id) == Accepted(w.o.log, id)
    else
      && Cur(v.o, id).Some? && Cur(v.o, id).value < |v.o.log| && v.o.log[Cur(v.o, id).value].req == q
      && Accepted(v.o.log, id) == Accepted(w.o.log, id) + [Cur(v.o, id)]
  }

  /** What one cycle logs for a lane. */
  lemma LogStep(m0: Mem, w: World, c: Choice, id: Lane)
    requires Ready(m0, w) && Sane(w.s.m)
    ensures var s := DoAll(w.s, c.acts);
            var w' := Step(w, c);
            var took := AcceptsAt(s, MasterIn(s, c), id);
            && Accepted(w'.o.log, id) == Accepted(w.o.log, id) + (if took then [Cur(w'.o, id)] else [])
            && w.o.log <= w'.o.log
            && (if took then Cur(w'.o, id).Some? && Cur(w'.o, id).value < |w'.o.log|
                  && w'.o.log[Cur(w'.o, id).value].req == AskedBy(c, id)
                else Cur(w'.o, id) == Cur(w.o, id))
  {
    hide Ready, Step, Observe, Observed, Accepted, In, MasterIn, AcceptsAt, AccessesOf, DoAll, Sane;
    DoAllKeepsMaster(w.s, c.acts);
    var s := DoAll(w.s, c.acts);
    var i := MasterIn(s, c);
    LogAfter(w, c);
    AccessOne(s, c, 0);
    AccessOne(s, c, 1);
    var a0, a1 := AccessesOf(0, s.m.l0, In(s, i, 0)), AccessesOf(1, s.m.l1, In(s, i, 1));
    LogOrder(w.o.log, a0, a1);
    Assoc(w.o.log, a0, a1);
  }

  lemma AccessOne(s: Sys, c: Choice, id: Lane)
    ensures var i := MasterIn(s, c);
            var a := AccessesOf(id, s.m.L(id), In(s, i, id));
            && |a| <= 1 && (a != [] <==> AcceptsAt(s, i, id))
            && (a != [] ==> a[0].lane == id && a[0].req == AskedBy(c, id))
  {
    AskedIs(s, c, id);
    hide AxiLane.Accepts, In, MasterIn;
  }

  lemma Assoc(a: seq<Access>, b: seq<Access>, c: seq<Access>)
    ensures a <= a + b + c
    ensures |b| == 1 ==> (a + b + c)[|a|] == b[0]
    ensures |c| == 1 ==> (a + b + c)[|a| + |b|] == c[0]
  {
  }

  lemma LogAfter(w: World, c: Choice)
    requires Sane(w.s.m)
    ensures var s := DoAll(w.s, c.acts);
            var i := MasterIn(s, c);
            var a0, a1 := AccessesOf(0, s.m.l0, In(s, i, 0)), AccessesOf(1, s.m.l1, In(s, i, 1));
            var o, o' := w.o, Step(w, c).o;
            && o'.log == o.log + a0 + a1
            && o'.cur0 == (if a0 != [] then Some(|o.log|) else o.cur0)
            && o'.cur1 == (if a1 != [] then Some(|o.log| + |a0|) else o.cur1)
  {
    DoAllKeepsMaster(w.s, c.acts);
    SaneNext(w.s.m, MasterIn(DoAll(w.s, c.acts), c));
    hide AxiLane.Accepts, AxiLane.Next, AxiMaster.Next;
  }

  lemma {:induction false} TookRun(m0: Mem, w: World, cs: seq<Choice>, id: Lane, q: Request)
    requires Ready(m0, w) && Sane(w.s.m) && Asks(q, id) && Holding(cs, id, q) && w.s.m.L(id).st != AxiLane.WAIT
    ensures TookOnly(w, Run(w, cs), id, q)
    ensures w.s.m.L(id).Busy() ==> Run(w, cs).s.m.L(id).st != AxiLane.IDLE
  {
    if cs == [] {
      assert Run(w, cs) == w;
    } else {
      hide Ready, Step, Accepted, AcceptsAt, MasterIn, DoAll, TookOnly, Due, Asks;
      var pre, c := cs[..|cs| - 1], cs[|cs| - 1];
      var v := Run(w, pre);
      TookRun(m0, w, pre, id, q);
      HeldRun(m0, w, pre, id, q);
      LogStep(m0, v, c, id);
      StatesStep(m0, v, c, id);
      TookStep(w, v, Run(w, cs), id, q, AcceptsAt(DoAll(v.s, c.acts), MasterIn(DoAll(v.s, c.acts), c), id));
    }
  }

  /** An acceptance out of idle is the only one. */
  lemma TookStep(w: World, v: World, v': World, id: Lane, q: Request, took: bool)
    requires TookOnly(w, v, id, q) && v.o.log <= v'.o.log
    requires w.s.m.L(id).Busy() ==> v.s.m.L(id).st != AxiLane.IDLE
    requires took ==> v.s.m.L(id).st == AxiLane.IDLE && v'.s.m.L(id).Busy()
    requires !took && v.s.m.L(id).st == AxiLane.IDLE ==> v'.s.m.L(id).st == AxiLane.IDLE
    requires v.s.m.L(id).st != AxiLane.IDLE ==> v'.s.m.L(id).st != AxiLane.IDLE
    requires w.s.m.L(id).st != AxiLane.WAIT
    requires Accepted(v'.o.log, id) == Accepted(v.o.log, id) + (if took then [Cur(v'.o, id)] else [])
    requires if took then Cur(v'.o, id).Some? && Cur(v'.o, id).value < |v'.o.log|
             && v'.o.log[Cur(v'.o, id).value].req == q
             else Cur(v'.o, id) == Cur(v.o, id)
    ensures TookOnly(w, v', id, q)
  {
    hide Accepted;
    assert Accepted(v.o.log, id) + [] == Accepted(v.o.log, id);
  }

  lemma StatesStep(m0: Mem, w: World, c: Choice, id: Lane)
    requires Ready(m0, w) && Sane(w.s.m) && Asks(AskedBy(c, id), id)
    ensures var s := DoAll(w.s, c.acts);
            var l, l' := w.s.m.L(id), Step(w, c).s.m.L(id);
            && (AcceptsAt(s, MasterIn(s, c), id) ==> l.st == AxiLane.IDLE && l'.Busy())
            && (!AcceptsAt(s, MasterIn(s, c), id) && l.st == AxiLane.IDLE ==> l'.st == AxiLane.IDLE)
            && (l.st != AxiLane.IDLE ==> l'.st != AxiLane.IDLE)
  {
    ReadyStep(m0, w, c);
    var s := DoAll(w.s, c.acts);
    AlignedMaster(s, c);
    hide Ready, Aligned, Step, Edge, MasterIn, AcceptsAt, AxiMaster.Next;
    LaneStates(s, c, id);
    if s.m.L(id).st == AxiLane.IDLE { IdleLane(s, c, id); }
  }

  // ---- the theorem ----

  /** From every reachable state, with a responsive slave and one request held on a lane that is
      idle or busy: after 66 * b cycles the request has been accepted exactly once (not again, if
      it was in flight already) and answered exactly once, and the lane waits for its requester to
      drop it. Nothing is asked of the other lane's requester. */
  lemma RequestsAreServed(m0: Mem, sd0: Quad, data0: Quad, sd1: Quad, data1: Quad, past: seq<Choice>,
                          cs: seq<Choice>, id: Lane, q: Request, b: nat)
    requires var w := Run(Init(m0, sd0, data0, sd1, data1), past);
             && w.s.m.L(id).st != AxiLane.WAIT && Asks(q, id) && Holding(cs, id, q)
             && b >= 1 && Responsive(w, cs, b) && |cs| >= 66 * b
    ensures var w := Run(Init(m0, sd0, data0, sd1, data1), past);
            var v := Run(w, cs);
            var taken := if w.s.m.L(id).st == AxiLane.IDLE then [Cur(v.o, id)] else [];
            && v.s.m.L(id).st == AxiLane.WAIT
            && Accepted(v.o.log, id) == Accepted(w.o.log, id) + taken
            && (taken != [] ==>
                  Cur(v.o, id).Some? && Cur(v.o, id).value < |v.o.log| && v.o.log[Cur(v.o, id).value].req == q)
            && Answered(v.o.rsps, id) == Accepted(v.o.log, id)
  {
    var w0 := Init(m0, sd0, data0, sd1, data1);
    InitReady(m0, sd0, data0, sd1, data1);
    RunReady(m0, w0, past);
    var w := Run(w0, past);
    hide Ready, Step, Due, Asks, Run, Accepted, Answered, Sane;
    ReadyDue(m0, w, id);
    WithinBound(b, Due(w.s.m, id));
    DueRunsOut(m0, w, cs, id, q, b);
    TookRun(m0, w, cs, id, q);
    RunReady(m0, w, cs);
    ReadyDue(m0, Run(w, cs), id);
    assert Accepted(w.o.log, id) + [] == Accepted(w.o.log, id);
  }

  lemma InitReady(m0: Mem, sd0: Quad, data0: Quad, sd1: Quad, data1: Quad)
    ensures Ready(m0, Init(m0, sd0, data0, sd1, data1))
  {
    InitInv(m0, sd0, data0, sd1, data1);
  }

  lemma ReadyDue(m0: Mem, w: World, id: Lane)
    requires Ready(m0, w)
    ensures Sane(w.s.m) && 0 <= Due(w.s.m, id) <= 66 && (Due(w.s.m, id) == 0 <==> w.s.m.L(id).st == AxiLane.WAIT)
    ensures w.s.m.L(id).st == AxiLane.WAIT ==> Answered(w.o.rsps, id) == Accepted(w.o.log, id)
  {
    WorldAligned(m0, w);
    DueRange(w.s, id);
    assert Answered(w.o.rsps, id) + [] == Answered(w.o.rsps, id);
  }

  lemma WithinBound(b: nat, n: int)
    requires 0 <= n <= 66
    ensures b * n <= 66 * b
  {
    NatProduct(b, 66 - n);
    assert b * 66 == b * (66 - n) + b * n;
  }

  /** A lane that has answered is idle again as soon as its requester drops the request. */
  lemma DropReleases(m0: Mem, w: World, c: Choice, id: Lane)
    requires Ready(m0, w) && Sane(w.s.m) && w.s.m.L(id).st == AxiLane.WAIT && !AskedBy(c, id).valid
    ensures Step(w, c).s.m.L(id).st == AxiLane.IDLE
  {
    ReadyStep(m0, w, c);
    var s := DoAll(w.s, c.acts);
    AlignedMaster(s, c);
    LaneStates(s, c, id);
  }
}
