/**
 Channel discipline and fairness of the master, over every run: AXI stability, write-data
 order and WLAST, response routing, bounded overtaking despite lane 0's fixed priority, and
 one execution per held request.
 */
module AxiChannels {
  import opened Prelude
  import opened AxiBus
  import AxiLane
  import AxiMaster
  import opened AxiSystem
  import opened AxiRefinement

  /** What the master drives on the three request channels. */
  datatype ArPayload = ArPayload(id: Lane, addr: Word32, len: nat)
  datatype WPayload = WPayload(data: Beat, strb: Strobe, last: bool)

  function ArOut(m: AxiMaster.Regs): ArPayload
  {
    ArPayload(m.ArSel(), m.L(m.ArSel()).addr, m.L(m.ArSel()).len)
  }
  function AwOut(m: AxiMaster.Regs): ArPayload
  {
    ArPayload(m.AwSel(), m.L(m.AwSel()).addr, m.L(m.AwSel()).len)
  }
  function WOut(m: AxiMaster.Regs): WPayload
    requires m.L(m.wOwn).beat < 4
  {
    WPayload(m.L(m.wOwn).sd[m.L(m.wOwn).beat], m.L(m.wOwn).Strb(), m.WLast())
  }

  /** Section A3.2.1 of ARM IHI 0022: once valid, a payload stays, unchanged, until it is taken. */
  ghost predicate Stable(m: AxiMaster.Regs, i: AxiMaster.Inputs, m': AxiMaster.Regs)
    requires Sane(m) && Sane(m')
  {
    && (m.ArValid() && !i.arReady ==> m'.ArValid() && ArOut(m') == ArOut(m))
    && (m.AwValid() && !i.awReady ==> m'.AwValid() && AwOut(m') == AwOut(m))
    && (m.WValid() && !i.wReady ==> m'.WValid() && m'.wOwn == m.wOwn && WOut(m') == WOut(m))
  }

  lemma PayloadsStable(s: Sys, c: Choice)
    requires Paired(s.m.l0, s.p0) && Paired(s.m.l1, s.p1) && Locks(s.m, s.wq)
    ensures Sane(AxiMaster.Next(s.m, MasterIn(s, c)))
    ensures Stable(s.m, MasterIn(s, c), AxiMaster.Next(s.m, MasterIn(s, c)))
  {
    SaneNext(s.m, MasterIn(s, c));
    BusMatches(s, c, 0);
    BusMatches(s, c, 1);
    LaneHolds(0, s.m.l0, AxiMaster.LaneIn0(s.m, MasterIn(s, c)));
    LaneHolds(1, s.m.l1, AxiMaster.LaneIn1(s.m, MasterIn(s, c)));
  }

  /** A lane that is not served keeps its place and its payload. */
  lemma LaneHolds(id: Lane, l: AxiLane.Regs, i: AxiLane.Inputs)
    requires l.beat < 4
    ensures var l' := AxiLane.Next(id, l, i);
            && (l.st == AxiLane.AR && !i.arFire ==> l'.st == l.st && l'.addr == l.addr && l'.len == l.len)
            && (l.st == AxiLane.AW && !i.awFire ==> l'.st == l.st && l'.addr == l.addr && l'.len == l.len)
            && (l.st == AxiLane.WD && !i.wFire ==>
                  l'.st == l.st && l'.sd == l.sd && l'.beat == l.beat && l'.len == l.len && l'.Strb() == l.Strb())
  {
  }

  /** Write data: there is at most one burst being moved, it belongs to the oldest address not
      yet filled, and WLAST marks exactly its beat AWLEN. Read data, read responses and write
      responses find their lane waiting; no ID has a second transaction of a kind in flight. */
  ghost predicate Disciplined(s: Sys, i: AxiMaster.Inputs)
  {
    && |s.wq| <= 1 && (s.m.wBusy <==> |s.wq| == 1)
    && (s.m.WValid() ==> s.wq == [s.m.wOwn] && s.P(s.m.wOwn).wr.Some? && !s.m.AwValid())
    && (s.m.WValid() && s.P(s.m.wOwn).wr.Some? ==>
          (s.m.WLast() <==> |s.P(s.m.wOwn).wr.value.got| == s.P(s.m.wOwn).wr.value.len))
    && (s.m.wBusy <==> s.m.l0.st == AxiLane.WD || s.m.l1.st == AxiLane.WD)
    && !(s.m.l0.st == AxiLane.WD && s.m.l1.st == AxiLane.WD)
    && (i.r.Some? ==> s.m.L(i.r.value.0).st == AxiLane.RD)
    && (i.b.Some? ==> s.m.L(i.b.value).st == AxiLane.WB)
    && (AxiMaster.ArFire(s.m, i) ==> IdlePort(s.P(s.m.ArSel())))
    && (AxiMaster.AwFire(s.m, i) ==> IdlePort(s.P(s.m.AwSel())))
  }

  lemma DisciplineHolds(s: Sys, c: Choice)
    requires Paired(s.m.l0, s.p0) && Paired(s.m.l1, s.p1) && Locks(s.m, s.wq)
    ensures Disciplined(s, MasterIn(s, c))
  {
  }

  // ---- bounded overtaking ----

  /** How often the other lane has passed a lane that waits for the AR channel, for the AW/W
      channel and at the hazard check; and how often the request it holds was accepted. */
  datatype Tally = Tally(ar: nat, aw: nat, hazard: nat, taken: nat)

  predicate Wanting(id: Lane, l: AxiLane.Regs, i: AxiLane.Inputs)
  {
    l.st == AxiLane.IDLE && (AxiLane.WantsRead(id, i) || AxiLane.WantsWrite(id, i)) && !AxiLane.Accepts(id, l, i)
  }

  /** The tally of lane id over one clock. */
  function Count(t: Tally, s: Sys, i: AxiMaster.Inputs, id: Lane): Tally
    requires s.m.l0.beat < 4 && s.m.l1.beat < 4
  {
    var l, o := s.m.L(id), s.m.L(1 - id);
    var j, oj := In(s, i, id), In(s, i, 1 - id);
    Tally(
      if l.st == AxiLane.AR && !j.arFire then t.ar + (if oj.arFire then 1 else 0) else 0,
      if l.st == AxiLane.AW && !j.awFire then t.aw + (if oj.awFire then 1 else 0) else 0,
      if Wanting(id, l, j) then t.hazard + (if AxiLane.Accepts(1 - id, o, oj) then 1 else 0) else 0,
      if !j.req.valid then 0 else t.taken + (if AxiLane.Accepts(id, l, j) then 1 else 0))
  }

  /** Once passed on a channel, a lane has it next: the other one is elsewhere or locked out. */
  predicate Bounded(t: Tally, m: AxiMaster.Regs, id: Lane)
  {
    && t.ar <= 1 && (t.ar == 1 && m.L(1 - id).st == AxiLane.AR ==> m.arLock && m.arOwn == id)
    && t.aw <= 1 && (t.aw == 1 && m.L(1 - id).st == AxiLane.AW ==> m.awLock && m.awOwn == id)
    && t.hazard <= id && (t.hazard == 1 ==> m.l0.st != AxiLane.IDLE)
    && t.taken <= 1 && (t.taken == 1 ==> m.L(id).st != AxiLane.IDLE)
  }

  lemma CountStep(t: Tally, s: Sys, c: Choice, id: Lane)
    requires Paired(s.m.l0, s.p0) && Paired(s.m.l1, s.p1) && Locks(s.m, s.wq)
    requires Bounded(t, s.m, id)
    requires t.ar > 0 ==> s.m.L(id).st == AxiLane.AR
    requires t.aw > 0 ==> s.m.L(id).st == AxiLane.AW
    ensures var i := MasterIn(s, c);
            Bounded(Count(t, s, i, id), AxiMaster.Next(s.m, i), id)
  {
    CountChannels(t, s, c, id);
    CountAccepts(t, s, c, id);
  }

  lemma CountChannels(t: Tally, s: Sys, c: Choice, id: Lane)
    requires Paired(s.m.l0, s.p0) && Paired(s.m.l1, s.p1) && Locks(s.m, s.wq)
    requires Bounded(t, s.m, id)
    requires t.ar > 0 ==> s.m.L(id).st == AxiLane.AR
    requires t.aw > 0 ==> s.m.L(id).st == AxiLane.AW
    ensures var i := MasterIn(s, c);
            var t', m' := Count(t, s, i, id), AxiMaster.Next(s.m, i);
            && t'.ar <= 1 && (t'.ar == 1 && m'.L(1 - id).st == AxiLane.AR ==> m'.arLock && m'.arOwn == id)
            && t'.aw <= 1 && (t'.aw == 1 && m'.L(1 - id).st == AxiLane.AW ==> m'.awLock && m'.awOwn == id)
  {
    hide AxiLane.Accepts, AxiLane.LatchedAddr, Wanting, MasterIn;
  }

  lemma CountAccepts(t: Tally, s: Sys, c: Choice, id: Lane)
    requires Paired(s.m.l0, s.p0) && Paired(s.m.l1, s.p1) && Bounded(t, s.m, id)
    ensures var i := MasterIn(s, c);
            var t', m' := Count(t, s, i, id), AxiMaster.Next(s.m, i);
            && t'.hazard <= id && (t'.hazard == 1 ==> m'.l0.st != AxiLane.IDLE)
            && t'.taken <= 1 && (t'.taken == 1 ==> m'.L(id).st != AxiLane.IDLE)
  {
    var i := MasterIn(s, c);
    assert s.m.l0.beat < 4 && s.m.l1.beat < 4;
    hide AxiLane.Next, MasterIn, Paired, AxiMaster.ArFire, AxiMaster.AwFire, AxiMaster.WFire;
    IdleLater(0, s.m.l0, AxiMaster.LaneIn0(s.m, i));
    IdleLater(1, s.m.l1, AxiMaster.LaneIn1(s.m, i));
  }

  /** A lane leaves idle by an acceptance, and comes back when it has answered and its request is dropped. */
  lemma IdleLater(id: Lane, l: AxiLane.Regs, i: AxiLane.Inputs)
    requires l.beat < 4
    ensures AxiLane.Next(id, l, i).st == AxiLane.IDLE
            <==> if l.st == AxiLane.IDLE then !AxiLane.Accepts(id, l, i) else l.st == AxiLane.WAIT && !i.req.valid
  {
    hide AxiLane.Accepts, AxiLane.LatchedAddr;
  }

  /** The tally of lane id after a run. */
  function TallyOf(w: World, cs: seq<Choice>, id: Lane): Tally
    requires Sane(w.s.m)
  {
    if cs == [] then Tally(0, 0, 0, 0)
    else
      var c := cs[|cs| - 1];
      var s := DoAll(Run(w, cs[..|cs| - 1]).s, c.acts);
      DoAllKeepsMaster(Run(w, cs[..|cs| - 1]).s, c.acts);
      Count(TallyOf(w, cs[..|cs| - 1], id), s, MasterIn(s, c), id)
  }

  /** What a lane's tally says of its state. */
  predicate Tallied(t: Tally, m: AxiMaster.Regs, id: Lane)
  {
    && Bounded(t, m, id)
    && (t.ar > 0 ==> m.L(id).st == AxiLane.AR) && (t.aw > 0 ==> m.L(id).st == AxiLane.AW)
  }

  lemma TallyStep(t: Tally, s: Sys, c: Choice, id: Lane)
    requires Paired(s.m.l0, s.p0) && Paired(s.m.l1, s.p1) && Locks(s.m, s.wq) && Tallied(t, s.m, id)
    ensures var i := MasterIn(s, c); Tallied(Count(t, s, i, id), AxiMaster.Next(s.m, i), id)
  {
    var i := MasterIn(s, c);
    CountStep(t, s, c, id);
    WaitsOn(id, s.m.L(id), In(s, i, id));
    hide Bounded, MasterIn, AxiLane.Next, AxiLane.Accepts, Wanting, Locks;
  }

  lemma {:induction false} TallyBounded(m0: Mem, w: World, cs: seq<Choice>, id: Lane)
    requires WorldInv(m0, w)
    ensures Tallied(TallyOf(w, cs, id), Run(w, cs).s.m, id)
  {
    hide Tallied, Count, AxiMaster.Next, MasterIn, DoAll, Paired, Locks, NextPort, EventsOf, NextWq, Observed;
    if cs == [] {
      NoTally(w.s.m, id);
    } else {
      var pre, c := cs[..|cs| - 1], cs[|cs| - 1];
      TallyBounded(m0, w, pre, id);
      var v := Run(w, pre);
      RunKeepsInv(m0, w, pre);
      EffectsKeep(m0, v, c);
      TallyStep(TallyOf(w, pre, id), DoAll(v.s, c.acts), c, id);
    }
  }

  lemma NoTally(m: AxiMaster.Regs, id: Lane)
    ensures Tallied(Tally(0, 0, 0, 0), m, id)
  {
  }

  /** A lane that is not served on its address channel stays there. */
  lemma WaitsOn(id: Lane, l: AxiLane.Regs, i: AxiLane.Inputs)
    requires l.beat < 4
    ensures var l' := AxiLane.Next(id, l, i);
            && (l.st == AxiLane.AR && !i.arFire ==> l'.st == AxiLane.AR)
            && (l.st == AxiLane.AW && !i.awFire ==> l'.st == AxiLane.AW)
  {
  }

  /** Memory effects leave lanes, ports and locks in step. */
  lemma EffectsKeep(m0: Mem, w: World, c: Choice)
    requires WorldInv(m0, w)
    ensures var s := DoAll(w.s, c.acts);
            s.m == w.s.m && Paired(s.m.l0, s.p0) && Paired(s.m.l1, s.p1) && Locks(s.m, s.wq)
  {
    DoAllKeepsMaster(w.s, c.acts);
    ActsKeepInv(w.s, c.acts, AccessAt(w.o.log, w.o.cur0), AccessAt(w.o.log, w.o.cur1), Replay(m0, w.o.log),
                AnswerAt(m0, w.o.log, w.o.cur0), AnswerAt(m0, w.o.log, w.o.cur1));
  }

  /** At every cycle of every run the channels are disciplined and stable, each lane has been
      passed at most once at each of the three arbitration points (lane 0 never at the hazard
      check), and a held request has been accepted at most once. */
  lemma ChannelsInEveryRun(m0: Mem, sd0: Quad, data0: Quad, sd1: Quad, data1: Quad, cs: seq<Choice>, c: Choice,
                           id: Lane)
    ensures var w0 := Init(m0, sd0, data0, sd1, data1);
            var s := DoAll(Run(w0, cs).s, c.acts);
            && Sane(s.m) && Sane(AxiMaster.Next(s.m, MasterIn(s, c)))
            && Disciplined(s, MasterIn(s, c))
            && Stable(s.m, MasterIn(s, c), AxiMaster.Next(s.m, MasterIn(s, c)))
            && var t := TallyOf(w0, cs, id);
               t.ar <= 1 && t.aw <= 1 && t.hazard <= id && t.taken <= 1
  {
    var w0 := Init(m0, sd0, data0, sd1, data1);
    InitInv(m0, sd0, data0, sd1, data1);
    RunKeepsInv(m0, w0, cs);
    EffectsKeep(m0, Run(w0, cs), c);
    var s := DoAll(Run(w0, cs).s, c.acts);
    DisciplineHolds(s, c);
    PayloadsStable(s, c);
    TallyBounded(m0, w0, cs, id);
  }
}
