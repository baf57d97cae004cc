/**
 The master: two lanes sharing the AR, AW and W channels through ownership locks
 (R and B beats find their lane by AXI ID).
 */
module AxiMaster {
  import opened Prelude
  import opened AxiBus
  import AxiLane

  /** The registers of the master. */
  datatype Regs = Regs(
    l0: AxiLane.Regs, l1: AxiLane.Regs,
    arLock: bool, arOwn: Lane, awLock: bool, awOwn: Lane, wBusy: bool, wOwn: Lane)
  {
    function L(id: Lane): AxiLane.Regs { if id == 0 then l0 else l1 }

    // the lane that drives each address channel: the lock's owner, else lane 0 first
    function ArSel(): Lane { if arLock then arOwn else if l0.st == AxiLane.AR then 0 else 1 }
    function AwSel(): Lane { if awLock then awOwn else if l0.st == AxiLane.AW then 0 else 1 }

    predicate ArValid() { L(ArSel()).st == AxiLane.AR }
    predicate AwValid() { !wBusy && L(AwSel()).st == AxiLane.AW }
    predicate WValid() { wBusy && L(wOwn).st == AxiLane.WD }
    predicate WLast() { L(wOwn).LastBeat() }
  }

  /** Requester and bus inputs for one clock. */
  datatype Inputs = Inputs(
    cfg: Config, req0: Request, req1: Request,
    arReady: bool, awReady: bool, wReady: bool,
    r: Option<(Lane, AxiLane.ReadBeat)>, b: Option<Lane>)

  function ResetRegs(l0: AxiLane.Regs, l1: AxiLane.Regs): Regs
  {
    Regs(l0, l1, false, 0, false, 0, false, 0)
  }

  predicate ArFire(m: Regs, i: Inputs) { m.ArValid() && i.arReady }
  predicate AwFire(m: Regs, i: Inputs) { m.AwValid() && i.awReady }
  predicate WFire(m: Regs, i: Inputs) { m.WValid() && i.wReady }

  function Wire(m: Regs, i: Inputs, id: Lane, other: AxiLane.Other): AxiLane.Inputs
  {
    AxiLane.Inputs(i.cfg, if id == 0 then i.req0 else i.req1, other,
      ArFire(m, i) && m.ArSel() == id, AwFire(m, i) && m.AwSel() == id, WFire(m, i) && m.wOwn == id,
      if i.r.Some? && i.r.value.0 == id then Some(i.r.value.1) else None,
      i.b == Some(id))
  }

  /** Lane 0 never waits for an acceptance of lane 1 in the same cycle ... */
  function LaneIn0(m: Regs, i: Inputs): AxiLane.Inputs
  {
    Wire(m, i, 0, AxiLane.Other(m.l1.Busy(), m.l1.isWr, m.l1.Line(), false, false, 0))
  }

  /** ... but lane 1 does for one of lane 0. */
  function LaneIn1(m: Regs, i: Inputs): AxiLane.Inputs
  {
    var i0 := LaneIn0(m, i);
    Wire(m, i, 1, AxiLane.Other(m.l0.Busy(), m.l0.isWr, m.l0.Line(), AxiLane.Accepts(0, m.l0, i0),
                                AxiLane.WantsWrite(0, i0), AxiLane.WantedLine(i0)))
  }

  /** One clock edge of the master. */
  function Next(m: Regs, i: Inputs): Regs
    requires m.l0.beat < 4 && m.l1.beat < 4
  {
    Regs(AxiLane.Next(0, m.l0, LaneIn0(m, i)), AxiLane.Next(1, m.l1, LaneIn1(m, i)),
         m.ArValid() && !i.arReady, m.ArSel(), m.AwValid() && !i.awReady, m.AwSel(),
         if AwFire(m, i) then true else if WFire(m, i) && m.WLast() then false else m.wBusy,
         if AwFire(m, i) then m.AwSel() else m.wOwn)
  }

  /** The clocked object: two lane engines and the channel locks. */
  class Master {
    const lane0: AxiLane.Engine
    const lane1: AxiLane.Engine
    var arLock: bool
    var arOwn: Lane
    var awLock: bool
    var awOwn: Lane
    var wBusy: bool
    var wOwn: Lane

    ghost predicate Valid()
      reads this, lane0, lane1
    {
      lane0 != lane1 && lane0.id == 0 && lane1.id == 1 && lane0.beat < 4 && lane1.beat < 4
    }

    function Value(): Regs
      reads this, lane0, lane1
    {
      Regs(lane0.Value(), lane1.Value(), arLock, arOwn, awLock, awOwn, wBusy, wOwn)
    }

    constructor (sd0: Quad, data0: Quad, sd1: Quad, data1: Quad)
      ensures Valid() && fresh(lane0) && fresh(lane1)
      ensures Value() == ResetRegs(AxiLane.ResetRegs(sd0, data0), AxiLane.ResetRegs(sd1, data1))
    {
      var e0 := new AxiLane.Engine(0, sd0, data0);
      var e1 := new AxiLane.Engine(1, sd1, data1);
      lane0, lane1 := e0, e1;
      arLock, arOwn, awLock, awOwn, wBusy, wOwn := false, 0, false, 0, false, 0;
    }

    /** One clock edge: every input is sampled before any register moves. */
    method Clock(i: Inputs)
      requires Valid()
      modifies this, lane0, lane1
      ensures Valid() && Value() == Next(old(Value()), i)
    {
      hide AxiLane.Next, LaneIn0, LaneIn1;
      var m := Value();
      arLock, arOwn := m.ArValid() && !i.arReady, m.ArSel();
      awLock, awOwn := m.AwValid() && !i.awReady, m.AwSel();
      if AwFire(m, i) {
        wBusy, wOwn := true, m.AwSel();
      } else if WFire(m, i) && m.WLast() {
        wBusy := false;
      }
      lane0.Clock(LaneIn0(m, i));
      lane1.Clock(LaneIn1(m, i));
      AxiLane.BeatRange(0, m.l0, LaneIn0(m, i));
      AxiLane.BeatRange(1, m.l1, LaneIn1(m, i));
    }
  }
}
