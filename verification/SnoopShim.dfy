/**
 The snoop shim between a DMA engine and memory: the seven-state machine that write-back
 invalidates every 16-byte line of an access before it, and of a write again after it.
 */
module SnoopShim {
  import opened Prelude

  /** Sixteen bytes. */
  type Line = l: seq<Byte> | |l| == 16 witness seq(16, _ => 0)

  type Mask = m: seq<bool> | |m| == 16 witness seq(16, _ => false)

  const OP_LOAD64 := 5
  const OP_STORE64 := 6
  const OP_STORE16 := 7

  /** An engine access, held until its response. `data` and `masks` are what a store writes, line
      by line: a 16-byte store uses the first entry of each. */
  datatype Request = Request(addr: nat, op: nat, data: seq<Line>, masks: seq<Mask>)
  {
    predicate Ok() { |data| == |masks| == 4 }
    predicate Is64() { op == OP_LOAD64 || op == OP_STORE64 }
    predicate Write() { op == OP_STORE16 || op == OP_STORE64 }

    /** Staging memory, 0x1e000000 .. 0x1effffff, which the processor never caches. */
    predicate Staging() { addr / 0x100_0000 == 0x1e }

    /** How many lines the access touches. */
    function Count(): (n: nat)
      ensures n == 1 || n == 4
    {
      if Is64() then 4 else 1
    }

    /** Number of its k-th line. */
    function LineNo(k: nat): nat { if Is64() then addr / 64 * 4 + k else addr / 16 }
  }

  datatype State = IDLE | PRE | PRE_WAIT | FWD | POST | POST_WAIT | RSP

  datatype Regs = Regs(st: State, loadData: seq<Line>, sub: nat)

  function ResetRegs(): Regs { Regs(IDLE, [ZERO_LINE, ZERO_LINE, ZERO_LINE, ZERO_LINE], 0) }

  const ZERO_LINE: Line := [0, 0, 0, 0, 0, 0, 0, 0, 0, 0, 0, 0, 0, 0, 0, 0]

  /** What the shim samples at a clock edge. */
  datatype Inputs = Inputs(req: Option<Request>, ack: bool, done: bool, rsp: Option<seq<Line>>)

  /** The last line of the access is being snooped. */
  predicate LastSub(q: Request, sub: nat) { !q.Is64() || sub == 3 }

  function Next(r: Regs, i: Inputs): Regs
    requires i.req.Some? || r.st == IDLE
  {
    match r.st
    case IDLE => if i.req.Some? then r.(st := if i.req.value.Staging() then FWD else PRE, sub := 0) else r
    case PRE => if i.ack then r.(st := PRE_WAIT) else r
    case PRE_WAIT =>
      if i.done then r.(st := if LastSub(i.req.value, r.sub) then FWD else PRE, sub := (r.sub + 1) % 4) else r
    case FWD =>
      if i.rsp.Some? then
        Regs(if i.req.value.Write() && !i.req.value.Staging() then POST else RSP, i.rsp.value, 0)
      else r
    case POST => if i.ack then r.(st := POST_WAIT) else r
    case POST_WAIT =>
      if i.done then r.(st := if LastSub(i.req.value, r.sub) then RSP else POST, sub := (r.sub + 1) % 4) else r
    case RSP => r.(st := IDLE)
  }

  /** The clocked object. */
  class Shim {
    var st: State
    var loadData: seq<Line>
    var sub: nat

    function Value(): Regs
      reads this
    {
      Regs(st, loadData, sub)
    }

    constructor ()
      ensures Value() == ResetRegs()
    {
      st, loadData, sub := IDLE, [ZERO_LINE, ZERO_LINE, ZERO_LINE, ZERO_LINE], 0;
    }

    method Clock(i: Inputs)
      requires i.req.Some? || st == IDLE
      modifies this
      ensures Value() == Next(old(Value()), i)
    {
      match st {
        case IDLE =>
          if i.req.Some? {
            st := if i.req.value.Staging() then FWD else PRE;
            sub := 0;
          }
        case PRE => if i.ack { st := PRE_WAIT; }
        case PRE_WAIT =>
          if i.done {
            st := if LastSub(i.req.value, sub) then FWD else PRE;
            sub := (sub + 1) % 4;
          }
        case FWD =>
          if i.rsp.Some? {
            loadData := i.rsp.value;
            st := if i.req.value.Write() && !i.req.value.Staging() then POST else RSP;
            sub := 0;
          }
        case POST => if i.ack { st := POST_WAIT; }
        case POST_WAIT =>
          if i.done {
            st := if LastSub(i.req.value, sub) then RSP else POST;
            sub := (sub + 1) % 4;
          }
        case RSP => st := IDLE;
      }
    }
  }
}
