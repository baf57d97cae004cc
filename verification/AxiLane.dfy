/**
 One request engine of the master (`axi_lane`), as a next-state function and as the clocked
 object whose `Clock` method is proved to compute it.
 */
module AxiLane {
  import opened Prelude
  import opened AxiBus

  datatype State = IDLE | AR | RD | AW | WD | WB | BAD | WAIT

  /** The registers of one lane. */
  datatype Regs = Regs(
    st: State, addr: Word32, len: nat, beat: nat, mask: Strobe, isWr: bool, burst: bool,
    sd: Quad, data: Quad, rspValid: bool, rspBad: bool, ticks: nat)
  {
    /** The lane holds an accepted request that it has not answered. */
    predicate Busy() { st != IDLE && st != WAIT }
    function Line(): nat { addr / 64 }
    function Strb(): Strobe { if burst then ALL_LANES else mask }
    predicate LastBeat() { beat == len }
  }

  /** What a lane sees of the other one: an access in flight, and one accepted this cycle. */
  datatype Other = Other(busy: bool, wr: bool, line: nat, acc: bool, accWr: bool, accLine: nat)

  /** A beat on the read channel. */
  datatype ReadBeat = ReadBeat(data: Beat, last: bool)

  /** The inputs of a lane for one clock. */
  datatype Inputs = Inputs(
    cfg: Config, req: Request, other: Other,
    arFire: bool, awFire: bool, wFire: bool, r: Option<ReadBeat>, bValid: bool)

  const RESET_ADDR: Word32 := 0xdeadbee0
  const BAD_TICKS := 16

  function ResetRegs(sd: Quad, data: Quad): Regs
  {
    Regs(IDLE, RESET_ADDR, 0, 0, seq(16, _ => false), false, false, sd, data, false, false, 0)
  }

  /** The request of lane `id` as an access. */
  function Candidate(id: Lane, i: Inputs): Access { Access(id, i.cfg, i.req) }

  predicate WantsRead(id: Lane, i: Inputs) { i.req.valid && Candidate(id, i).Read() }
  predicate WantsWrite(id: Lane, i: Inputs) { i.req.valid && Candidate(id, i).Write() }
  function WantedLine(i: Inputs): nat { AxiAddr(i.cfg, i.req.addr) / 64 }

  /** The other lane is on the same 64-byte line, and one of the two accesses is a write. */
  predicate Hazard(id: Lane, i: Inputs)
  {
    || (i.other.busy && i.other.line == WantedLine(i) && (i.other.wr || WantsWrite(id, i)))
    || (i.other.acc && i.other.accLine == WantedLine(i) && (i.other.accWr || WantsWrite(id, i)))
  }

  predicate Accepts(id: Lane, l: Regs, i: Inputs)
  {
    l.st == IDLE && (WantsRead(id, i) || WantsWrite(id, i)) && !Hazard(id, i)
  }

  /** The address register of an accepted access: marked in its low bits when out of range,
      64-byte aligned for a burst. */
  function LatchedAddr(x: Access): Word32
  {
    if x.Bad() then x.Addr() / 16 * 16 + (if x.Write() then 1 else 2)
    else if x.Burst() then x.Addr() / 64 * 64
    else x.Addr()
  }

  /** The registers right after accepting a request. */
  function Accepted(id: Lane, l: Regs, i: Inputs): Regs
  {
    var x := Candidate(id, i);
    var wr := WantsWrite(id, i);
    l.(rspValid := false, rspBad := false, isWr := wr, burst := x.Burst(),
       len := if x.Burst() then 3 else 0, beat := 0, mask := i.req.mask, sd := i.req.data, ticks := 0,
       addr := LatchedAddr(x),
       st := if x.Bad() then BAD else if wr then AW else AR)
  }

  /** One clock edge of a lane. */
  function Next(id: Lane, l: Regs, i: Inputs): Regs
    requires l.beat < 4
  {
    var q := l.(rspValid := false, rspBad := false);
    match l.st
    case IDLE => if Accepts(id, l, i) then Accepted(id, l, i) else q
    case AR => if i.arFire then q.(st := RD) else q
    case RD =>
      (match i.r
       case None => q
       case Some(b) =>
         var slot := if id == 0 then 0 else l.beat;
         var q' := q.(beat := (l.beat + 1) % 4, data := l.data[slot := b.data]);
         if b.last then q'.(st := WAIT, rspValid := true) else q')
    case AW => if i.awFire then q.(st := WD) else q
    case WD =>
      if i.wFire then q.(beat := (l.beat + 1) % 4, st := if l.LastBeat() then WB else WD) else q
    case WB => if i.bValid then q.(st := WAIT, rspValid := true) else q
    case BAD =>
      var q' := q.(ticks := (l.ticks + 1) % 32,
                   data := if l.isWr then l.data else [A5_BEAT, A5_BEAT, A5_BEAT, A5_BEAT]);
      if l.ticks == BAD_TICKS then q'.(st := WAIT, rspValid := true, rspBad := true) else q'
    case WAIT => if i.req.valid then q else q.(st := IDLE)
  }

  /** The beat counter stays within its two bits. */
  lemma BeatRange(id: Lane, l: Regs, i: Inputs)
    requires l.beat < 4
    ensures Next(id, l, i).beat < 4
  {
  }

  /** The clocked object. */
  class Engine {
    const id: Lane
    var st: State
    var addr: Word32
    var len: nat
    var beat: nat
    var mask: Strobe
    var isWr: bool
    var burst: bool
    var sd: Quad
    var data: Quad
    var rspValid: bool
    var rspBad: bool
    var ticks: nat

    function Value(): Regs
      reads this
    {
      Regs(st, addr, len, beat, mask, isWr, burst, sd, data, rspValid, rspBad, ticks)
    }

    constructor (id: Lane, powerUpSd: Quad, powerUpData: Quad)
      ensures this.id == id && Value() == ResetRegs(powerUpSd, powerUpData)
    {
      this.id := id;
      st, addr, len, beat := IDLE, RESET_ADDR, 0, 0;
      mask, isWr, burst := seq(16, _ => false), false, false;
      sd, data := powerUpSd, powerUpData;
      rspValid, rspBad, ticks := false, false, 0;
    }

    /** An acceptance: the request is latched and the address range is checked. */
    method Accept(i: Inputs)
      modifies this
      ensures Value() == Accepted(id, old(Value()), i)
    {
      var x := Candidate(id, i);
      rspValid, rspBad := false, false;
      isWr, burst, mask, sd := WantsWrite(id, i), x.Burst(), i.req.mask, i.req.data;
      len := if x.Burst() then 3 else 0;
      beat, ticks := 0, 0;
      addr := LatchedAddr(x);
      st := if x.Bad() then BAD else if isWr then AW else AR;
    }

    /** A clock in RD: a beat goes into its slot. */
    method TakeBeat(i: Inputs)
      requires beat < 4 && st == RD
      modifies this
      ensures Value() == Next(id, old(Value()), i)
    {
      rspValid, rspBad := false, false;
      if i.r.Some? {
        data := data[(if id == 0 then 0 else beat) := i.r.value.data];
        beat := (beat + 1) % 4;
        if i.r.value.last { rspValid, st := true, WAIT; }
      }
    }

    /** A clock in BAD: poison, and the error response after sixteen ticks. */
    method Tick(i: Inputs)
      requires beat < 4 && st == BAD
      modifies this
      ensures Value() == Next(id, old(Value()), i)
    {
      rspValid, rspBad := false, false;
      if !isWr { data := [A5_BEAT, A5_BEAT, A5_BEAT, A5_BEAT]; }
      if ticks == BAD_TICKS { rspValid, rspBad, st := true, true, WAIT; }
      ticks := (ticks + 1) % 32;
    }

    /** A clock outside IDLE: the registers take their defaults, then the state's case overrides them. */
    method Progress(i: Inputs)
      requires beat < 4 && st != IDLE
      modifies this
      ensures Value() == Next(id, old(Value()), i)
    {
      hide Accepts, Accepted;
      if st == RD { TakeBeat(i); return; }
      if st == BAD { Tick(i); return; }
      rspValid, rspBad := false, false;
      match st {
        case AR =>
          if i.arFire { st := RD; }
        case AW =>
          if i.awFire { st := WD; }
        case WD =>
          if i.wFire {
            st := if beat == len then WB else WD;
            beat := (beat + 1) % 4;
          }
        case WB =>
          if i.bValid { rspValid, st := true, WAIT; }
        case WAIT =>
          if !i.req.valid { st := IDLE; }
      }
    }

    /** One clock edge. */
    method Clock(i: Inputs)
      requires beat < 4
      modifies this
      ensures Value() == Next(id, old(Value()), i)
    {
      if st != IDLE {
        Progress(i);
      } else if (WantsRead(id, i) || WantsWrite(id, i)) && !Hazard(id, i) {
        Accept(i);
      } else {
        rspValid, rspBad := false, false;
      }
    }
  }
}
