/**
 Bus-level vocabulary of the two-lane AXI master: 16-byte beats, byte strobes, the
 IP22 physical-address fold, requests, and the sequential memory that the master is
 proved to implement.
 */
module AxiBus {
  import opened Prelude

  /** One 128-bit beat, byte lane i at index i. */
  type Beat = s: seq<Byte> | |s| == 16 witness seq(16, _ => 0)

  const ZERO_BEAT: Beat := [0, 0, 0, 0, 0, 0, 0, 0, 0, 0, 0, 0, 0, 0, 0, 0]

  /** Byte strobes of one beat. */
  type Strobe = s: seq<bool> | |s| == 16 witness seq(16, _ => true)

  /** A 64-byte store or load: four beats. */
  type Quad = s: seq<Beat> | |s| == 4 witness [ZERO_BEAT, ZERO_BEAT, ZERO_BEAT, ZERO_BEAT]

  const ALL_LANES: Strobe :=
    [true, true, true, true, true, true, true, true, true, true, true, true, true, true, true, true]
  const A5_BEAT: Beat :=
    [0xA5, 0xA5, 0xA5, 0xA5, 0xA5, 0xA5, 0xA5, 0xA5, 0xA5, 0xA5, 0xA5, 0xA5, 0xA5, 0xA5, 0xA5, 0xA5]

  /** The 32-bit AXI space as 2^28 beats. */
  const N_BEATS := 0x1000_0000
  type Mem = m: seq<Beat> | |m| == N_BEATS witness seq<Beat>(N_BEATS, _ => ZERO_BEAT)

  /** A strobed write of one beat. */
  function Merge(old_: Beat, new_: Beat, strb: Strobe): (r: Beat)
    ensures forall i :: 0 <= i < 16 ==> r[i] == if strb[i] then new_[i] else old_[i]
  {
    seq(16, i requires 0 <= i < 16 => if strb[i] then new_[i] else old_[i])
  }

  // ---- address map ----

  /** Control registers that shape an address: SGI mode, DRAM base, DRAM size - 1. */
  datatype Config = Config(sgi: bool, base: Word32, addrmask: Word32)

  /** The IP22 fold of a 36-bit processor address (identity outside SGI mode). */
  function Fold(sgi: bool, a: nat): nat
  {
    if sgi && 0x0800_0000 <= a <= 0x17ff_ffff then a % 0x1000_0000
    else if sgi && 0x1f00_0000 <= a <= 0x1fff_ffff then 16 * 0x100_0000 + a % 0x100_0000
    else a
  }

  /** The address on the AXI bus: the 32-bit sum of the base and the folded address. */
  function AxiAddr(c: Config, a: nat): Word32 { Wrap32(c.base + Fold(c.sgi, a) % TWO32) }

  predicate OutOfRange(c: Config, a: nat) { Fold(c.sgi, a) > c.addrmask }

  // The test bench's copy of the fold (29-bit addresses, base 0, fixed DRAM size).
  const FPGA_ADDRMASK: Word32 := 0x1eff_ffff

  function FpgaMap(cpuaddr: Word32): (r: (nat, bool))
  {
    var t := if 0x0800_0000 <= cpuaddr <= 0x17ff_ffff then cpuaddr % 0x1000_0000
             else if 0x1f00_0000 <= cpuaddr <= 0x1fff_ffff then 0x1000_0000 + cpuaddr % 0x100_0000
             else cpuaddr;
    (t, t > FPGA_ADDRMASK)
  }

  /** The RTL fold and the test bench's fold give the same DRAM offset and fault verdict. */
  lemma FoldCopiesAgree(a: Word32)
    ensures var c := Config(true, 0, FPGA_ADDRMASK);
            FpgaMap(a) == (AxiAddr(c, a), OutOfRange(c, a))
  {
    assert Fold(true, a) < TWO32;
  }

  /** Two processor addresses land on one DRAM byte only through the low 128 MB, which
      aliases the second half of low local memory. */
  lemma FoldCollisions(a: nat, b: nat)
    requires a < b
    ensures Fold(true, a) == Fold(true, b) <==> a < 0x0800_0000 && b == a + 0x1000_0000
  {
  }

  /** Distinct addresses of the range the machine uses stay distinct in DRAM. */
  lemma FoldInjective(a: nat, b: nat)
    requires 0x0800_0000 <= a <= 0x1fff_ffff && 0x0800_0000 <= b <= 0x1fff_ffff
    requires Fold(true, a) == Fold(true, b)
    ensures a == b
  {
    if a < b { FoldCollisions(a, b); } else if b < a { FoldCollisions(b, a); }
  }

  // ---- requests and the sequential memory ----

  /** The two lanes: 0 the processor, 1 the devices. */
  type Lane = i: int | 0 <= i < 2

  /** A request as the requester presents it (lane 0 drives only the first beat of `data`). */
  datatype Request = Request(valid: bool, addr: nat, opcode: nat, mask: Strobe, data: Quad)

  /** One accepted request with the control registers it was accepted under. */
  datatype Access = Access(lane: Lane, cfg: Config, req: Request)
  {
    /** Opcodes 5 and 6 are 64-byte accesses, on lane 1 only. */
    predicate Burst() { lane == 1 && (req.opcode == 5 || req.opcode == 6) }
    predicate Read() { req.opcode == 4 || (lane == 1 && req.opcode == 5) }
    predicate Write() { req.opcode == 7 || (lane == 1 && req.opcode == 6) }
    predicate Bad() { OutOfRange(cfg, req.addr) }
    function Addr(): Word32 { AxiAddr(cfg, req.addr) }
    function FirstBeat(): nat { if Burst() then Addr() / 64 * 4 else Addr() / 16 }
    function Beats(): nat { if Burst() then 4 else 1 }
    function Strb(): Strobe { if Burst() then ALL_LANES else req.mask }
  }

  /** Beats first .. first+n of m replaced, under the strobes, by data[0..n]. */
  function WriteBeats(m: Mem, first: nat, n: nat, data: Quad, strb: Strobe): (r: Mem)
    requires n <= 4
  {
    seq<Beat>(N_BEATS, a requires 0 <= a < N_BEATS =>
      if first <= a < first + n then Merge(m[a], data[a - first], strb) else m[a])
  }

  /** The sequential memory: one access performed atomically. */
  function Perform(m: Mem, x: Access): Mem
  {
    if x.Write() && !x.Bad() then WriteBeats(m, x.FirstBeat(), x.Beats(), x.req.data, x.Strb()) else m
  }

  /** What the sequential memory answers: the beats of a read (0xA5 bytes when out of
      range), nothing for a write. */
  function Answer(m: Mem, x: Access): (r: seq<Beat>)
  {
    if x.Write() then []
    else if x.Bad() then seq(x.Beats(), _ => A5_BEAT)
    else m[x.FirstBeat()..x.FirstBeat() + x.Beats()]
  }

  /** The accesses of a log performed one after another. */
  function Replay(m: Mem, log: seq<Access>): Mem
  {
    if log == [] then m else Perform(Replay(m, log[..|log| - 1]), log[|log| - 1])
  }

  /** Every beat of an access lies in the 32-bit space and in the access's own 64-byte line. */
  lemma InSpace(x: Access)
    ensures x.FirstBeat() + x.Beats() <= N_BEATS
    ensures forall a :: x.FirstBeat() <= a < x.FirstBeat() + x.Beats() ==> a / 4 == x.Addr() / 64
  {
  }
}
