/**
 The control-flow trace code: the encode wires of `dram_trace` bit by bit, the bit string a
 PC stream is meant to become, and the test bench's decoder. LEB128 is the variable-length
 integer of section 7.6 of the DWARF Version 4 standard.
 */
module TraceCodec {
  import opened Prelude
  import opened Bits

  /** The encoder's state: the last PC, once there is one. */
  datatype Coder = Coder(seeded: bool, last: Word32)

  // ---- the encode wires ----

  /** pc - (last + 4) in 32 bits. */
  function Delta(last: Word32, pc: Word32): Word32 { Wrap32(pc - (last + 4)) }

  /** {d, 1'b0} ^ {33{d[31]}}. */
  function ZigzagWire(d: Word32): (z: seq<bool>)
    ensures |z| == 33
  {
    var b := ToBits(d, 32);
    seq(33, i requires 0 <= i < 33 => (if i == 0 then false else b[i - 1]) != b[31])
  }

  predicate Any(z: seq<bool>, lo: nat, hi: nat)
    requires hi <= |z|
  {
    exists i :: lo <= i < hi && z[i]
  }

  /** The number of 7-bit groups, by the priority encoder. */
  function Groups(z: seq<bool>): (n: nat)
    requires |z| == 33
    ensures 1 <= n <= 5
  {
    if Any(z, 28, 33) then 5 else if Any(z, 21, 28) then 4 else if Any(z, 14, 21) then 3 else if Any(z, 7, 14) then 2
    else 1
  }

  /** Byte slot g: seven bits and a continuation bit; the last slot has five and no successor. */
  function SlotWire(z: seq<bool>, g: nat): (w: seq<bool>)
    requires |z| == 33 && g < 5
    ensures |w| == 8
  {
    if g < 4 then z[7 * g..7 * g + 7] + [Groups(z) > g + 1] else z[28..33] + [false, false, false]
  }

  /** The five byte slots. */
  function LebWire(z: seq<bool>): (w: seq<bool>)
    requires |z| == 33
    ensures |w| == 40
  {
    SlotWire(z, 0) + SlotWire(z, 1) + SlotWire(z, 2) + SlotWire(z, 3) + SlotWire(z, 4)
  }

  /** The 41-bit code and its length: the seed, a sequential PC, or a taken branch. */
  function CodeWire(s: Coder, pc: Word32): (w: seq<bool>)
    ensures |w| == 41
  {
    if !s.seeded then ToBits(pc, 32) + Zeros(9)
    else if Delta(s.last, pc) == 0 then [true] + Zeros(40)
    else [false] + LebWire(ZigzagWire(Delta(s.last, pc)))
  }

  function LenWire(s: Coder, pc: Word32): (n: nat)
    ensures 1 <= n <= 41
  {
    if !s.seeded then 32 else if Delta(s.last, pc) == 0 then 1 else 1 + 8 * Groups(ZigzagWire(Delta(s.last, pc)))
  }

  // ---- the code itself ----

  /** Group g of a number's bits, seven at a time; absent bits are zero. */
  function Group(z: seq<bool>, g: nat): (r: seq<bool>)
    ensures |r| == 7
  {
    seq(7, i requires 0 <= i < 7 => 7 * g + i < |z| && z[7 * g + i])
  }

  /** Groups g .. n-1 as bytes: seven bits and "more to come". */
  function Leb(z: seq<bool>, g: nat, n: nat): (b: seq<bool>)
    requires g <= n
    ensures |b| == 8 * (n - g)
    decreases n - g
  {
    if g == n then [] else Group(z, g) + [g + 1 < n] + Leb(z, g + 1, n)
  }

  /** The code of one PC. */
  function Code(s: Coder, pc: Word32): seq<bool>
  {
    if !s.seeded then ToBits(pc, 32)
    else if Delta(s.last, pc) == 0 then [true]
    else
      var z := ZigzagWire(Delta(s.last, pc));
      [false] + Leb(z, 0, Groups(z))
  }

  function After(s: Coder, pcs: seq<Word32>): Coder
  {
    if pcs == [] then s else Coder(true, pcs[|pcs| - 1])
  }

  /** The bit string of a PC stream: the codes end to end. */
  function Encode(s: Coder, pcs: seq<Word32>): seq<bool>
    decreases |pcs|
  {
    if pcs == [] then [] else Code(s, pcs[0]) + Encode(Coder(true, pcs[0]), pcs[1..])
  }

  /** One more PC adds its code at the end. */
  lemma {:induction false} EncodeSnoc(s: Coder, pcs: seq<Word32>, pc: Word32)
    ensures Encode(s, pcs + [pc]) == Encode(s, pcs) + Code(After(s, pcs), pc)
    decreases |pcs|
  {
    if pcs == [] {
      assert pcs + [pc] == [pc];
      OneCode(s, pc);
    } else {
      var s' := Coder(true, pcs[0]);
      EncodeSnoc(s', pcs[1..], pc);
      assert (pcs + [pc])[1..] == pcs[1..] + [pc];
      AfterTail(s, pcs);
      Assoc(Code(s, pcs[0]), Encode(s', pcs[1..]), Code(After(s, pcs), pc));
    }
  }

  lemma OneCode(s: Coder, pc: Word32)
    ensures Encode(s, [pc]) == Code(s, pc)
  {
    assert Encode(Coder(true, pc), [pc][1..]) == [];
  }

  lemma AfterTail(s: Coder, pcs: seq<Word32>)
    requires pcs != []
    ensures After(Coder(true, pcs[0]), pcs[1..]) == After(s, pcs)
  {
  }

  lemma Assoc(a: seq<bool>, b: seq<bool>, c: seq<bool>)
    ensures a + (b + c) == (a + b) + c
  {
  }

  const FRESH := Coder(false, 0)

  /** The wires carry the code in their low bits and nothing above it. */
  lemma WiresCarryCode(s: Coder, pc: Word32)
    ensures Fits(CodeWire(s, pc), LenWire(s, pc)) && CodeWire(s, pc)[..LenWire(s, pc)] == Code(s, pc)
  {
    if s.seeded && Delta(s.last, pc) != 0 {
      LebWires(ZigzagWire(Delta(s.last, pc)));
    }
  }

  lemma LebWires(z: seq<bool>)
    requires |z| == 33
    ensures Fits(LebWire(z), 8 * Groups(z)) && LebWire(z)[..8 * Groups(z)] == Leb(z, 0, Groups(z))
  {
    var n := Groups(z);
    var w := LebWire(z);
    GroupsCover(z);
    LebAt(z, w, n, 0);
  }

  /** No bit of the number lies above its groups. */
  lemma GroupsCover(z: seq<bool>)
    requires |z| == 33
    ensures forall i :: 7 * Groups(z) <= i < 33 ==> !z[i]
  {
  }

  lemma {:induction false} LebAt(z: seq<bool>, w: seq<bool>, n: nat, g: nat)
    requires |z| == 33 && g <= n == Groups(z) && w == LebWire(z)
    ensures w[8 * g..8 * n] == Leb(z, g, n)
    decreases n - g
  {
    hide LebWire, Groups;
    if g < n {
      LebAt(z, w, n, g + 1);
      assert w[8 * g..8 * n] == w[8 * g..8 * g + 8] + w[8 * g + 8..8 * n];
      LebByte(z, w, g);
    }
  }

  lemma LebByte(z: seq<bool>, w: seq<bool>, g: nat)
    requires |z| == 33 && g < Groups(z) && w == LebWire(z)
    ensures w[8 * g..8 * g + 8] == Group(z, g) + [g + 1 < Groups(z)]
  {
    Piece(SlotWire(z, 0), SlotWire(z, 1), SlotWire(z, 2), SlotWire(z, 3), SlotWire(z, 4), g, SlotWire(z, g));
    SlotIsGroup(z, g);
  }

  lemma SlotIsGroup(z: seq<bool>, g: nat)
    requires |z| == 33 && g < 5
    ensures SlotWire(z, g) == Group(z, g) + [g + 1 < Groups(z)]
  {
    var s, r := SlotWire(z, g), Group(z, g) + [g + 1 < Groups(z)];
    forall i | 0 <= i < 8
      ensures s[i] == r[i]
    {
    }
  }

  lemma Piece(a: seq<bool>, b: seq<bool>, c: seq<bool>, d: seq<bool>, e: seq<bool>, g: nat, p: seq<bool>)
    requires |a| == |b| == |c| == |d| == |e| == 8 && g < 5
    requires p == if g == 0 then a else if g == 1 then b else if g == 2 then c else if g == 3 then d else e
    ensures (a + b + c + d + e)[8 * g..8 * g + 8] == p
  {
  }
}
