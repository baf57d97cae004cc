/**
 The test bench's decoder of the trace stream: the bit cursor and its loops, proved against a
 recursive specification, and the round trip with the code.
 */
module TraceDecoder {
  import opened Prelude
  import opened Bits

  function Min(a: int, b: int): int { if a < b then a else b }

  // ---- specification ----

  /** Up to n bits from a position: the value of those that are there, and the position after. */
  function Take(bits: seq<bool>, pos: nat, n: nat): (r: (nat, nat))
    requires pos <= |bits|
    ensures pos <= r.1 <= |bits| && r.1 == Min(pos + n, |bits|)
  {
    var e := Min(pos + n, |bits|);
    (FromBits(bits[pos..e]), e)
  }

  /** A LEB128 number with u already read below bit sh, in 64 bits: stop at a byte without
      continuation, past bit 63, or at the end of the bits. */
  function ReadLeb(bits: seq<bool>, pos: nat, u: nat, sh: nat): (r: (nat, nat))
    requires pos <= |bits| && sh <= 63
    ensures r.0 < TWO64 && pos <= r.1 <= |bits|
    decreases 63 - sh
  {
    var (oct, p) := Take(bits, pos, 8);
    var u' := (u + oct % 128 * Pow2(sh)) % TWO64;
    if oct < 128 || sh + 7 > 63 || p >= |bits| then (u', p) else ReadLeb(bits, p, u', sh + 7)
  }

  /** The signed difference behind a zigzag number. */
  function Unzig(u: nat): int
  {
    if u % 2 == 1 then -((u + 1) % TWO64 / 2) else u / 2
  }

  /** The next PC and the position after its code. */
  function ReadPc(bits: seq<bool>, pos: nat, pc: Word32): (r: (Word32, nat))
    requires pos < |bits|
    ensures pos < r.1 <= |bits|
  {
    if bits[pos] then (Wrap32(pc + 4), pos + 1)
    else
      var (u, p) := ReadLeb(bits, pos + 1, 0, 0);
      (Wrap32(pc + 4 + Unzig(u)), p)
  }

  function DecodeFrom(bits: seq<bool>, pos: nat, pc: Word32, room: nat): seq<Word32>
    requires pos <= |bits|
    decreases room
  {
    if room == 0 || pos == |bits| then []
    else
      var (pc', p) := ReadPc(bits, pos, pc);
      [pc'] + DecodeFrom(bits, p, pc', room - 1)
  }

  lemma DecodeStep(bits: seq<bool>, pos: nat, last: Word32, room: nat, pc: Word32, p: nat)
    requires pos < p <= |bits| && room > 0 && ReadPc(bits, pos, last) == (pc, p)
    ensures DecodeFrom(bits, pos, last, room) == [pc] + DecodeFrom(bits, p, pc, room - 1)
  {
  }

  lemma SeedBound(bits: seq<bool>)
    requires |bits| >= 32
    ensures Take(bits, 0, 32).0 < TWO32
  {
    FromBitsBound(bits[0..32]);
    Pow2Values();
  }

  /** The whole decoder: a seed, then codes until the bits or the reference PCs run out. */
  function Decode(bits: seq<bool>, refs: nat): seq<Word32>
  {
    if |bits| < 32 || refs == 0 then []
    else
      var pc := Take(bits, 0, 32).0;
      assert pc < TWO32 by { SeedBound(bits); }
      [pc] + DecodeFrom(bits, 32, pc, refs - 1)
  }

  lemma Shift(was: seq<Word32>, pc: Word32, rest: seq<Word32>)
    ensures was + ([pc] + rest) == (was + [pc]) + rest
  {
  }

  // ---- the decoder's loops ----

  /** The bit cursor. */
  class Reader {
    const bits: seq<bool>
    var bitpos: nat

    constructor (bits: seq<bool>)
      ensures this.bits == bits && bitpos == 0
    {
      this.bits, bitpos := bits, 0;
    }

    /** One bit, or None at the end. */
    method GetBit() returns (b: Option<bool>)
      requires bitpos <= |bits|
      modifies this
      ensures old(bitpos) == |bits| ==> b == None && bitpos == old(bitpos)
      ensures old(bitpos) < |bits| ==> b == Some(bits[old(bitpos)]) && bitpos == old(bitpos) + 1
    {
      if bitpos >= |bits| { return None; }
      b := Some(bits[bitpos]);
      bitpos := bitpos + 1;
    }

    /** n bits, least significant first; fewer at the end. */
    method GetBits(n: nat) returns (v: nat)
      requires bitpos <= |bits|
      modifies this
      ensures (v, bitpos) == Take(bits, old(bitpos), n)
    {
      ghost var start := bitpos;
      v := 0;
      var i := 0;
      while i < n
        invariant 0 <= i <= n
        invariant bitpos == start + i <= |bits|
        invariant v == FromBits(bits[start..bitpos])
      {
        var b := GetBit();
        if b.None? { break; }
        FromBitsConcat(bits[start..bitpos - 1], [b.value]);
        assert bits[start..bitpos] == bits[start..bitpos - 1] + [b.value];
        if b.value { v := v + Pow2(i); }
        i := i + 1;
      }
    }

    /** The LEB128 loop. */
    method GetLeb() returns (u: nat)
      requires bitpos <= |bits|
      modifies this
      ensures (u, bitpos) == ReadLeb(bits, old(bitpos), 0, 0)
    {
      u := 0;
      var sh := 0;
      while true
        invariant bitpos <= |bits| && 0 <= sh <= 63
        invariant ReadLeb(bits, bitpos, u, sh) == ReadLeb(bits, old(bitpos), 0, 0)
        decreases 63 - sh
      {
        var oct := GetBits(8);
        u := (u + oct % 128 * Pow2(sh)) % TWO64;
        sh := sh + 7;
        if oct < 128 || sh > 63 || bitpos >= |bits| { break; }
      }
    }

    /** One code: a sequential PC, or a taken branch's difference. */
    method NextPc(pc: Word32) returns (pc': Word32)
      requires bitpos < |bits|
      modifies this
      ensures (pc', bitpos) == ReadPc(bits, old(bitpos), pc)
    {
      var s := GetBit();
      if s.value {
        pc' := Wrap32(pc + 4);
      } else {
        var u := GetLeb();
        pc' := Wrap32(pc + 4 + Unzig(u));
      }
    }

    /** The PC stream. */
    method Run(refs: nat) returns (dec: seq<Word32>)
      requires bitpos == 0
      modifies this
      ensures dec == Decode(bits, refs)
    {
      hide ReadPc, ReadLeb, Take, FromBits, ToBits;
      dec := [];
      if |bits| < 32 || refs == 0 { return; }
      var seed := GetBits(32);
      SeedBound(bits);
      var pc: Word32 := seed;
      dec := [pc];
      while |dec| < refs && bitpos < |bits|
        invariant bitpos <= |bits| && 1 <= |dec| <= refs
        invariant dec + DecodeFrom(bits, bitpos, pc, refs - |dec|) == Decode(bits, refs)
        decreases refs - |dec|
      {
        ghost var was, last, pos := dec, pc, bitpos;
        pc := NextPc(pc);
        dec := dec + [pc];
        DecodeStep(bits, pos, last, refs - |was|, pc, bitpos);
        Shift(was, pc, DecodeFrom(bits, bitpos, pc, refs - |dec|));
      }
    }
  }
}
