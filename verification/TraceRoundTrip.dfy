/**
 The decoder inverts the code: on any prefix of the bit string of a PC stream it returns every
 PC whose code lies wholly in the prefix, and at most one value more.
 */
module TraceRoundTrip {
  import opened Prelude
  import opened Bits
  import opened TraceCodec
  import opened TraceDecoder

  // ---- zigzag ----

  lemma TopBit(d: Word32)
    ensures ToBits(d, 32)[31] <==> d >= 0x8000_0000
  {
    var b := ToBits(d, 32);
    Pow2Values();
    FromToBits(d, 32);
    FromBitsBound(b[..31]);
    FromBitsConcat(b[..31], [b[31]]);
    assert b == b[..31] + [b[31]];
    assert FromBits([b[31]]) == if b[31] then 1 else 0;
  }

  /** The zigzag number: 2d for a non-negative difference, -2d - 1 for a negative one. */
  lemma ZigzagValue(d: Word32)
    ensures FromBits(ZigzagWire(d)) == if d < 0x8000_0000 then 2 * d else 2 * (TWO32 - d) - 1
  {
    var b, z := ToBits(d, 32), ZigzagWire(d);
    TopBit(d);
    Pow2Values();
    FromToBits(d, 32);
    if b[31] {
      FromInverted(b, z[1..]);
    } else {
      assert z[1..] == b;
    }
  }

  lemma ZigzagInverts(last: Word32, pc: Word32)
    ensures Wrap32(last + 4 + Unzig(FromBits(ZigzagWire(Delta(last, pc))))) == pc
  {
    hide FromBits, ZigzagWire, Unzig;
    var d := Delta(last, pc);
    ZigzagValue(d);
    UnzigValue(d, FromBits(ZigzagWire(d)));
    DeltaAdds(last, pc, d, if d < 0x8000_0000 then d else d - TWO32);
  }

  lemma UnzigValue(d: Word32, u: nat)
    requires u == if d < 0x8000_0000 then 2 * d else 2 * (TWO32 - d) - 1
    ensures Unzig(u) == if d < 0x8000_0000 then d else d - TWO32
  {
    if d >= 0x8000_0000 { assert u + 1 == 2 * (TWO32 - d); }
  }

  lemma DeltaAdds(last: Word32, pc: Word32, d: Word32, signed: int)
    requires d == Wrap32(pc - (last + 4)) && (signed == d || signed == d - TWO32)
    ensures Wrap32(last + 4 + signed) == pc
  {
    var q := (pc - (last + 4)) / TWO32;
    assert pc - (last + 4) == q * TWO32 + d;
  }

  // ---- LEB128 ----

  /** The number padded to its five groups. */
  function Padded(z: seq<bool>): (p: seq<bool>)
    requires |z| == 33
    ensures |p| == 35
  {
    z + [false, false]
  }

  lemma GroupOfPadded(z: seq<bool>, g: nat)
    requires |z| == 33 && g < 5
    ensures Group(z, g) == Padded(z)[7 * g..7 * g + 7]
  {
  }

  /** A byte read back: its seven bits, and whether more follow. */
  lemma ByteValue(group: seq<bool>, more: bool)
    requires |group| == 7
    ensures var oct := FromBits(group + [more]);
            oct % 128 == FromBits(group) && (oct < 128 <==> !more)
  {
    Pow2Values();
    FromBitsBound(group);
    FromBitsConcat(group, [more]);
    assert FromBits([more]) == if more then 1 else 0;
  }

  /** Adding the next group extends the value by seven bits. */
  lemma NextGroup(z: seq<bool>, g: nat)
    requires |z| == 33 && g < 5
    ensures FromBits(Padded(z)[..7 * g]) + FromBits(Group(z, g)) * Pow2(7 * g)
            == FromBits(Padded(z)[..7 * (g + 1)]) < TWO64
  {
    hide ToBits, Groups, FromBits, Pow2;
    var p := Padded(z);
    GroupOfPadded(z, g);
    FromParts(p, 7 * g, 7 * (g + 1));
    Pow2Values();
  }

  /** Values of the parts of a bit string. */
  lemma FromParts(p: seq<bool>, i: nat, j: nat)
    requires i <= j <= |p|
    ensures FromBits(p[..j]) == FromBits(p[..i]) + FromBits(p[i..j]) * Pow2(i)
    ensures FromBits(p[..j]) < Pow2(|p|)
  {
    hide FromBits, Pow2;
    assert p[..j] == p[..i] + p[i..j];
    FromBitsConcat(p[..i], p[i..j]);
    assert p == p[..j] + p[j..];
    FromBitsConcat(p[..j], p[j..]);
    FromBitsBound(p);
    assert Pow2(j) * FromBits(p[j..]) >= 0;
  }

  /** One turn of the LEB128 loop on a byte whose seven bits fit above u. */
  lemma ByteStep(bits: seq<bool>, pos: nat, u: nat, sh: nat, group: seq<bool>, more: bool, u': nat)
    requires |group| == 7 && pos + 8 <= |bits| && bits[pos..pos + 8] == group + [more]
    requires u + FromBits(group) * Pow2(sh) == u' < TWO64 && sh + 7 <= 63 && (more ==> pos + 8 < |bits|)
    ensures ReadLeb(bits, pos, u, sh) == if more then ReadLeb(bits, pos + 8, u', sh + 7) else (u', pos + 8)
  {
    hide FromBits, Pow2, Leb, Group, Groups;
    ByteValue(group, more);
    assert Take(bits, pos, 8) == (FromBits(group + [more]), pos + 8);
  }

  /** The value so far after each group. */
  ghost predicate Sums(z: seq<bool>, v: seq<nat>)
  {
    |v| == 6 && forall g :: 0 <= g < 5 ==> Adds(z, g, v[g], v[g + 1])
  }

  ghost predicate Adds(z: seq<bool>, g: nat, u: nat, u': nat)
  {
    u + FromBits(Group(z, g)) * Pow2(7 * g) == u' < TWO64
  }

  lemma {:induction false} LebReads(bits: seq<bool>, pos: nat, z: seq<bool>, g: nat, n: nat, v: seq<nat>)
    requires g < n <= 5 && Sums(z, v)
    requires pos + 8 * (n - g) <= |bits| && bits[pos..pos + 8 * (n - g)] == Leb(z, g, n)
    ensures ReadLeb(bits, pos, v[g], 7 * g) == (v[n], pos + 8 * (n - g))
    decreases n - g
  {
    hide ReadLeb, Leb, Group, Groups, FromBits, Pow2;
    LebHead(bits, pos, z, g, n);
    assert Adds(z, g, v[g], v[g + 1]);
    ByteStep(bits, pos, v[g], 7 * g, Group(z, g), g + 1 < n, v[g + 1]);
    if g + 1 < n { LebReads(bits, pos + 8, z, g + 1, n, v); }
  }

  /** The first byte of a LEB128 string, and what follows. */
  lemma LebHead(bits: seq<bool>, pos: nat, z: seq<bool>, g: nat, n: nat)
    requires g < n && pos + 8 * (n - g) <= |bits| && bits[pos..pos + 8 * (n - g)] == Leb(z, g, n)
    ensures bits[pos..pos + 8] == Group(z, g) + [g + 1 < n]
    ensures bits[pos + 8..pos + 8 * (n - g)] == Leb(z, g + 1, n)
  {
    var s := bits[pos..pos + 8 * (n - g)];
    assert s[..8] == bits[pos..pos + 8] && s[8..] == bits[pos + 8..pos + 8 * (n - g)];
  }

  lemma LebWhole(bits: seq<bool>, pos: nat, z: seq<bool>)
    requires |z| == 33 && pos + 8 * Groups(z) <= |bits| && bits[pos..pos + 8 * Groups(z)] == Leb(z, 0, Groups(z))
    ensures ReadLeb(bits, pos, 0, 0) == (FromBits(z), pos + 8 * Groups(z))
  {
    hide ReadLeb, FromBits, ToBits, Leb;
    var n := Groups(z);
    var v := SumsOf(z);
    LebReads(bits, pos, z, 0, n, v);
  }

  lemma SumsOf(z: seq<bool>) returns (v: seq<nat>)
    requires |z| == 33
    ensures Sums(z, v) && v[0] == 0 && v[Groups(z)] == FromBits(z)
  {
    var p := Padded(z);
    v := seq(6, g requires 0 <= g < 6 => FromBits(p[..7 * g]));
    forall g | 0 <= g < 5
      ensures Adds(z, g, v[g], v[g + 1])
    {
      NextGroup(z, g);
    }
    assert p[..0] == [];
    AllGroups(z);
  }

  lemma AllGroups(z: seq<bool>)
    requires |z| == 33
    ensures FromBits(Padded(z)[..7 * Groups(z)]) == FromBits(z)
  {
    var n, p := Groups(z), Padded(z);
    GroupsCover(z);
    assert p == p[..7 * n] + p[7 * n..];
    FromPadded(p[..7 * n], p[7 * n..]);
    FromPadded(z, [false, false]);
  }

  // ---- one code ----

  lemma CodeReads(bits: seq<bool>, pos: nat, s: Coder, pc: Word32)
    requires s.seeded && pos + |Code(s, pc)| <= |bits| && bits[pos..pos + |Code(s, pc)|] == Code(s, pc)
    ensures |Code(s, pc)| > 0 && ReadPc(bits, pos, s.last) == (pc, pos + |Code(s, pc)|)
  {
    hide Group, ReadLeb, ToBits, FromBits, Unzig, ZigzagWire, ReadPc, Groups;
    var c := Code(s, pc);
    Inside(bits, pos, c);
    var d := Delta(s.last, pc);
    if d != 0 {
      var z := ZigzagWire(d);
      LebWhole(bits, pos + 1, z);
      ZigzagInverts(s.last, pc);
      BranchReads(bits, pos, s.last, FromBits(z), pos + |c|);
    } else {
      DeltaAdds(s.last, pc, d, 0);
      SequentialReads(bits, pos, s.last);
    }
  }

  lemma SequentialReads(bits: seq<bool>, pos: nat, last: Word32)
    requires pos < |bits| && bits[pos]
    ensures ReadPc(bits, pos, last) == (Wrap32(last + 4), pos + 1)
  {
  }

  lemma BranchReads(bits: seq<bool>, pos: nat, last: Word32, u: nat, p: nat)
    requires pos < |bits| && !bits[pos] && ReadLeb(bits, pos + 1, 0, 0) == (u, p)
    ensures ReadPc(bits, pos, last) == (Wrap32(last + 4 + Unzig(u)), p)
  {
  }

  lemma Inside(bits: seq<bool>, pos: nat, c: seq<bool>)
    requires c != [] && pos + |c| <= |bits| && bits[pos..pos + |c|] == c
    ensures bits[pos] == c[0] && bits[pos + 1..pos + |c|] == c[1..]
  {
  }

  /** The rest of the bits is a proper beginning of a LEB128 string. */
  ghost predicate CutAt(bits: seq<bool>, pos: nat, c: seq<bool>)
  {
    pos <= |bits| < pos + |c| && bits[pos..] == c[..|bits| - pos]
  }

  /** A LEB128 string cut short is read up to the end of the bits. */
  lemma {:induction false} LebCut(bits: seq<bool>, pos: nat, z: seq<bool>, g: nat, n: nat, u: nat)
    requires |z| == 33 && g < n <= 5 && CutAt(bits, pos, Leb(z, g, n))
    ensures ReadLeb(bits, pos, u, 7 * g).1 == |bits|
    decreases n - g
  {
    hide ReadLeb, FromBits, ToBits, Groups;
    if |bits| - pos <= 8 {
      LastByte(bits, pos, u, 7 * g);
    } else {
      CutHead(bits, pos, Group(z, g) + [g + 1 < n], Leb(z, g + 1, n));
      assert g + 1 < n;
      var u' := MoreFollow(bits, pos, u, 7 * g, Group(z, g));
      LebCut(bits, pos + 8, z, g + 1, n, u');
    }
  }

  lemma LastByte(bits: seq<bool>, pos: nat, u: nat, sh: nat)
    requires pos <= |bits| <= pos + 8 && sh <= 63
    ensures ReadLeb(bits, pos, u, sh).1 == |bits|
  {
  }

  lemma MoreFollow(bits: seq<bool>, pos: nat, u: nat, sh: nat, group: seq<bool>) returns (u': nat)
    requires |group| == 7 && pos + 8 < |bits| && bits[pos..pos + 8] == group + [true] && sh + 7 <= 63
    ensures ReadLeb(bits, pos, u, sh) == ReadLeb(bits, pos + 8, u', sh + 7)
  {
    ByteValue(group, true);
    var oct := FromBits(group + [true]);
    assert Take(bits, pos, 8) == (oct, pos + 8);
    u' := (u + oct % 128 * Pow2(sh)) % TWO64;
  }

  lemma CutHead(bits: seq<bool>, pos: nat, head: seq<bool>, tail: seq<bool>)
    requires |head| == 8 && pos + 8 < |bits| && CutAt(bits, pos, head + tail)
    ensures bits[pos..pos + 8] == head && CutAt(bits, pos + 8, tail)
  {
    var c := head + tail;
    assert bits[pos..pos + 8] == bits[pos..][..8] == c[..8];
    assert bits[pos + 8..] == bits[pos..][8..] == c[8..][..|bits| - pos - 8];
    assert c[8..] == tail;
  }

  lemma CodeCut(bits: seq<bool>, pos: nat, s: Coder, pc: Word32)
    requires s.seeded && pos < |bits| && CutAt(bits, pos, Code(s, pc))
    ensures ReadPc(bits, pos, s.last).1 == |bits|
  {
    hide Group, ReadLeb, ToBits, FromBits, Unzig, ZigzagWire, Groups, Leb;
    var c := Code(s, pc);
    assert bits[pos] == bits[pos..][0] == c[0];
    var z := ZigzagWire(Delta(s.last, pc));
    assert c[1..] == Leb(z, 0, Groups(z));
    assert bits[pos + 1..] == bits[pos..][1..] == c[1..][..|bits| - pos - 1];
    LebCut(bits, pos + 1, z, 0, Groups(z), 0);
  }

  // ---- the stream ----

  /** How many codes of the stream lie wholly in its first n bits. */
  function Whole(s: Coder, pcs: seq<Word32>, n: nat): (k: nat)
    ensures k <= |pcs|
    decreases |pcs|
  {
    if pcs == [] || |Code(s, pcs[0])| > n then 0 else 1 + Whole(Coder(true, pcs[0]), pcs[1..], n - |Code(s, pcs[0])|)
  }

  /** That many codes fit, and one more does not. */
  lemma {:induction false} WholeIsGreatest(s: Coder, pcs: seq<Word32>, n: nat)
    ensures var k := Whole(s, pcs, n);
            && |Encode(s, pcs[..k])| <= n
            && (k < |pcs| ==> n < |Encode(s, pcs[..k + 1])|)
    decreases |pcs|
  {
    if pcs != [] {
      var pc, s' := pcs[0], Coder(true, pcs[0]);
      var k := Whole(s, pcs, n);
      if k == 0 {
        assert pcs[..1] == [pc];
        OneCode(s, pc);
      } else {
        WholeIsGreatest(s', pcs[1..], n - |Code(s, pc)|);
        FirstOf(s, pcs, k);
        if k < |pcs| { FirstOf(s, pcs, k + 1); }
      }
    }
  }

  lemma FirstOf(s: Coder, pcs: seq<Word32>, k: nat)
    requires 1 <= k <= |pcs|
    ensures Encode(s, pcs[..k]) == Code(s, pcs[0]) + Encode(Coder(true, pcs[0]), pcs[1..][..k - 1])
  {
    assert pcs[..k][1..] == pcs[1..][..k - 1];
  }

  lemma CodeNotEmpty(s: Coder, pc: Word32)
    ensures |Code(s, pc)| >= 1
  {
  }

  lemma {:induction false} DecodeTail(bits: seq<bool>, pos: nat, s: Coder, pcs: seq<Word32>, room: nat)
    requires s.seeded && pos <= |bits| && bits[pos..] <= Encode(s, pcs)
    ensures Follows(DecodeFrom(bits, pos, s.last, room), pcs, Whole(s, pcs, |bits| - pos), room)
    decreases room
  {
    hide Code, DecodeFrom, Whole, Follows;
    if room == 0 || pos == |bits| {
      NoneLeft(bits, pos, s, pcs, room);
    } else {
      var pc, s', c := pcs[0], Coder(true, pcs[0]), Code(s, pcs[0]);
      CodePlace(bits, pos, c, Encode(s', pcs[1..]));
      if pos + |c| <= |bits| {
        var tail := DecodeFrom(bits, pos + |c|, pc, room - 1);
        var whole := Whole(s', pcs[1..], |bits| - pos - |c|);
        assert Follows(tail, pcs[1..], whole, room - 1) by {
          DecodeTail(bits, pos + |c|, s', pcs[1..], room - 1);
        }
        CodeDecodes(bits, pos, s, pc, room);
        WholeStep(s, pcs, |bits| - pos);
        FollowsMore(tail, pcs, whole, room);
      } else {
        CutDecodes(bits, pos, s, pc, room);
        WholeStep(s, pcs, |bits| - pos);
        FollowsOne(DecodeFrom(bits, pos, s.last, room), pcs, room);
      }
    }
  }

  lemma NoneLeft(bits: seq<bool>, pos: nat, s: Coder, pcs: seq<Word32>, room: nat)
    requires pos <= |bits| && (room == 0 || pos == |bits|)
    ensures Follows(DecodeFrom(bits, pos, s.last, room), pcs, Whole(s, pcs, |bits| - pos), room)
  {
    if pcs != [] { CodeNotEmpty(s, pcs[0]); }
  }

  lemma WholeStep(s: Coder, pcs: seq<Word32>, n: nat)
    requires pcs != []
    ensures var l := |Code(s, pcs[0])|;
            Whole(s, pcs, n) == if l <= n then 1 + Whole(Coder(true, pcs[0]), pcs[1..], n - l) else 0
  {
    hide Code;
  }

  lemma CodeDecodes(bits: seq<bool>, pos: nat, s: Coder, pc: Word32, room: nat)
    requires s.seeded && pos + |Code(s, pc)| <= |bits| && bits[pos..pos + |Code(s, pc)|] == Code(s, pc) && room > 0
    ensures DecodeFrom(bits, pos, s.last, room) == [pc] + DecodeFrom(bits, pos + |Code(s, pc)|, pc, room - 1)
  {
    hide Code, ReadPc, DecodeFrom;
    CodeReads(bits, pos, s, pc);
    DecodeStep(bits, pos, s.last, room, pc, pos + |Code(s, pc)|);
  }

  lemma CutDecodes(bits: seq<bool>, pos: nat, s: Coder, pc: Word32, room: nat)
    requires s.seeded && pos < |bits| && CutAt(bits, pos, Code(s, pc)) && room > 0
    ensures |DecodeFrom(bits, pos, s.last, room)| == 1
  {
    hide Code, ReadPc;
    CodeCut(bits, pos, s, pc);
    var pc' := ReadPc(bits, pos, s.last).0;
    DecodeStep(bits, pos, s.last, room, pc', |bits|);
    assert DecodeFrom(bits, |bits|, pc', room - 1) == [];
  }

  /** dec starts with the first whole PCs, as far as there is room, and holds at most one value more. */
  ghost predicate Follows(dec: seq<Word32>, pcs: seq<Word32>, whole: nat, room: nat)
    requires whole <= |pcs|
  {
    var m := Min(whole, room);
    m <= |dec| <= Min(whole + 1, room) && dec[..m] == pcs[..m]
  }

  lemma FollowsMore(dec: seq<Word32>, pcs: seq<Word32>, whole: nat, room: nat)
    requires pcs != [] && whole < |pcs| && room > 0 && Follows(dec, pcs[1..], whole, room - 1)
    ensures Follows([pcs[0]] + dec, pcs, whole + 1, room)
  {
    var m := Min(whole, room - 1);
    assert ([pcs[0]] + dec)[..m + 1] == [pcs[0]] + dec[..m];
    assert pcs[..m + 1] == [pcs[0]] + pcs[1..][..m];
  }

  lemma FollowsOne(dec: seq<Word32>, pcs: seq<Word32>, room: nat)
    requires |dec| == 1 && room > 0
    ensures Follows(dec, pcs, 0, room)
  {
  }

  /** The first code sits at the position, whole or cut. */
  lemma CodePlace(bits: seq<bool>, pos: nat, c: seq<bool>, rest: seq<bool>)
    requires pos <= |bits| && bits[pos..] <= c + rest
    ensures if pos + |c| <= |bits| then bits[pos..pos + |c|] == c && bits[pos + |c|..] <= rest else CutAt(bits, pos, c)
  {
    var t := bits[pos..];
    if pos + |c| <= |bits| {
      assert bits[pos..pos + |c|] == t[..|c|] == (c + rest)[..|c|];
      assert bits[pos + |c|..] == t[|c|..] == (c + rest)[|c|..|t|] == rest[..|t| - |c|];
    } else {
      assert t == (c + rest)[..|t|] == c[..|t|];
    }
  }

  /** On every prefix of a PC stream's bits the decoder returns every PC whose code lies wholly
      in it, in order, and at most one value more. */
  lemma DecodesPrefix(pcs: seq<Word32>, bits: seq<bool>, refs: nat)
    requires bits <= Encode(FRESH, pcs)
    ensures Follows(Decode(bits, refs), pcs, Whole(FRESH, pcs, |bits|), refs)
  {
    hide Encode, ToBits, FromBits, Decode, DecodeFrom, Follows, Whole;
    if |bits| < 32 || refs == 0 {
      TooShort(bits, pcs, refs);
    } else {
      var pc := FirstPc(pcs, bits);
      var s := Coder(true, pc);
      DecodeTail(bits, 32, s, pcs[1..], refs - 1);
      WholeStep(FRESH, pcs, |bits|);
      FollowsMore(DecodeFrom(bits, 32, pc, refs - 1), pcs, Whole(s, pcs[1..], |bits| - 32), refs);
    }
  }

  /** Less than a seed, or nothing to compare with: nothing is decoded. */
  lemma TooShort(bits: seq<bool>, pcs: seq<Word32>, refs: nat)
    requires |bits| < 32 || refs == 0
    ensures Follows(Decode(bits, refs), pcs, Whole(FRESH, pcs, |bits|), refs)
  {
  }

  /** The seed is read back, and the rest of the bits follow the rest of the stream. */
  lemma FirstPc(pcs: seq<Word32>, bits: seq<bool>) returns (pc: Word32)
    requires bits <= Encode(FRESH, pcs) && |bits| >= 32
    ensures pcs != [] && pc == pcs[0] && |Code(FRESH, pc)| == 32
    ensures bits[32..] <= Encode(Coder(true, pc), pcs[1..])
    ensures forall refs: nat :: refs > 0 ==> Decode(bits, refs) == [pc] + DecodeFrom(bits, 32, pc, refs - 1)
  {
    hide ToBits, FromBits;
    assert pcs != [];
    pc := pcs[0];
    assert bits[0..] == bits;
    CodePlace(bits, 0, ToBits(pc, 32), Encode(Coder(true, pc), pcs[1..]));
    SeedReads(bits, pc);
  }

  lemma SeedReads(bits: seq<bool>, pc: Word32)
    requires |bits| >= 32 && bits[0..32] == ToBits(pc, 32)
    ensures Take(bits, 0, 32).0 == pc
  {
    Pow2Values();
    FromToBits(pc, 32);
  }
}
