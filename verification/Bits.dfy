/** Bit strings, least significant bit first, and their values. */
module Bits {
  function Pow2(n: nat): (p: nat)
    ensures p >= 1
  {
    if n == 0 then 1 else 2 * Pow2(n - 1)
  }

  /** The n low bits of x. */
  function ToBits(x: nat, n: nat): (b: seq<bool>)
    ensures |b| == n
  {
    if n == 0 then [] else [x % 2 == 1] + ToBits(x / 2, n - 1)
  }

  function FromBits(b: seq<bool>): nat
  {
    if b == [] then 0 else (if b[0] then 1 else 0) + 2 * FromBits(b[1..])
  }

  function Zeros(n: nat): (b: seq<bool>)
    ensures |b| == n && forall i :: 0 <= i < n ==> !b[i]
  {
    seq(n, i => false)
  }

  lemma {:induction false} FromToBits(x: nat, n: nat)
    requires x < Pow2(n)
    ensures FromBits(ToBits(x, n)) == x
  {
    if n > 0 {
      FromToBits(x / 2, n - 1);
      assert ToBits(x, n)[1..] == ToBits(x / 2, n - 1);
    }
  }

  lemma {:induction false} FromBitsBound(b: seq<bool>)
    ensures FromBits(b) < Pow2(|b|)
  {
    if b != [] { FromBitsBound(b[1..]); }
  }

  lemma {:induction false} FromBitsConcat(a: seq<bool>, b: seq<bool>)
    ensures FromBits(a + b) == FromBits(a) + Pow2(|a|) * FromBits(b)
  {
    if a == [] {
      assert a + b == b;
    } else {
      FromBitsConcat(a[1..], b);
      assert (a + b)[1..] == a[1..] + b && (a + b)[0] == a[0];
      DoubleProduct(Pow2(|a| - 1), FromBits(b));
      assert Pow2(|a|) == 2 * Pow2(|a| - 1);
      assert FromBits(a) == (if a[0] then 1 else 0) + 2 * FromBits(a[1..]);
    }
  }

  lemma DoubleProduct(p: nat, y: nat)
    ensures 2 * (p * y) == (2 * p) * y
  {
  }

  lemma {:induction false} FromZeros(b: seq<bool>)
    requires forall i :: 0 <= i < |b| ==> !b[i]
    ensures FromBits(b) == 0
  {
    if b != [] { FromZeros(b[1..]); }
  }

  /** Trailing zeros do not change the value. */
  lemma FromPadded(a: seq<bool>, z: seq<bool>)
    requires forall i :: 0 <= i < |z| ==> !z[i]
    ensures FromBits(a + z) == FromBits(a)
  {
    FromBitsConcat(a, z);
    FromZeros(z);
  }

  /** Every bit inverted: the complement. */
  lemma {:induction false} FromInverted(b: seq<bool>, c: seq<bool>)
    requires |b| == |c| && forall i :: 0 <= i < |b| ==> c[i] == !b[i]
    ensures FromBits(c) == Pow2(|b|) - 1 - FromBits(b)
  {
    if b != [] { FromInverted(b[1..], c[1..]); }
  }

  lemma Pow2Values()
    ensures Pow2(7) == 128 && Pow2(8) == 256 && Pow2(31) == 0x8000_0000 && Pow2(32) == 0x1_0000_0000
    ensures Pow2(14) == 0x4000 && Pow2(21) == 0x20_0000 && Pow2(28) == 0x1000_0000
    ensures Pow2(33) == 0x2_0000_0000 && Pow2(35) == 0x8_0000_0000
  {
    assert Pow2(7) == 128;
    assert Pow2(14) == 0x4000;
    assert Pow2(21) == 0x20_0000;
    assert Pow2(28) == 0x1000_0000;
  }

  // ---- fixed-width words ----

  /** Bitwise or of two words of one width. */
  function Or(a: seq<bool>, b: seq<bool>): (r: seq<bool>)
    requires |a| == |b|
    ensures |r| == |a| && forall i :: 0 <= i < |r| ==> r[i] == (a[i] || b[i])
  {
    seq(|a|, i requires 0 <= i < |a| => a[i] || b[i])
  }

  /** Left shift by k inside the word's width: bits pushed over the top are lost. */
  function Shl(a: seq<bool>, k: nat): (r: seq<bool>)
    ensures |r| == |a| && forall i :: 0 <= i < |r| ==> r[i] == (i >= k && a[i - k])
  {
    seq(|a|, i requires 0 <= i < |a| => i >= k && a[i - k])
  }

  /** Right shift by k: zeros enter at the top. */
  function Shr(a: seq<bool>, k: nat): (r: seq<bool>)
    ensures |r| == |a| && forall i :: 0 <= i < |r| ==> r[i] == (i + k < |a| && a[i + k])
  {
    seq(|a|, i requires 0 <= i < |a| => i + k < |a| && a[i + k])
  }

  /** Zero extension to w bits. */
  function Zext(a: seq<bool>, w: nat): (r: seq<bool>)
    requires |a| <= w
    ensures |r| == w
  {
    a + Zeros(w - |a|)
  }

  /** A word whose bits from n on are all zero. */
  predicate Fits(a: seq<bool>, n: nat) { n <= |a| && forall i :: n <= i < |a| ==> !a[i] }

  /** The packing step of both pipeline stages: with the low n bits used and the rest zero,
      or-ing in a word shifted by n appends its m bits and nothing else. */
  lemma OrAppends(acc: seq<bool>, n: nat, x: seq<bool>, m: nat)
    requires Fits(acc, n) && Fits(x, m) && n + m <= |acc| && |x| == |acc|
    ensures var r := Or(acc, Shl(x, n));
            Fits(r, n + m) && r[..n + m] == acc[..n] + x[..m]
  {
  }
}
