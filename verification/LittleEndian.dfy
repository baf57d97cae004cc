/** Byte strings and the numbers they spell, least significant byte first. */
module LittleEndian {
  import opened Prelude

  function Pow256(k: nat): (p: nat)
    ensures p >= 1
  {
    if k == 0 then 1 else 256 * Pow256(k - 1)
  }

  /** The number whose bytes, least significant first, these are. */
  function Value(l: seq<Byte>): nat
  {
    if l == [] then 0 else l[0] + 256 * Value(l[1..])
  }

  /** Its n low bytes again. */
  function BytesOf(v: nat, n: nat): (l: seq<Byte>)
    ensures |l| == n
  {
    if n == 0 then [] else [v % 256] + BytesOf(v / 256, n - 1)
  }

  lemma {:induction false} BytesOfValue(l: seq<Byte>)
    ensures BytesOf(Value(l), |l|) == l
  {
    if l != [] {
      BytesOfValue(l[1..]);
      LowByte(l[0], Value(l[1..]));
    }
  }

  lemma LowByte(b: Byte, v: nat)
    ensures (b + 256 * v) % 256 == b && (b + 256 * v) / 256 == v
  {
  }

  /** Filling a zero byte adds it at its weight. */
  lemma {:induction false} SetLane(l: seq<Byte>, k: nat, b: Byte)
    requires k < |l| && l[k] == 0
    ensures Value(l[k := b]) == Value(l) + b * Pow256(k)
  {
    var l' := l[k := b];
    if k == 0 {
      assert l'[1..] == l[1..];
    } else {
      SetLane(l[1..], k - 1, b);
      assert l'[1..] == l[1..][k - 1 := b] && l'[0] == l[0];
      Weigh(b, Pow256(k - 1));
    }
  }

  lemma {:induction false} ClearValue(l: seq<Byte>)
    requires forall i :: 0 <= i < |l| ==> l[i] == 0
    ensures Value(l) == 0
  {
    if l != [] { ClearValue(l[1..]); }
  }

  lemma Weigh(b: nat, p: nat)
    ensures 256 * (b * p) == b * (256 * p)
  {
  }

  /** The value of two byte strings end to end. */
  lemma {:induction false} ValueConcat(a: seq<Byte>, b: seq<Byte>)
    ensures Value(a + b) == Value(a) + Pow256(|a|) * Value(b)
  {
    if a == [] {
      assert a + b == b;
    } else {
      ValueConcat(a[1..], b);
      assert (a + b)[1..] == a[1..] + b && (a + b)[0] == a[0];
      Weigh2(Pow256(|a| - 1), Value(b));
    }
  }

  lemma Weigh2(p: nat, v: nat)
    ensures 256 * (p * v) == (256 * p) * v
  {
  }

  lemma {:induction false} ValueOfBytes(v: nat, n: nat)
    requires v < Pow256(n)
    ensures Value(BytesOf(v, n)) == v
  {
    if n > 0 {
      ValueOfBytes(v / 256, n - 1);
      assert BytesOf(v, n)[1..] == BytesOf(v / 256, n - 1);
    }
  }

  lemma {:induction false} ValueBound(l: seq<Byte>)
    ensures Value(l) < Pow256(|l|)
  {
    if l != [] { ValueBound(l[1..]); }
  }

  /** Four and eight bytes written out. */
  lemma FourBytes(v: nat)
    ensures BytesOf(v, 4) == [v % 256, v / 0x100 % 256, v / 0x1_0000 % 256, v / 0x100_0000 % 256]
  {
    assert v / 0x100 / 256 == v / 0x1_0000 && v / 0x1_0000 / 256 == v / 0x100_0000;
    assert BytesOf(v / 0x1_0000, 2) == [v / 0x1_0000 % 256, v / 0x100_0000 % 256];
  }

  lemma EightBytes(v: nat)
    ensures BytesOf(v, 8) == BytesOf(v, 4) + BytesOf(v / 0x1_0000_0000, 4)
  {
    var a, b := v / 0x1_0000, v / 0x1_0000_0000;
    assert v / 256 / 256 == a && a / 256 / 256 == b;
    assert BytesOf(a, 6) == [a % 256, a / 256 % 256] + BytesOf(b, 4);
    assert BytesOf(v, 8) == [v % 256, v / 256 % 256] + BytesOf(a, 6);
    assert BytesOf(v, 4) == [v % 256, v / 256 % 256] + BytesOf(a, 2);
  }

  lemma Weights()
    ensures Pow256(1) == 0x100 && Pow256(4) == 0x1_0000_0000 && Pow256(8) == 0x1_0000_0000_0000_0000
  {
    assert Pow256(4) == 0x1_0000_0000;
  }
}
