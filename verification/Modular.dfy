/** Arithmetic of wrapping counters, ring slots and run lengths. */
module Modular {
  import opened Prelude

  /** The difference of two free-running 32-bit counters is the true one while it is in range. */
  lemma WrapDiff(a: nat, c: nat)
    requires 0 <= a - c < TWO32
    ensures Wrap32(Wrap32(a) - Wrap32(c)) == a - c
  {
  }

  lemma WrapNext(a: nat, d: nat)
    ensures Wrap32(Wrap32(a) + d) == Wrap32(a + d)
  {
  }

  lemma {:induction false} ModAddMul(r: nat, k: nat, n: nat)
    requires n > 0
    ensures (r + k * n) % n == r % n
  {
    if k > 0 {
      ModAddMul(r, k - 1, n);
      assert r + k * n == (r + (k - 1) * n) + n;
      ModAddOne(r + (k - 1) * n, n);
    }
  }

  lemma ModAddOne(x: nat, n: nat)
    requires n > 0
    ensures (x + n) % n == x % n
  {
    var q, r := x / n, x % n;
    assert x + n == (q + 1) * n + r;
    ModUnique(x + n, q + 1, r, n);
  }

  /** A non-zero multiple of n is at least n away from zero. */
  lemma MultipleInside(d: int, n: int)
    requires n > 0
    ensures d >= 1 ==> d * n >= n
    ensures d <= -1 ==> d * n <= -n
    ensures d == 0 ==> d * n == 0
  {
    if d >= 1 { assert (d - 1) * n >= 0; }
    if d <= -1 { assert (-d - 1) * n >= 0; }
  }

  /** Quotient and remainder are unique. */
  lemma ModUnique(x: nat, q: nat, r: nat, n: nat)
    requires n > 0 && x == q * n + r && r < n
    ensures x % n == r && x / n == q
  {
    DivMod(x, n);
    var q', r' := x / n, x % n;
    assert (q - q') * n == q * n - q' * n;
    MultipleInside(q - q', n);
  }

  lemma DivMod(x: nat, n: nat)
    requires n > 0
    ensures x == x / n * n + x % n && 0 <= x % n < n
  {
  }

  /** Two positions less than a ring apart have different slots. */
  lemma SlotsDiffer(n: nat, a: nat, b: nat)
    requires n > 0 && a < b < a + n
    ensures a % n != b % n
  {
    if a % n == b % n {
      DivMod(a, n);
      DivMod(b, n);
      var d := b / n - a / n;
      assert d * n == b / n * n - a / n * n;
      MultipleInside(d, n);
    }
  }

  lemma WrapTwice(x: int, d: int)
    ensures Wrap32(Wrap32(x) + d) == Wrap32(x + d)
  {
    var q := x / TWO32;
    assert x == q * TWO32 + Wrap32(x);
    var q' := (Wrap32(x) + d) / TWO32;
    assert x + d == (q + q') * TWO32 + Wrap32(Wrap32(x) + d);
    ModOf(x + d, q + q', Wrap32(Wrap32(x) + d));
  }

  lemma ModOf(x: int, q: int, r: int)
    requires x == q * TWO32 + r && 0 <= r < TWO32
    ensures Wrap32(x) == r
  {
  }

  // ---- products that bound runs ----

  lemma NatProduct(a: nat, b: nat)
    ensures a * b >= 0
  {
  }

  /** n windows of b are at least one. */
  lemma OnceOrMore(n: int, b: nat)
    requires n >= 1 && b >= 1
    ensures b * n >= b
  {
    NatProduct(b, n - 1);
    assert b * n == b * (n - 1) + b;
  }

  /** Fewer windows are shorter by a window. */
  lemma LessTimes(b: nat, n: int, m: int)
    requires 0 <= n < m
    ensures b * n <= b * m - b
  {
    NatProduct(b, m - 1 - n);
    assert b * m == b * (m - 1 - n) + b * n + b;
  }
}
