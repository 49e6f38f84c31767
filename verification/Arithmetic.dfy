/** Quotients, remainders and powers of two. */
module Arithmetic {

  /** An integer written as `q * d + r` has quotient `q` and remainder `r`. */
  lemma QuotientAndRemainder(q: int, d: nat, r: nat)
    requires r < d
    ensures (q * d + r) / d == q && (q * d + r) % d == r
  {
    var n := q * d + r;
    var e := n / d - q;
    assert e * d == r - n % d;
    SmallMultiple(e, d);
  }

  lemma SmallMultiple(e: int, d: int)
    requires -d < e * d < d
    ensures e == 0
  {
  }

  lemma {:induction false} ProductGrows(a: nat, b: nat, d: nat)
    requires a <= b
    ensures a * d <= b * d
  {
    if a == b {
    } else {
      ProductGrows(a, b - 1, d);
      OneMoreTime(b - 1, d);
    }
  }

  lemma OneMoreTime(a: int, d: int)
    ensures (a + 1) * d == a * d + d
  {
  }

  // ---------------------------------------------------------------- powers of two

  function Pow2(k: nat): (p: nat)
    ensures p > 0
  {
    if k == 0 then 1 else 2 * Pow2(k - 1)
  }

  lemma {:induction false} Pow2Grows(j: nat, k: nat)
    requires j < k
    ensures 2 * Pow2(j) <= Pow2(k)
  {
    if j == k - 1 {
    } else {
      Pow2Grows(j, k - 1);
    }
  }

  lemma {:induction false} Pow2Sum(a: nat, b: nat)
    ensures Pow2(a + b) == Pow2(a) * Pow2(b)
  {
    if b == 0 {
    } else {
      Pow2Sum(a, b - 1);
      var p, q := Pow2(a), Pow2(b - 1);
      assert 2 * (p * q) == p * (2 * q);
    }
  }
}
