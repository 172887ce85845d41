/** Products and quotients of natural numbers. */
module Arithmetic {
  lemma PositiveFactor(n: int, d: nat)
    requires n * d > 0
    ensures n > 0
  {
  }

  lemma ProductGrows(a: nat, e: nat, d: nat)
    requires e <= d
    ensures a * e <= a * d
  {
  }

  /** `q` is `n` over `d`, rounded down. */
  predicate IsQuotient(q: nat, n: nat, d: nat) {
    q * d <= n < (q + 1) * d
  }

  lemma QuotientIs(n: nat, d: nat)
    requires d > 0
    ensures IsQuotient(n / d, n, d)
  {
    assert n == (n / d) * d + n % d;
    assert (n / d + 1) * d == (n / d) * d + d;
  }

  /** Dividing more by less never gives less. */
  lemma QuotientGrows(x: nat, d: nat, y: nat, e: nat)
    requires x <= y && 0 < e <= d
    ensures x / d <= y / e
  {
    var a, b := x / d, y / e;
    assert a * d <= x < a * d + d && b * e <= y < b * e + e;
    ProductGrows(a, e, d);
    assert (b + 1 - a) * e == b * e + e - a * e;
    PositiveFactor(b + 1 - a, e);
  }
}
