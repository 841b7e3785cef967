/** Division. */
module Arithmetic {

  lemma {:induction false} MulLower(x: int, p: int)
    requires x >= 1 && p >= 1
    ensures x * p >= p
    decreases x
  {
    if x > 1 {
      MulLower(x - 1, p);
      assert x * p == (x - 1) * p + p;
    }
  }

  /** Quotient and remainder are unique. */
  lemma {:induction false} ModIs(x: int, q: int, p: int, r: int)
    requires 0 <= r < p && x == q * p + r
    ensures x / p == q && x % p == r
  {
    var a, b := x / p, x % p;
    assert x == a * p + b && 0 <= b < p;
    assert (a - q) * p == a * p - q * p == r - b;
    assert (q - a) * p == q * p - a * p == b - r;
    if a > q {
      MulLower(a - q, p);
    } else if a < q {
      MulLower(q - a, p);
    }
  }
}
