/** Facts about integer products and quotients. */
module Integers {
  lemma NoSmallMultiple(k: int, n: int, d: int)
    requires n > 0 && k * n == d && -n < d < n
    ensures k == 0
  {
  }

  /** Quotient and remainder are unique. */
  lemma DivModUnique(x: int, n: int, q: int, r: int)
    requires n > 0 && 0 <= r < n && x == q * n + r
    ensures x / n == q && x % n == r
  {
    var q', r' := x / n, x % n;
    assert q' * n + r' == x;
    assert (q' - q) * n == r - r';
    NoSmallMultiple(q' - q, n, r - r');
  }

  lemma ScaleMonotone(p: int, q: int, n: int)
    requires p <= q && n > 0
    ensures p * n <= q * n
  {
  }
}
