/** Facts about products, quotients and remainders that the solver does not
    find by itself. */
module Arithmetic {

  lemma MulMono(a: int, b: int, c: int)
    requires a <= b && 0 <= c
    ensures a * c <= b * c
  {
  }

  lemma MulAssoc(a: int, b: int, c: int)
    ensures a * (b * c) == (a * b) * c
  {
  }

  /** A quotient and a remainder are determined by their equation. */
  lemma DivModUnique(x: int, d: int, q: int, r: int)
    requires 0 <= r < d && x == d * q + r
    ensures x / d == q && x % d == r
  {
    var q', r' := x / d, x % d;
    assert x == d * q' + r';
    assert d * (q - q') == r' - r;
    if q - q' >= 1 {
      MulMono(1, q - q', d);
    } else if q - q' <= -1 {
      MulMono(q - q', -1, d);
    }
  }

  lemma RemainderStep(n: nat, d: nat)
    requires d > 0 && (n + 1) % d != 0
    ensures (n + 1) % d == n % d + 1
  {
    var q, m := n / d, n % d;
    if m + 1 == d {
      assert d * (q + 1) == d * q + d;
      DivModUnique(n + 1, d, q + 1, 0);
    } else {
      DivModUnique(n + 1, d, q, m + 1);
    }
  }
}
