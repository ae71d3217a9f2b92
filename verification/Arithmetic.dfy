/** Quotients and remainders of products, which the other modules share. */
module Arithmetic {

  lemma MultipleIsFar(d: nat, e: int)
    ensures e >= 1 ==> d * e >= d
    ensures e <= -1 ==> d * e + d <= 0
  {
  }

  /** The quotient and the remainder of a division are the only ones. */
  lemma DivisionIs(n: nat, d: nat, q: nat, r: nat)
    requires 0 < d && n == d * q + r && r < d
    ensures n / d == q && n % d == r
  {
    var e := n / d - q;
    assert n == d * (n / d) + n % d;
    assert d * e == d * (n / d) - d * q == r - n % d;
    MultipleIsFar(d, e);
  }

  lemma MultipleIsDivisible(d: nat, k: nat)
    requires d > 0
    ensures (d * k) % d == 0
  {
    DivisionIs(d * k, d, k, 0);
  }

  /** Dividing by 2 and then by m is dividing by 2 * m. */
  lemma DivideByDouble(n: nat, m: nat)
    requires m > 0
    ensures n / (2 * m) == n / 2 / m
  {
    var q, r := n / 2 / m, n / 2 % m;
    assert n / 2 == m * q + r && n == 2 * (n / 2) + n % 2;
    assert n == 2 * m * q + (2 * r + n % 2);
    DivisionIs(n, 2 * m, q, 2 * r + n % 2);
  }
}
