/** Facts about products and quotients that the linear solver does not find by itself. */
module Arith {

  lemma MulMono(a: int, b: int, m: nat)
    ensures a <= b ==> a * m <= b * m
  {}

  /** Division by m is determined by the multiple of m just below. */
  lemma QuotientIs(x: int, q: int, m: nat)
    requires m > 0 && q * m <= x < q * m + m
    ensures x / m == q
  {
    var d := x / m;
    assert d * m <= x < d * m + m;
    MulMono(d + 1, q, m);
    MulMono(q + 1, d, m);
  }

  lemma DivAdd(a: nat, b: nat, m: nat)
    requires m > 0
    ensures a / m + b / m <= (a + b) / m <= a / m + b / m + 1
  {
    var q, r := a / m + b / m, a % m + b % m;
    assert a + b == q * m + r;
    if r < m { QuotientIs(a + b, q, m); } else { QuotientIs(a + b, q + 1, m); }
  }

  /** The quotient rounded up is the quotient rounded down, or one more unless the division is exact. */
  lemma RoundUp(b: nat, m: nat)
    requires m > 0
    ensures (b + m - 1) / m == if b % m == 0 then b / m else b / m + 1
  {
    var q, r := b / m, b % m;
    assert b == q * m + r;
    if r == 0 { QuotientIs(b + m - 1, q, m); } else { QuotientIs(b + m - 1, q + 1, m); }
  }

  /** Adding b adds at most the quotient of b, rounded up. */
  lemma FloorAdd(a: nat, b: nat, m: nat)
    requires m > 0
    ensures a / m <= (a + b) / m <= a / m + (b + m - 1) / m
  {
    var q, r := b / m, b % m;
    assert b == q * m + r;
    RoundUp(b, m);
    DivAdd(a, b, m);
    if r == 0 {
      assert a + b == (a / m + q) * m + a % m;
      QuotientIs(a + b, a / m + q, m);
    }
  }
}
