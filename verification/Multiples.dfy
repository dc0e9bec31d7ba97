/**
 Quotients and remainders of multiples.
 */
module Multiples {

  lemma LessByProduct(a: int, b: int, d: nat)
    requires a * d < b * d
    ensures a < b
  {
    assert (b - a) * d > 0;
  }

  lemma QuotientIs(q: nat, d: nat, r: nat)
    requires r < d
    ensures (q * d + r) / d == q && (q * d + r) % d == r
  {
    var a := q * d + r;
    var p := a / d;
    assert a == p * d + a % d;
    assert (p + 1) * d == p * d + d && (q + 1) * d == q * d + d;
    LessByProduct(p, q + 1, d);
    LessByProduct(q, p + 1, d);
  }

  lemma QuotientAtLeast(a: nat, d: nat, q: nat)
    requires d > 0 && a >= q * d
    ensures a / d >= q
  {
    var p := a / d;
    assert a == p * d + a % d;
    assert (p + 1) * d == p * d + d;
    LessByProduct(q, p + 1, d);
  }

  lemma ProductIsMonotone(a: int, b: int, d: nat)
    requires a <= b
    ensures a * d <= b * d
  {
    assert (b - a) * d >= 0;
    assert (b - a) * d == b * d - a * d;
  }

  lemma EvenTimes(n: int, a: int)
    requires a == 2 * n
    ensures a % 2 == 0
  {
  }

  lemma EightTimes(a: int, n: int)
    requires a % 8 == 0 && n == a / 8
    ensures a == 8 * n
  {
  }

  lemma HalfOf(a: int, n: int)
    requires n == a / 2
    ensures a - a % 2 == 2 * n && 2 * n <= a <= 2 * n + 1
  {
  }
}
