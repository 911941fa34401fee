/** Facts about division and multiples, for divisors that are not literals. */
module Arith {

  lemma Scale(k: int, b: int)
    requires k >= 1 && b > 0
    ensures k * b >= b
  {
    if k > 1 { Scale(k - 1, b); assert k * b == (k - 1) * b + b; }
  }

  lemma QuotientUnique(b: int, q: int, r: int, p: int, s: int)
    requires b > 0 && 0 <= r < b && 0 <= s < b
    requires q * b + r == p * b + s
    ensures q == p && r == s
  {
    if q > p {
      Scale(q - p, b);
    } else if p > q {
      Scale(p - q, b);
    }
  }

  /** A quotient and remainder are determined by the division equation. */
  lemma Quotient(a: int, b: int, q: int, r: int)
    requires b > 0 && a == q * b + r && 0 <= r < b
    ensures a / b == q && a % b == r
  {
    QuotientUnique(b, a / b, a % b, q, r);
  }

  lemma MultipleDivides(a: int, k: int)
    requires a > 0
    ensures (k * a) % a == 0 && (k * a) / a == k
  {
    Quotient(k * a, a, k, 0);
  }

  lemma DividesSum(a: int, x: int, y: int)
    requires a > 0 && x % a == 0 && y % a == 0
    ensures (x + y) % a == 0 && (x - y) % a == 0
  {
    var p, q := x / a, y / a;
    assert x == p * a && y == q * a;
    SumOfMultiples(a, p, q);
  }

  lemma SumOfMultiples(a: int, p: int, q: int)
    requires a > 0
    ensures (p * a + q * a) % a == 0 && (p * a - q * a) % a == 0
  {
    Distribute(p, q, a);
    MultipleDivides(a, p + q);
    MultipleDivides(a, p - q);
  }

  lemma Distribute(p: int, q: int, a: int)
    ensures (p + q) * a == p * a + q * a && (p - q) * a == p * a - q * a
  {
  }

  lemma DividesThrough(a: int, b: int, x: int)
    requires a > 0 && b > 0 && b % a == 0 && x % b == 0
    ensures x % a == 0
  {
    var p, q := b / a, x / b;
    assert x == (q * p) * a by { assert x == q * b && b == p * a; }
    MultipleDivides(a, q * p);
  }

  /** Products keep the order of their left factors. */
  lemma Increasing(p: int, q: int, a: int)
    requires p < q && a > 0
    ensures p * a + a <= q * a
  {
    Distribute(q, p, a);
    Scale(q - p, a);
  }

  lemma RoundedUp(x: int, a: int)
    requires a > 0
    ensures x <= (x + a - 1) / a * a < x + a
    ensures ((x + a - 1) / a * a) % a == 0
  {
    MultipleDivides(a, (x + a - 1) / a);
  }

  lemma RoundedUpLeast(x: int, a: int, bound: int)
    requires a > 0 && bound % a == 0 && x <= bound
    ensures (x + a - 1) / a * a <= bound
  {
    var q, k := (x + a - 1) / a, bound / a;
    assert k * a == bound && q * a <= x + a - 1;
    if k < q { Increasing(k, q, a); }
  }
}
