/** Facts about quotients that the solver does not find by itself. */
module Arithmetic {

  const TWO64 := 0x1_0000_0000_0000_0000
  const TWO256 := TWO64 * TWO64 * TWO64 * TWO64

  lemma Scaled(a: nat, b: nat, step: nat)
    requires a <= b
    ensures a * step <= b * step
  {
    assert (b - a) * step == b * step - a * step;
  }

  lemma NotBelow(a: nat, b: nat, step: nat)
    requires b * step < (a + 1) * step
    ensures b <= a
  {
    if b > a { Scaled(a + 1, b, step); }
  }

  lemma QuotientIs(x: nat, step: nat, q: nat)
    requires step > 0 && q * step <= x < (q + 1) * step
    ensures x / step == q
  {
    var p := x / step;
    assert p * step <= x < (p + 1) * step;
    NotBelow(p, q, step);
    NotBelow(q, p, step);
  }

  /** The least k with n <= k * step. */
  lemma CeilIs(n: nat, step: nat, k: nat)
    requires step > 0 && k > 0 && (k - 1) * step < n <= k * step
    ensures (n + step - 1) / step == k
  {
    QuotientIs(n + step - 1, step, k);
  }

  /** One step fewer is left. */
  lemma QuotientLess(p: nat, q: nat, step: nat)
    requires step > 0 && q + step <= p
    ensures q / step + 1 <= p / step
  {
    var a, b := q / step, p / step;
    assert a * step <= q && p < (b + 1) * step;
    assert (a + 1) * step == a * step + step;
    NotBelow(b, a + 1, step);
  }

  function Quotient(a: nat, b: nat): (q: nat)
    requires b > 0
    ensures q * b <= a < (q + 1) * b
  {
    a / b
  }

  function Remainder(a: nat, b: nat): (r: nat)
    requires b > 0
    ensures r < b && r == a - Quotient(a, b) * b
  {
    a % b
  }
}
