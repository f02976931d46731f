/** The few facts about products and quotients that the address proofs rest on. */
module Arithmetic {

  lemma Division(n: nat, base: nat)
    requires 0 < base
    ensures n == n / base * base + n % base
  {
  }

  /** Quotient and remainder are determined by the division equation. */
  lemma DivModUnique(n: nat, base: nat, q: nat, r: nat)
    requires 0 < base && r < base && n == q * base + r
    ensures n / base == q && n % base == r
  {
    var k := n / base - q;
    assert k * base == r - n % base;
  }

  lemma ProductOrder(q: nat, e: nat, d: nat)
    requires q < e
    ensures q * d + d <= e * d
  {
    var k := e - q - 1;
    assert e * d == q * d + d + k * d;
  }

  lemma SameMultiple(q: nat, r: nat, d: nat)
    requires d > 0
    ensures q * d == r * d <==> q == r
  {
    if q < r {
      ProductOrder(q, r, d);
    } else if r < q {
      ProductOrder(r, q, d);
    }
  }

  /** Halving first does not change a quotient by an even number, nor lose the remainder. */
  lemma DivideInTwoSteps(a: nat, d: nat)
    requires d > 0
    ensures a / 2 / d == a / (2 * d)
    ensures a % (2 * d) == 2 * (a / 2 % d) + a % 2
  {
    var q, r := a / 2 / d, a / 2 % d;
    assert a / 2 == q * d + r;
    assert q * (2 * d) == 2 * (q * d);
    DivModUnique(a, 2 * d, q, 2 * r + a % 2);
  }
}
