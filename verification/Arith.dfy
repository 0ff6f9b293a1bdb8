/** Division facts the solver does not find by itself. */
module Arith {
  lemma {:induction false} MulStep(m: nat, a: nat, b: nat)
    requires a < b
    ensures m * b >= m * a + m
    decreases b
  {
    if a + 1 < b {
      MulStep(m, a, b - 1);
    }
    assert m * b == m * (b - 1) + m;
  }

  /** Quotient and remainder are unique. */
  lemma DivModUnique(x: nat, m: nat, q: nat, r: nat)
    requires m > 0 && r < m && x == m * q + r
    ensures x / m == q && x % m == r
  {
    var p := x / m;
    assert x == m * p + x % m;
    if q < p {
      MulStep(m, q, p);
    } else if p < q {
      MulStep(m, p, q);
    }
  }

  /** Dividing twice is dividing by the product. */
  lemma DivDiv(n: nat, a: nat, m: nat, p: nat)
    requires a > 0 && m > 0 && p == a * m
    ensures p > 0 && (n / a) / m == n / p
  {
    var x, r := Parts(n, a);
    var q, s := Parts(x, m);
    ProductParts(n, a, m, p, x, r, q, s);
  }

  lemma Parts(n: nat, a: nat) returns (q: nat, r: nat)
    requires a > 0
    ensures n == a * q + r && r < a && q == n / a
  {
    q, r := n / a, n % a;
  }

  lemma ProductParts(n: nat, a: nat, m: nat, p: nat, x: nat, r: nat, q: nat, s: nat)
    requires p == a * m && n == a * x + r && r < a && x == m * q + s && s < m
    ensures p > 0 && n / p == q
  {
    MulStep(a, s, m);
    Spread(a, m, q, s, x);
    DivModUnique(n, p, q, a * s + r);
  }

  lemma Spread(a: nat, m: nat, q: nat, s: nat, x: nat)
    requires x == m * q + s
    ensures a * x == a * m * q + a * s
  {
    assert a * (m * q) == a * m * q;
  }

  lemma MultipleMod(q: nat, m: nat)
    requires m > 0
    ensures (m * q) % m == 0
  {
    assert m * q >= 0;
    DivModUnique(m * q, m, q, 0);
  }
}
