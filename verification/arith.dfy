/** The few facts about products and quotients that the solver does not find by itself. */
module Arith {

  lemma MulStep(m: int, q: int, u: int)
    requires m > 0 && q < u
    ensures m * q + m <= m * u
  {
    assert m * (u - q - 1) >= 0;
    assert m * (u - q - 1) == m * u - m * q - m;
  }

  lemma DivMod(x: int, m: int)
    requires m > 0
    ensures x == m * (x / m) + x % m
  {}

  lemma DivUnique(x: int, m: int, u: int, y: int)
    requires m > 0 && x == m * u + y && 0 <= y < m
    ensures x / m == u && x % m == y
  {
    DivMod(x, m);
    var q, r := x / m, x % m;
    if u > q {
      MulStep(m, q, u);
    } else if u < q {
      MulStep(m, u, q);
    }
  }

  lemma Spread(a: int, b: int, c: int, m: int)
    ensures (a + b - c) * m == a * m + b * m - c * m
  {}

  lemma MulOrder(k: int, n: int, m: int)
    requires m > 0
    ensures k * m <= n * m <==> k <= n
  {
    if n < k {
      MulStep(m, n, k);
    } else if k < n {
      MulStep(m, k, n);
    }
  }
}
