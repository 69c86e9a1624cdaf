/** Facts about Euclidean division used to locate a step within its round. */
module Arith {

  lemma MulAtLeast(a: nat, n: nat)
    requires a >= 1
    ensures a * n >= n
  {
    if a > 1 {
      MulAtLeast(a - 1, n);
      assert a * n == (a - 1) * n + n;
    }
  }

  lemma MulSucc(a: nat, n: nat)
    ensures (a + 1) * n == a * n + n
  {
  }

  /** Quotient and remainder are determined by any decomposition x == q*n + r. */
  lemma DivModUnique(x: nat, n: nat, q: nat, r: nat)
    requires n > 0 && r < n && x == q * n + r
    ensures x / n == q && x % n == r
  {
    var q0, r0 := x / n, x % n;
    assert x == q0 * n + r0;
    if q0 < q {
      MulAtLeast(q - q0, n);
    } else if q0 > q {
      MulAtLeast(q0 - q, n);
    }
  }

  /** Below `m` whole blocks of `n`, the quotient is below `m`. */
  lemma DivBelow(k: nat, n: nat, m: nat)
    requires n > 0 && k < m * n
    ensures k / n < m
  {
    if k / n >= m {
      MulAtLeast(k / n - m + 1, n);
    }
  }

  /** An index inside the first block is its own remainder. */
  lemma ModBelow(j: nat, n: nat)
    requires j < n
    ensures j % n == j && j / n == 0
  {
    DivModUnique(j, n, 0, j);
  }

  lemma ModSelf(n: nat)
    requires n > 0
    ensures n % n == 0
  {
    DivModUnique(n, n, 1, 0);
  }
}
