/** Facts about natural-number division and real ratios that the solver does not find unaided. */
module Arith {

  lemma MulMonotone(a: nat, b: nat, c: nat)
    requires a <= b
    ensures a * c <= b * c
  {
    assert b * c == a * c + (b - a) * c;
  }

  /** Division has one quotient: n == q * d + r with r < d forces n / d == q. */
  lemma DivUnique(n: nat, d: nat, q: nat, r: nat)
    requires d > 0 && n == q * d + r && r < d
    ensures n / d == q
  {
    var q', r' := n / d, n % d;
    assert n == q' * d + r';
    if q' < q {
      MulMonotone(q' + 1, q, d);
    } else if q < q' {
      MulMonotone(q + 1, q', d);
    }
  }

  /** n < m * d gives n / d < m. */
  lemma DivBelow(n: nat, d: nat, m: nat)
    requires d > 0 && n < m * d
    ensures n / d < m
  {
    var q := n / d;
    assert n == q * d + n % d;
    if q >= m {
      MulMonotone(m, q, d);
    }
  }

  /** m * d <= n gives m <= n / d. */
  lemma DivAtLeast(n: nat, d: nat, m: nat)
    requires d > 0 && m * d <= n
    ensures m <= n / d
  {
    var q := n / d;
    assert n == q * d + n % d;
    if q < m {
      MulMonotone(q + 1, m, d);
    }
  }

  /** a < b / c exactly when a * c < b, for positive c. */
  lemma BelowRatio(a: real, b: real, c: real)
    requires c > 0.0
    ensures a < b / c <==> a * c < b
  {
    assert (b / c) * c == b;
    if a < b / c {
      assert a * c < (b / c) * c;
    } else {
      assert a * c >= (b / c) * c;
    }
  }
}
