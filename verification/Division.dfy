/** Quotients and remainders by a variable divisor. */
module Division {

  lemma AtLeastOnce(d: int, n: nat)
    requires d >= 1
    ensures d * n >= n
  {}

  lemma Unique(x: nat, n: nat, quotient: nat, remainder: nat)
    requires n > 0 && remainder < n && x == quotient * n + remainder
    ensures x / n == quotient && x % n == remainder
  {
    var d := x / n - quotient;
    assert d * n == remainder - x % n;
    assert -d * n == -(d * n);
    if d >= 1 {
      AtLeastOnce(d, n);
    } else if d <= -1 {
      AtLeastOnce(-d, n);
    }
  }

  /** The numbers with one quotient are a run of n. */
  lemma QuotientIs(x: nat, n: nat, quotient: nat)
    requires n > 0
    ensures x / n == quotient <==> quotient * n <= x < quotient * n + n
  {
    if quotient * n <= x < quotient * n + n {
      Unique(x, n, quotient, x - quotient * n);
    } else {
      assert x == x / n * n + x % n;
    }
  }

  lemma QuotientBelow(x: nat, n: nat, m: nat)
    requires n > 0 && x < m * n
    ensures x / n < m
  {
    var d := x / n - m;
    assert x == x / n * n + x % n;
    assert (m + d) * n == m * n + d * n;
    if d >= 1 {
      AtLeastOnce(d, n);
    }
  }

  lemma QuotientMonotone(x: nat, y: nat, n: nat)
    requires n > 0 && x / n < y / n
    ensures x < y
  {
    var d := y / n - x / n;
    AtLeastOnce(d, n);
    assert y / n * n == x / n * n + d * n;
  }
}
