/** Facts about division that the address and ring-index computations rest on. */
module Arithmetic {
  lemma Distribute(d: nat, x: nat, y: nat)
    ensures d * (x + y) == d * x + d * y
  {}

  lemma MulStrictlyMonotone(d: nat, a: nat, b: nat)
    requires a < b
    ensures d * a + d <= d * b
  {
    Distribute(d, a + 1, b - a - 1);
    Distribute(d, a, 1);
  }

  lemma DivUnique(n: nat, d: nat, k: nat, r: nat)
    requires r < d && n == d * k + r
    ensures n / d == k && n % d == r
  {
    var q := n / d;
    assert n == d * q + n % d;
    if q > k {
      MulStrictlyMonotone(d, k, q);
    } else if q < k {
      MulStrictlyMonotone(d, q, k);
    }
  }

  /** Whole multiples of d come out of a division by d and vanish in the remainder. */
  lemma DivPlusMultiple(k: nat, x: nat, d: nat)
    requires d > 0
    ensures (d * k + x) / d == k + x / d && (d * k + x) % d == x % d
  {
    assert x == d * (x / d) + x % d;
    assert d * k + x == d * (k + x / d) + x % d;
    DivUnique(d * k + x, d, k + x / d, x % d);
  }

  predicate Divides(n: nat, m: nat) { n > 0 && m % n == 0 }

  /** A counter that wraps at m keeps its remainder by every divisor of m. */
  lemma WrapKeepsRemainder(x: nat, m: nat, n: nat)
    requires m > 0 && Divides(n, m)
    ensures x % m % n == x % n
  {
    calc {
      x;
      m * (x / m) + x % m;
      { assert m == n * (m / n); }
      n * (m / n) * (x / m) + x % m;
      n * (m / n * (x / m)) + x % m;
    }
    DivPlusMultiple(m / n * (x / m), x % m, n);
  }

  /** Numbers less than n apart have different remainders. */
  lemma CloseRemaindersDiffer(x: nat, y: nat, n: nat)
    requires x < y < x + n
    ensures x % n != y % n
  {
    var (d, q, r) := (y - x, x / n, x % n);
    assert x == n * q + r;
    if r + d < n {
      DivUnique(y, n, q, r + d);
    } else {
      Distribute(n, q, 1);
      DivUnique(y, n, q + 1, r + d - n);
    }
  }
}
