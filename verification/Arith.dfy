/** Products and floor quotients of natural numbers. */
module Arith {

  /** `n * x / d`, the shape of every proportional share computed by the programs. */
  function MulDiv(n: nat, x: nat, d: nat): nat
    requires 0 < d
  {
    n * x / d
  }

  lemma MulMonotone(a: nat, b: nat, x: nat, y: nat)
    requires a <= b && x <= y
    ensures a * x <= b * y
  {
    assert a * x <= b * x;
    assert b * x <= b * y;
  }

  lemma MulStrict(a: int, b: int, x: nat)
    requires a < b && 0 < x
    ensures a * x < b * x
  {
  }

  lemma MulOrdered(a: int, b: int, x: nat)
    requires a <= b
    ensures a * x <= b * x
  {
  }

  lemma MulWithin(x: nat, a: int, b: int, limit: int)
    requires a <= b && x * b <= limit
    ensures x * a <= limit
  {
    MulOrdered(a, b, x);
  }

  lemma Cancel(a: int, b: int, x: nat)
    requires a * x <= b * x && 0 < x
    ensures a <= b
  {
    if b < a {
      MulStrict(b, a, x);
    }
  }

  lemma CancelStrict(a: int, b: int, x: nat)
    requires a * x < b * x && 0 < x
    ensures a < b
  {
    if b <= a {
      MulOrdered(b, a, x);
    }
  }

  /** A product of three factors does not depend on their order. */
  lemma Regroup(a: int, b: int, c: int)
    ensures a * b * c == a * c * b == b * c * a
    ensures a * (b * c) == a * b * c
  {
  }

  lemma Distribute(a: int, b: int, x: int)
    ensures (a + b) * x == a * x + b * x
  {
  }

  lemma DivisionStep(n: nat, d: nat)
    requires 0 < d
    ensures n / d * d <= n < n / d * d + d
    ensures n == n / d * d + n % d && n % d < d
  {
  }

  lemma QuotientAtLeast(n: nat, d: nat, k: nat)
    requires 0 < d && k * d <= n
    ensures k <= n / d
  {
    DivisionStep(n, d);
    CancelStrict(k, n / d + 1, d);
  }

  lemma QuotientAtMost(n: nat, d: nat, k: nat)
    requires 0 < d && n < k * d + d
    ensures n / d <= k
  {
    DivisionStep(n, d);
    CancelStrict(n / d, k + 1, d);
  }

  lemma QuotientIs(n: nat, d: nat, k: nat)
    requires 0 < d && k * d <= n < k * d + d
    ensures n / d == k
  {
    QuotientAtLeast(n, d, k);
    QuotientAtMost(n, d, k);
  }

  lemma QuotientMonotone(n: nat, m: nat, d: nat)
    requires 0 < d && n <= m
    ensures n / d <= m / d
  {
    DivisionStep(n, d);
    QuotientAtLeast(m, d, n / d);
  }

  /** A smaller divisor never gives a smaller quotient. */
  lemma QuotientAntitone(n: nat, d: nat, e: nat)
    requires 0 < d <= e
    ensures n / e <= n / d
  {
    DivisionStep(n, e);
    MulMonotone(n / e, n / e, d, e);
    QuotientAtLeast(n, d, n / e);
  }

  lemma QuotientOfSum(n: nat, m: nat, d: nat)
    requires 0 < d
    ensures n / d + m / d <= (n + m) / d <= n / d + m / d + 1
  {
    DivisionStep(n, d);
    DivisionStep(m, d);
    SumOfFloors(n, m, d, n / d, m / d);
  }

  lemma SumOfFloors(n: nat, m: nat, d: nat, a: nat, b: nat)
    requires 0 < d && a * d <= n < a * d + d && b * d <= m < b * d + d
    ensures a + b <= (n + m) / d <= a + b + 1
  {
    Distribute(a, b, d);
    Distribute(a + b, 1, d);
    QuotientAtLeast(n + m, d, a + b);
    QuotientAtMost(n + m, d, a + b + 1);
  }

  lemma MulDivBounds(n: nat, x: nat, d: nat)
    requires 0 < d
    ensures MulDiv(n, x, d) * d <= n * x < MulDiv(n, x, d) * d + d
  {
    DivisionStep(n * x, d);
  }

  lemma MulDivMonotone(n: nat, m: nat, x: nat, y: nat, d: nat)
    requires 0 < d && n <= m && x <= y
    ensures MulDiv(n, x, d) <= MulDiv(m, y, d)
  {
    MulMonotone(n, m, x, y);
    QuotientMonotone(n * x, m * y, d);
  }

  /** A share `n / d` of at most one never exceeds the whole. */
  lemma MulDivAtMost(n: nat, x: nat, d: nat)
    requires 0 < d && n <= d
    ensures MulDiv(n, x, d) <= x
  {
    MulMonotone(n, d, x, x);
    QuotientAtMost(n * x, d, x);
  }
}
