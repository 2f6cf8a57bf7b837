/** Facts about rounding division, kept apart so that no other proof reasons about `/` directly. */
module Quotients {
  lemma QuotientBounds(n: int, d: int)
    requires d > 0
    ensures n / d * d <= n < n / d * d + d
    ensures n >= 0 ==> n / d >= 0
  {
  }

  lemma QuotientOfProduct(x: nat, y: nat, d: int)
    requires d > 0
    ensures 0 <= x * y / d && x * y / d * d <= x * y < x * y / d * d + d
  {
    assert x * y >= 0;
    QuotientBounds(x * y, d);
  }

  lemma NonNegativeFactor(x: int, d: int)
    requires d > 0 && x * d > -d
    ensures x >= 0
  {
  }

  lemma SmallMultiple(x: int, d: int)
    requires d > 0 && -d < x * d < d
    ensures x == 0
  {
  }

  lemma QuotientIsUnique(n: int, d: int, q: int)
    requires d > 0 && q * d <= n < q * d + d
    ensures n / d == q
  {
    SmallMultiple(n / d - q, d);
  }

  lemma QuotientIsMonotone(m: int, n: int, d: int)
    requires d > 0 && m <= n
    ensures m / d <= n / d
  {
    QuotientBounds(m, d);
    QuotientBounds(n, d);
    var x, y := m / d, n / d;
    assert (y - x) * d == y * d - x * d;
    NonNegativeFactor(y - x, d);
  }

  lemma QuotientOfMultiple(k: int, d: int)
    requires d > 0
    ensures k * d / d == k
  {
    QuotientIsUnique(k * d, d, k);
  }

  lemma QuotientIsPositive(n: int, d: int)
    requires d > 0
    ensures n / d >= 1 <==> n >= d
  {
    QuotientBounds(n, d);
    if n >= d {
      QuotientIsMonotone(d, n, d);
      QuotientOfMultiple(1, d);
    }
  }

  lemma CancelFactor(a: int, b: int, s: int)
    requires s > 0 && a * s >= b * s
    ensures a >= b
  {
    assert (a - b) * s == a * s - b * s;
    NonNegativeFactor(a - b, s);
  }

  lemma ScaleInequality(a: int, b: int, s: int)
    requires s >= 0 && a >= b
    ensures a * s >= b * s && s * a >= s * b
  {
    assert (a - b) * s >= 0;
    assert (a - b) * s == a * s - b * s;
  }

  lemma Distribute(x: int, a: int, b: int, c: int)
    ensures x * (a + b - c) == x * a + x * b - x * c
    ensures (a + b - c) * x == a * x + b * x - c * x
  {
  }
}
