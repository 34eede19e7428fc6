/** Facts about multiplication and division of integers that several components need. */
module IntMath {
  lemma SignOfProduct(t: int, d: int)
    requires t > 0
    ensures d >= 1 ==> t * d >= t
    ensures d <= -1 ==> t * d <= -t
  {
    if d >= 1 {
      assert t * (d - 1) >= 0;
    } else if d <= -1 {
      assert t * (-1 - d) >= 0;
    }
  }

  /** A quotient is pinned down by the interval its multiple leaves. */
  lemma QuotientIs(a: int, q: int, unit: int)
    requires unit > 0 && q * unit <= a < q * unit + unit
    ensures a / unit == q && a % unit == a - q * unit
  {
    var p := a / unit;
    assert a == p * unit + a % unit;
    assert unit * (p - q) == p * unit - q * unit;
    SignOfProduct(unit, p - q);
  }

  lemma QuotientShift(x: int, d: int, unit: int)
    requires unit > 0
    ensures (x + d * unit) / unit == d + x / unit
  {
    var q := x / unit;
    assert x + d * unit == (q + d) * unit + x % unit;
    QuotientIs(x + d * unit, q + d, unit);
  }

  lemma QuotientMonotone(a: int, b: int, unit: int)
    requires unit > 0 && a <= b
    ensures a / unit <= b / unit
  {
    var p, q := a / unit, b / unit;
    assert a == p * unit + a % unit && b == q * unit + b % unit;
    assert unit * (p - q) == p * unit - q * unit;
    SignOfProduct(unit, p - q);
  }

  lemma RemainderShift(x: int, d: int, unit: int)
    requires unit > 0
    ensures (x + d * unit) % unit == x % unit
  {
    var q := x / unit;
    QuotientIs(x + d * unit, q + d, unit);
  }

  lemma QuotientOfQuotient(x: nat, a: nat, b: nat)
    requires a > 0 && b > 0
    ensures a * b > 0 && x / a / b == x / (a * b)
  {
    var q := x / a;
    var t, u := q / b, q % b;
    assert x == q * a + x % a && q == t * b + u;
    Regrouped(t, b, u, a);
    BelowProduct(u, b, a);
    QuotientIs(x, t, a * b);
  }

  lemma Regrouped(t: int, b: int, u: int, a: int)
    ensures (t * b + u) * a == t * (a * b) + u * a
  {}

  lemma BelowProduct(u: int, b: int, a: int)
    requires 0 <= u < b && a > 0
    ensures 0 <= u * a <= a * b - a && a * b > 0
  {
    var d := b - 1 - u;
    assert a * (u + 1 + d) == u * a + a + a * d;
    NotNegative(a, d);
    NotNegative(a, u);
  }

  lemma NotNegative(x: int, y: int)
    requires x >= 0 && y >= 0
    ensures x * y >= 0
  {
  }

  /** A factor may be reduced first. */
  lemma RemainderOfProduct(x: int, y: int, unit: int)
    requires unit > 0
    ensures (x % unit * y) % unit == (x * y) % unit
  {
    var q, r := x / unit, x % unit;
    assert x == q * unit + r;
    assert (q * unit + r) * y == r * y + q * y * unit;
    RemainderShift(r * y, q * y, unit);
  }

  function TwoTo(n: nat): (r: nat)
    ensures r > 0
  {
    if n == 0 then 1 else 2 * TwoTo(n - 1)
  }

  lemma {:induction false} TwoToSum(m: nat, n: nat)
    ensures TwoTo(m + n) == TwoTo(m) * TwoTo(n)
  {
    if m > 0 {
      TwoToSum(m - 1, n);
      Twice(TwoTo(m - 1), TwoTo(n));
    }
  }

  lemma Twice(x: nat, y: nat)
    ensures 2 * x * y == 2 * (x * y) == x * (2 * y)
  {}

  /** C division, which truncates toward zero. */
  function TruncDiv(a: int, b: int): int
    requires b > 0
  {
    if a >= 0 then a / b else -((-a) / b)
  }
}
