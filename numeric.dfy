/** Exact integer versions of the Python numeric operations the rating engine
    relies on: max/min, abs, round (ties to even), math.ceil of a quotient and
    int() of a quotient (truncation toward zero). */
module Numeric {

  function Max(a: int, b: int): (r: int)
    ensures r >= a && r >= b
    ensures r == a || r == b
  {
    if a >= b then a else b
  }

  function Min(a: int, b: int): (r: int)
    ensures r <= a && r <= b
    ensures r == a || r == b
  {
    if a <= b then a else b
  }

  function Abs(x: int): (r: nat)
    ensures r == x || r == -x
  {
    if x >= 0 then x else -x
  }

  /** Python's round(n / d) for an exact quotient: the nearest integer, and
      the even one of the two when n / d lies exactly halfway. */
  function RoundHalfEven(n: int, d: int): (r: int)
    requires d > 0
    ensures -d <= 2 * (n - r * d) <= d
    ensures (2 * (n - r * d) == d || 2 * (n - r * d) == -d) ==> r % 2 == 0
  {
    var q := n / d;
    var rem := n % d;
    QuotientFacts(n, d);
    if 2 * rem < d then q
    else if 2 * rem > d then q + 1
    else if q % 2 == 0 then q
    else q + 1
  }

  lemma QuotientFacts(n: int, d: int)
    requires d > 0
    ensures n == (n / d) * d + n % d && 0 <= n % d < d
    ensures (n / d + 1) * d == (n / d) * d + d
  {
  }

  /** Scaling numerator and denominator by two does not change the rounding. */
  lemma RoundHalfEvenDouble(n: int)
    ensures RoundHalfEven(2 * n, 8) == RoundHalfEven(n, 4)
  {
    assert (2 * n) / 8 == n / 4 && (2 * n) % 8 == 2 * (n % 4);
  }

  /** Python's math.ceil(a / b) for b > 0: the least r with a <= b * r. */
  function CeilDiv(a: int, b: int): int
    requires b > 0
  {
    -((-a) / b)
  }

  /** The ceiling is characterised by b * r - b < a <= b * r. Kept out of
      CeilDiv's own contract so that the nonlinear bound is only in scope
      where a proof asks for it. */
  lemma CeilDivBounds(a: int, b: int)
    requires b > 0
    ensures b * CeilDiv(a, b) - b < a <= b * CeilDiv(a, b)
  {
    var q := (-a) / b;
    assert -a == q * b + (-a) % b;
  }

  lemma CeilUnique(a: int, b: int, r: int)
    requires b > 0
    requires b * r - b < a <= b * r
    ensures CeilDiv(a, b) == r
  {
    var r0 := CeilDiv(a, b);
    CeilDivBounds(a, b);
    assert b * (r0 - 1) == b * r0 - b;
    assert b * (r - 1) == b * r - b;
    CancelLt(r0 - 1, r, b);
    CancelLt(r - 1, r0, b);
  }

  /** Python's int(a / b) for b > 0: the quotient truncated toward zero. */
  function TruncDiv(a: int, b: int): (r: int)
    requires b > 0
    ensures a >= 0 ==> 0 <= b * r <= a < b * r + b
    ensures a < 0 ==> b * r - b < a <= b * r <= 0
  {
    if a >= 0 then
      FloorBounds(a, b);
      a / b
    else
      FloorBounds(-a, b);
      -((-a) / b)
  }

  lemma FloorBounds(a: int, b: int)
    requires a >= 0 && b > 0
    ensures 0 <= b * (a / b) <= a < b * (a / b) + b
  {
    assert a == (a / b) * b + a % b;
    MulLe(0, a / b, b);
  }

  /** Truncation toward zero is odd, unlike floor division. */
  lemma TruncDivNeg(a: int, b: int)
    requires b > 0
    ensures TruncDiv(-a, b) == -TruncDiv(a, b)
  {
  }

  /** A quotient that is exact is not truncated. */
  lemma TruncDivExact(k: int, b: int)
    requires b > 0
    ensures TruncDiv(k * b, b) == k
  {
    var r := TruncDiv(k * b, b);
    assert b * k == k * b;
    assert b * (r - 1) == b * r - b;
    assert b * (k - 1) == b * k - b;
    if k >= 0 {
      CancelLt(k - 1, r, b);
      CancelLe(r, k, b);
    } else {
      CancelLt(r - 1, k, b);
      CancelLe(k, r, b);
    }
  }

  /** A multiple of k leaves no remainder. */
  lemma MultipleMod(x: int, k: int)
    requires k > 0
    ensures (x * k) % k == 0
  {
    var q, m := (x * k) / k, (x * k) % k;
    assert x * k == q * k + m && 0 <= m < k;
    assert k * (x - q) == m;
    CancelLt(x - q, 1, k);
    CancelLe(0, x - q, k);
  }

  lemma MulLe(x: int, y: int, k: int)
    requires x <= y && k >= 0
    ensures k * x <= k * y
  {
    assert k * y - k * x == k * (y - x);
  }

  /** Cancelling a positive factor keeps an inequality. */
  lemma CancelLe(x: int, y: int, k: int)
    requires k > 0
    requires k * x <= k * y
    ensures x <= y
  {
    if x > y {
      assert k * (y + 1) == k * y + k;
      MulLe(y + 1, x, k);
    }
  }

  lemma CancelLt(x: int, y: int, k: int)
    requires k > 0
    requires k * x < k * y
    ensures x < y
  {
    if x >= y {
      MulLe(y, x, k);
    }
  }
}
