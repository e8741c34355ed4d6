/** Exact versions of the Python arithmetic the bot uses: `round`, `math.ceil`,
    `**` and floor division `//`.  Floats are modelled as exact reals. */
module Numeric {

  /** Python's one-argument `round(x)`: the nearest integer, halves going to the even one. */
  function Round(x: real): (r: int)
    ensures x - 0.5 <= r as real <= x + 0.5
    ensures r as real == x - 0.5 || r as real == x + 0.5 ==> r % 2 == 0
  {
    var f := x.Floor;
    var d := x - f as real;
    if d < 0.5 then f
    else if d > 0.5 then f + 1
    else if f % 2 == 0 then f else f + 1
  }

  /** Rounding an integer gives it back. */
  lemma RoundOfInt(n: int)
    ensures Round(n as real) == n
  {
  }

  /** `round` never reverses an order (ties-to-even included). */
  lemma RoundMonotone(x: real, y: real)
    requires x <= y
    ensures Round(x) <= Round(y)
  {
  }

  /** A real between two integers rounds to an integer between them. */
  lemma RoundBetween(x: real, lo: int, hi: int)
    requires lo as real <= x <= hi as real
    ensures lo <= Round(x) <= hi
  {
    RoundMonotone(lo as real, x);
    RoundMonotone(x, hi as real);
    RoundOfInt(lo);
    RoundOfInt(hi);
  }

  /** A share between nothing and everything of a non-negative amount stays within it. */
  lemma ShareWithin(x: real, share: real)
    requires x >= 0.0 && 0.0 <= share <= 1.0
    ensures 0.0 <= x * share <= x
  {
    assert x - x * share == x * (1.0 - share);
  }

  /** A share between nothing and everything of a non-negative integer rounds to an
      integer between zero and it. */
  lemma RoundShare(a: int, share: real)
    requires a >= 0 && 0.0 <= share <= 1.0
    ensures 0 <= Round(a as real * share) <= a
  {
    ShareWithin(a as real, share);
    RoundBetween(a as real * share, 0, a);
  }

  /** `round(n / d)` on integers: the nearest integer to the exact quotient, halves
      going to the even one. */
  function RoundRatio(n: int, d: int): int
    requires d != 0
    decreases if d < 0 then 1 else 0
  {
    if d < 0 then RoundRatio(-n, -d)
    else
      var q, m := n / d, n % d;
      if 2 * m < d then q
      else if 2 * m > d then q + 1
      else if q % 2 == 0 then q
      else q + 1
  }

  /** `RoundRatio(n, d)` is an integer nearest to `n / d`: twice its distance from the
      quotient, measured in units of `1 / |d|`, is at most `|d|`, and at a tie it is even. */
  lemma RoundRatioNearest(n: int, d: int)
    requires d != 0
    ensures var r := RoundRatio(n, d);
      var gap := 2 * (n - r * d);
      var size := if d < 0 then -d else d;
      -size <= gap <= size && (gap == size || gap == -size ==> r % 2 == 0)
    decreases if d < 0 then 1 else 0
  {
    if d < 0 {
      RoundRatioNearest(-n, -d);
      var r := RoundRatio(-n, -d);
      assert r * (-d) == -(r * d);
    } else {
      NearestByRemainder(n, d, n / d, n % d);
    }
  }

  /** The positive case of `RoundRatioNearest`, on the quotient and remainder. */
  lemma NearestByRemainder(n: int, d: int, q: int, m: int)
    requires d > 0 && n == q * d + m && 0 <= m < d
    ensures var r := if 2 * m < d then q else if 2 * m > d then q + 1 else if q % 2 == 0 then q else q + 1;
      -d <= 2 * (n - r * d) <= d && (2 * (n - r * d) == d || 2 * (n - r * d) == -d ==> r % 2 == 0)
  {
    assert (q + 1) * d == q * d + d;
  }

  /** Halving: the result never leaves `[0, n]` for a natural `n`, and is exact for an
      even one. */
  lemma RoundRatioSpec(n: int, d: int)
    requires d == 2
    ensures n >= 0 ==> 0 <= RoundRatio(n, d) <= n
    ensures n % 2 == 0 ==> RoundRatio(n, d) == n / 2
  {
  }

  /** `10 ** n`. */
  function Pow10(n: nat): nat
  {
    if n == 0 then 1 else 10 * Pow10(n - 1)
  }

  /** `math.ceil(x)`: the least integer not below `x`. */
  function Ceil(x: real): (r: int)
    ensures x <= r as real < x + 1.0
  {
    if x.Floor as real == x then x.Floor else x.Floor + 1
  }

  /** `b ** n` for a natural exponent. */
  function Pow(b: real, n: nat): real
  {
    if n == 0 then 1.0 else b * Pow(b, n - 1)
  }

  lemma {:induction false} PowPositive(b: real, n: nat)
    requires b > 0.0
    ensures Pow(b, n) > 0.0
  {
    if n > 0 {
      PowPositive(b, n - 1);
    }
  }

  lemma {:induction false} PowMonotone(b: real, m: nat, n: nat)
    requires b >= 1.0 && m <= n
    ensures 1.0 <= Pow(b, m) <= Pow(b, n)
    decreases n
  {
    if n > m {
      PowMonotone(b, m, n - 1);
      assert Pow(b, n) == b * Pow(b, n - 1);
    } else if m > 0 {
      PowMonotone(b, m - 1, m - 1);
    }
  }

  /** Python's `a // b`: the floor of the exact quotient (Dafny's `/` is Euclidean). */
  function FloorDiv(a: int, b: int): (q: int)
    requires b != 0
    ensures b > 0 ==> b * q <= a < b * q + b
    ensures b < 0 ==> b * q + b < a <= b * q
  {
    if b > 0 then a / b else (-a) / (-b)
  }

  /** For a positive divisor, `k <= a // b` exactly when `k * b <= a`. */
  lemma FloorDivBound(a: int, b: int, k: int)
    requires b > 0
    ensures k <= FloorDiv(a, b) <==> k * b <= a
  {
    var q := FloorDiv(a, b);
    if k <= q {
      assert k * b <= q * b;
    } else {
      assert (q + 1) * b <= k * b;
    }
  }
}
