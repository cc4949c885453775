/**
 * The few JavaScript number operations the source relies on, written out
 * over exact reals and integers: `%` truncates toward zero (the remainder has
 * the sign of the dividend), `Math.round` rounds halves toward +infinity, and
 * `Math.max(lo, Math.min(hi, x))` clamps.
 */
module JsMath {

  /** `Math.trunc`: the integer part, toward zero. */
  function Trunc(x: real): (r: int)
    ensures x >= 0.0 ==> r as real <= x < r as real + 1.0
    ensures x < 0.0 ==> r as real - 1.0 < x <= r as real
  {
    if x >= 0.0 then x.Floor else -((-x).Floor)
  }

  lemma MulLeft(x: real, y: real, n: real)
    requires n > 0.0 && x <= y
    ensures x * n <= y * n
  {
  }

  lemma MulLeftStrict(x: real, y: real, n: real)
    requires n > 0.0 && x < y
    ensures x * n < y * n
  {
  }

  /** The quotient JavaScript's `a % n` subtracts: `a / n` truncated toward zero. */
  function RealQuot(a: real, n: real): int
    requires n > 0.0
  {
    Trunc(a / n)
  }

  /** JavaScript `a % n` on numbers, for a positive divisor: `a` minus a whole multiple of `n`. */
  function RealRem(a: real, n: real): (r: real)
    requires n > 0.0
    ensures r == a - RealQuot(a, n) as real * n
    ensures a >= 0.0 ==> 0.0 <= r < n
    ensures a < 0.0 ==> -n < r <= 0.0
  {
    RemBounds(a, n);
    a - RealQuot(a, n) as real * n
  }

  lemma RemBounds(a: real, n: real)
    requires n > 0.0
    ensures a >= 0.0 ==> 0.0 <= a - RealQuot(a, n) as real * n < n
    ensures a < 0.0 ==> -n < a - RealQuot(a, n) as real * n <= 0.0
  {
    var f := a / n;
    var q := RealQuot(a, n) as real;
    assert f * n == a;
    if a >= 0.0 {
      assert q <= f < q + 1.0;
      RemStep(a, n, f, q, q + 1.0);
    } else {
      assert q - 1.0 < f <= q;
      RemStep(a, n, f, q - 1.0, q);
    }
  }

  lemma RemStep(a: real, n: real, f: real, lo: real, hi: real)
    requires n > 0.0 && f * n == a && lo <= f && f <= hi
    ensures lo * n <= a <= hi * n
    ensures lo < f ==> lo * n < a
    ensures f < hi ==> a < hi * n
  {
    MulLeft(lo, f, n);
    MulLeft(f, hi, n);
    if lo < f { MulLeftStrict(lo, f, n); }
    if f < hi { MulLeftStrict(f, hi, n); }
  }

  /**
   * JavaScript `a % n` on integers, for a positive divisor: `a` minus a whole
   * multiple of `n`, carrying the sign of `a` (the three clauses fix `r`, see
   * IntRemUnique).
   */
  function IntRem(a: int, n: int): (r: int)
    requires n > 0
    ensures (a - r) % n == 0
    ensures a >= 0 ==> 0 <= r < n
    ensures a < 0 ==> -n < r <= 0
  {
    RemOffMultiple(if a >= 0 then a else -a, n);
    if a >= 0 then a % n else -((-a) % n)
  }

  /** For `b >= 0`, `b - b % n` is a multiple of `n`, and so is its negation. */
  lemma RemOffMultiple(b: int, n: int)
    requires n > 0 && b >= 0
    ensures (b - b % n) % n == 0
    ensures (-(b - b % n)) % n == 0
  {
    var q := b / n;
    assert b - b % n == n * q;
    ModOfRange(n * q, n, q);
    ModOfRange(-(n * q), n, -q);
  }

  /** Only one value is a multiple of `n` away from `a` with the sign of `a` and below `n` in size. */
  lemma IntRemUnique(a: int, n: int, r: int)
    requires n > 0 && (a - r) % n == 0
    requires a >= 0 ==> 0 <= r < n
    requires a < 0 ==> -n < r <= 0
    ensures r == IntRem(a, n)
  {
    var s := IntRem(a, n);
    var p := QuotientOf(a - r, n);
    var q := QuotientOf(a - s, n);
    SameMultiple(n, p, q);
  }

  /** A multiple of `n` is `n` times some whole number. */
  lemma QuotientOf(x: int, n: int) returns (k: int)
    requires n > 0 && x % n == 0
    ensures x == n * k
  {
    k := x / n;
  }

  /** Two multiples of `n` less than `n` apart are the same multiple. */
  lemma SameMultiple(n: int, p: int, q: int)
    requires n > 0 && -n < n * p - n * q < n
    ensures p == q
  {
    assert n * p - n * q == n * (p - q);
    if p > q {
      MulAtLeast(n, p - q);
    } else if p < q {
      MulAtLeast(n, q - p);
    }
  }

  /** `Math.round`: the nearest integer, halves rounded toward +infinity. */
  function Round(x: real): (r: int)
    ensures x - 0.5 < r as real <= x + 0.5
  {
    (x + 0.5).Floor
  }

  /** `Math.max(lo, Math.min(hi, x))`. */
  function Clamp(lo: real, hi: real, x: real): (r: real)
    requires lo <= hi
    ensures lo <= r <= hi
    ensures lo <= x <= hi ==> r == x
    ensures x > hi ==> r == hi
    ensures x < lo ==> r == lo
  {
    if x > hi then hi else if x < lo then lo else x
  }

  /** `Math.abs`. */
  function Abs(x: real): (r: real)
    ensures r >= 0.0 && (r == x || r == -x)
  {
    if x < 0.0 then -x else x
  }

  /** `x % n` is `x - q * n` for the `q` that puts it in `[0, n)`. */
  lemma ModOfRange(x: int, n: int, q: int)
    requires n > 0 && 0 <= x - q * n < n
    ensures x % n == x - q * n
  {
    var d := x / n;
    assert x == n * d + x % n;
    assert n * (d - q) == (x - q * n) - x % n;
    MulBetween(n, d - q);
  }

  lemma MulBetween(n: int, e: int)
    requires n > 0 && -n < n * e < n
    ensures e == 0
  {
    if e > 0 {
      MulAtLeast(n, e);
    } else if e < 0 {
      MulAtLeast(n, -e);
    }
  }

  lemma MulAtLeast(n: int, e: int)
    requires n > 0 && e > 0
    ensures n * e >= n
  {
  }
}
