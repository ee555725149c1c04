/**
  Decimal arithmetic of java.math.BigDecimal over Dafny's exact reals.

  `x.divide(y, scale, RoundingMode.HALF_UP)` is the exact quotient rounded to `scale`
  fractional digits with ties going away from zero (also for negative values);
  `RoundingMode.DOWN` truncates toward zero. `max`, `min` and `abs` follow the
  BigDecimal methods of the same names. Addition, subtraction and multiplication
  of BigDecimals are exact, so they are plain real arithmetic.
 */
module Decimal {

  function Pow10(n: nat): (p: real)
    ensures p >= 1.0
  {
    if n == 0 then 1.0 else 10.0 * Pow10(n - 1)
  }

  function Abs(x: real): real {
    if x >= 0.0 then x else -x
  }

  /** `a.max(b)`: `a` when `a.compareTo(b) >= 0`, otherwise `b`. */
  function Max(a: real, b: real): real {
    if a >= b then a else b
  }

  /** `a.min(b)`: `a` when `a.compareTo(b) <= 0`, otherwise `b`. */
  function Min(a: real, b: real): real {
    if a <= b then a else b
  }

  /** Rounds a non-negative magnitude to a multiple of 1/p, ties upward. */
  function HalfUpMagnitude(a: real, p: real): real
    requires p > 0.0
  {
    ((a * p + 0.5).Floor as real) / p
  }

  /** Truncates a non-negative magnitude to a multiple of 1/p. */
  function DownMagnitude(a: real, p: real): real
    requires p > 0.0
  {
    ((a * p).Floor as real) / p
  }

  /** Rounds to `scale` fractional digits, ties away from zero (RoundingMode.HALF_UP). */
  function RoundHalfUp(x: real, scale: nat): real {
    var p := Pow10(scale);
    if x >= 0.0 then HalfUpMagnitude(x, p) else -HalfUpMagnitude(-x, p)
  }

  /** Rounds to `scale` fractional digits toward zero (RoundingMode.DOWN). */
  function RoundDown(x: real, scale: nat): real {
    var p := Pow10(scale);
    if x >= 0.0 then DownMagnitude(x, p) else -DownMagnitude(-x, p)
  }

  /** `a.divide(b, scale, RoundingMode.HALF_UP)`; a zero divisor throws in the source. */
  function DivHalfUp(a: real, b: real, scale: nat): real
    requires b != 0.0
  {
    RoundHalfUp(a / b, scale)
  }

  /** `a.divide(b, scale, RoundingMode.DOWN)`; a zero divisor throws in the source. */
  function DivDown(a: real, b: real, scale: nat): real
    requires b != 0.0
  {
    RoundDown(a / b, scale)
  }

  /** `y` is a whole number. */
  predicate IsWhole(y: real) {
    y == y.Floor as real
  }

  /** `x` in units of its `scale`-th fractional digit. */
  function Scaled(x: real, scale: nat): real {
    x * Pow10(scale)
  }

  /** `x` has at most `scale` fractional digits. */
  predicate HasScale(x: real, scale: nat) {
    IsWhole(Scaled(x, scale))
  }

  lemma MulLe(a: real, b: real, p: real)
    requires a <= b && p >= 0.0
    ensures a * p <= b * p
  {
    assert (b - a) * p >= 0.0;
  }

  lemma DivLe(a: real, b: real, p: real)
    requires a <= b && p > 0.0
    ensures a / p <= b / p
  {
    MulLe(a, b, 1.0 / p);
  }

  lemma FloorLe(a: real, b: real)
    requires a <= b
    ensures a.Floor <= b.Floor
  {
  }

  lemma HalfUpMagnitudeMonotone(a: real, b: real, p: real)
    requires 0.0 <= a <= b && p > 0.0
    ensures 0.0 <= HalfUpMagnitude(a, p) <= HalfUpMagnitude(b, p)
  {
    MulLe(a, b, p);
    MulLe(0.0, a, p);
    FloorLe(a * p + 0.5, b * p + 0.5);
    DivLe((a * p + 0.5).Floor as real, (b * p + 0.5).Floor as real, p);
    DivLe(0.0, (a * p + 0.5).Floor as real, p);
  }

  lemma HalfUpMagnitudeError(a: real, p: real)
    requires a >= 0.0 && p > 0.0
    ensures a - 0.5 / p <= HalfUpMagnitude(a, p) <= a + 0.5 / p
  {
    var f := (a * p + 0.5).Floor as real;
    assert a * p - 0.5 < f <= a * p + 0.5;
    DivLe(a * p - 0.5, f, p);
    DivLe(f, a * p + 0.5, p);
    assert (a * p - 0.5) / p == a - 0.5 / p;
    assert (a * p + 0.5) / p == a + 0.5 / p;
  }

  lemma DownMagnitudeBounds(a: real, p: real)
    requires a >= 0.0 && p > 0.0
    ensures 0.0 <= DownMagnitude(a, p) <= a
  {
    var f := (a * p).Floor as real;
    MulLe(0.0, a, p);
    assert 0.0 <= f <= a * p;
    DivLe(0.0, f, p);
    DivLe(f, a * p, p);
    assert (a * p) / p == a;
  }

  /** Rounding a non-negative value gives a non-negative value. */
  lemma RoundHalfUpNonNegative(x: real, scale: nat)
    requires x >= 0.0
    ensures RoundHalfUp(x, scale) >= 0.0
  {
    HalfUpMagnitudeMonotone(x, x, Pow10(scale));
  }

  /** A non-negative quotient rounds to a non-negative value. */
  lemma DivHalfUpNonNegative(a: real, b: real, scale: nat)
    requires a >= 0.0 && b > 0.0
    ensures DivHalfUp(a, b, scale) >= 0.0
  {
    DivLe(0.0, a, b);
    RoundHalfUpNonNegative(a / b, scale);
  }

  /** Rounding never reorders two values. */
  lemma RoundHalfUpMonotone(x: real, y: real, scale: nat)
    requires x <= y
    ensures RoundHalfUp(x, scale) <= RoundHalfUp(y, scale)
  {
    var p := Pow10(scale);
    if x >= 0.0 {
      HalfUpMagnitudeMonotone(x, y, p);
    } else if y < 0.0 {
      HalfUpMagnitudeMonotone(-y, -x, p);
    } else {
      HalfUpMagnitudeMonotone(0.0, -x, p);
      HalfUpMagnitudeMonotone(0.0, y, p);
    }
  }

  lemma HalfUpMagnitudeExact(a: real, p: real, n: int)
    requires a >= 0.0 && p > 0.0 && a * p == n as real
    ensures HalfUpMagnitude(a, p) == a
  {
    assert (a * p + 0.5).Floor == n;
    assert (n as real) / p == a;
  }

  /** A value that already has `scale` fractional digits is left as it is. */
  lemma RoundHalfUpExact(x: real, scale: nat)
    requires HasScale(x, scale)
    ensures RoundHalfUp(x, scale) == x
  {
    var n := Scaled(x, scale).Floor;
    if x >= 0.0 {
      HalfUpMagnitudeExact(x, Pow10(scale), n);
    } else {
      assert (-x) * Pow10(scale) == (-n) as real;
      HalfUpMagnitudeExact(-x, Pow10(scale), -n);
    }
  }

  /** HALF_UP rounding moves a value by at most half a unit of the last kept digit. */
  lemma RoundHalfUpError(x: real, scale: nat)
    ensures x - 0.5 / Pow10(scale) <= RoundHalfUp(x, scale) <= x + 0.5 / Pow10(scale)
  {
    if x >= 0.0 {
      HalfUpMagnitudeError(x, Pow10(scale));
    } else {
      HalfUpMagnitudeError(-x, Pow10(scale));
    }
  }

  /** Rounding a non-negative value toward zero keeps it between zero and the value. */
  lemma RoundDownBounds(x: real, scale: nat)
    requires x >= 0.0
    ensures 0.0 <= RoundDown(x, scale) <= x
  {
    DownMagnitudeBounds(x, Pow10(scale));
  }

  /** Whole numbers have every scale. */
  lemma HasScaleInteger(n: int, scale: nat)
    ensures HasScale(n as real, scale)
    decreases scale
  {
    if scale > 0 {
      HasScaleInteger(n * 10, scale - 1);
      assert Scaled(n as real, scale) == Scaled((n * 10) as real, scale - 1);
    } else {
      assert Scaled(n as real, scale) == n as real;
    }
  }

  /** Rounding a value between two numbers that have the scale stays between them. */
  lemma RoundHalfUpBetween(x: real, lo: real, hi: real, scale: nat)
    requires lo <= x <= hi
    requires HasScale(lo, scale) && HasScale(hi, scale)
    ensures lo <= RoundHalfUp(x, scale) <= hi
  {
    RoundHalfUpMonotone(lo, x, scale);
    RoundHalfUpMonotone(x, hi, scale);
    RoundHalfUpExact(lo, scale);
    RoundHalfUpExact(hi, scale);
  }
}
