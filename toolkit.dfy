/** Value types and small helper functions of the host UI toolkit and of the
    Kotlin standard library that the extension functions call. Floating-point
    quantities (Float, Double, Dp) are idealised as exact reals; Kotlin `Int`
    keeps its 32-bit two's-complement range where the extensions rely on it. */
module Toolkit {

  /** A density-independent length (`androidx.compose.ui.unit.Dp`), whose
      `value` is a Float; idealised as a real. */
  newtype Dp = real

  /** The range of a Kotlin `Int`. */
  const INT_MIN: int := -0x8000_0000
  const INT_MAX: int := 0x7fff_ffff
  type Int32 = x: int | -0x8000_0000 <= x <= 0x7fff_ffff

  /** The value a Kotlin `Int` expression takes when its exact value is `x`:
      arithmetic wraps around modulo 2^32. */
  function Wrap32(x: int): (r: Int32)
    ensures (x - r) % 0x1_0000_0000 == 0
    ensures INT_MIN <= x <= INT_MAX ==> r == x
  {
    var m := (x + 0x8000_0000) % 0x1_0000_0000;
    assert x - (m - 0x8000_0000) == 0x1_0000_0000 * ((x + 0x8000_0000) / 0x1_0000_0000);
    m - 0x8000_0000
  }

  /** A difference of two `Int`s that is not zero stays non-zero after wrap-around. */
  lemma WrapKeepsNonZero(a: Int32, b: Int32)
    requires a != b
    ensures Wrap32(a - b) != 0
  {
  }

  /** Kotlin's `coerceIn(min, max)` on floating-point values, which throws
      when `min > max`. */
  function CoerceIn(x: real, lo: real, hi: real): (r: real)
    requires lo <= hi
    ensures lo <= r <= hi
    ensures lo <= x <= hi ==> r == x
    ensures x < lo ==> r == lo
    ensures x > hi ==> r == hi
  {
    if x < lo then lo else if x > hi then hi else x
  }

  /** `coerceIn` keeps the order of its argument. */
  lemma CoerceInMonotone(x1: real, x2: real, lo: real, hi: real)
    requires lo <= hi && x1 <= x2
    ensures CoerceIn(x1, lo, hi) <= CoerceIn(x2, lo, hi)
  {
  }

  /** `fastCoerceAtLeast(min)` on `Int`. */
  function CoerceAtLeast(x: int, min: int): (r: int)
    ensures r >= min && r >= x
    ensures r == x || r == min
  {
    if x < min then min else x
  }

  /** `fastCoerceIn(min, max)` on `Int`: raise to `min`, then lower to `max`;
      unlike `coerceIn` it does not check `min <= max`. */
  function FastCoerceIn(x: int, min: int, max: int): (r: int)
    ensures r <= max
    ensures min <= max ==> min <= r
    ensures min <= x <= max ==> r == x
    ensures x > max ==> r == max
    ensures x < min <= max ==> r == min
  {
    var raised := if x < min then min else x;
    if raised > max then max else raised
  }

  /** A point or a displacement (`androidx.compose.ui.geometry.Offset`). */
  datatype Offset = Offset(x: real, y: real) {
    function Minus(other: Offset): Offset {
      Offset(x - other.x, y - other.y)
    }
  }

  const ZeroOffset: Offset := Offset(0.0, 0.0)

  /** A measured size in pixels. */
  datatype Size = Size(width: int, height: int)

  /** Layout constraints in pixels. The toolkit's constraints always satisfy
      `Valid`; the constructor and `copy` refuse anything else. */
  datatype Constraints = Constraints(minWidth: int, maxWidth: int, minHeight: int, maxHeight: int) {
    predicate Valid() {
      0 <= minWidth <= maxWidth && 0 <= minHeight <= maxHeight
    }

    /** The size lies within these constraints. */
    predicate Admits(s: Size) {
      minWidth <= s.width <= maxWidth && minHeight <= s.height <= maxHeight
    }
  }

  /** `Math.round` of a finite value: the nearest integer, halves rounded up. */
  function RoundHalfUp(x: real): (n: int)
    ensures x - 0.5 < n as real <= x + 0.5
  {
    (x + 0.5).Floor
  }

  function Min(a: int, b: int): int { if a <= b then a else b }
  function Max(a: int, b: int): int { if a <= b then b else a }

  /** `androidx.compose.ui.util.lerp(start: Int, stop: Int, fraction: Float)`:
      `start + round((stop - start) * fraction)`. The integer nearest the exact
      interpolation, halves rounded up; between the endpoints for a fraction in
      [0, 1], and exactly at them for 0 and 1. */
  function LerpInt(start: int, stop: int, fraction: real): (r: int)
    ensures var exact := start as real + (stop - start) as real * fraction;
      exact - 0.5 < r as real <= exact + 0.5
    ensures fraction == 0.0 ==> r == start
    ensures fraction == 1.0 ==> r == stop
    ensures 0.0 <= fraction <= 1.0 ==> Min(start, stop) <= r <= Max(start, stop)
  {
    var d := (stop - start) as real;
    var step := RoundHalfUp(d * fraction);
    LerpStepBounded(stop - start, fraction);
    start + step
  }

  /** The rounded step `round(d * t)` of an interpolation stays between 0 and `d`. */
  lemma LerpStepBounded(d: int, t: real)
    ensures 0.0 <= t <= 1.0 ==> Min(0, d) <= RoundHalfUp(d as real * t) <= Max(0, d)
  {
    var p := d as real * t;
    if t < 0.0 || t > 1.0 {
    } else if d >= 0 {
      assert 0.0 <= p <= d as real by {
        assert d as real * t <= d as real * 1.0;
      }
    } else {
      assert d as real <= p <= 0.0 by {
        assert d as real * 1.0 <= d as real * t;
      }
    }
  }
}
