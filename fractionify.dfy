/** `fractionify` maps a value to its position `(value - from) / (to - from)`
    in the range from `from` to `to` (0 when the endpoints are equal, clamped
    to [0, 1] when `bounded`); `amplitudeFractional` turns a fraction into the
    symmetric "pop" curve `(2x - 1)^2`, clamped to [0, 1]. */
module Fractions {
  import opened Toolkit

  /** `ClosedFloatingPointRange<T>`: the closed interval `start..endInclusive`. */
  datatype ClosedRange<T> = ClosedRange(start: T, endInclusive: T)

  /** `IntRange`, read through its first and last elements. */
  datatype IntRange = IntRange(first: Int32, last: Int32)

  /** `fractionify` on Float and on Double values (both idealised as reals);
      `bounded` defaults to true. */
  function Fractionify(value: real, from: real, to: real, bounded: bool := true): (r: real)
    ensures from == to ==> r == 0.0
    ensures bounded ==> 0.0 <= r <= 1.0
    ensures from != to && (!bounded || 0.0 <= (value - from) / (to - from) <= 1.0) ==>
      r == (value - from) / (to - from)
    ensures from != to && value == from ==> r == 0.0
    ensures from != to && value == to ==> r == 1.0
  {
    if from == to then 0.0
    else
      var fraction := (value - from) / (to - from);
      EndpointQuotients(value, from, to);
      if bounded then CoerceIn(fraction, 0.0, 1.0) else fraction
  }

  /** The quotient is 0 at the start of the range and 1 at its end. */
  lemma EndpointQuotients(value: real, from: real, to: real)
    requires from != to
    ensures value == from ==> (value - from) / (to - from) == 0.0
    ensures value == to ==> (value - from) / (to - from) == 1.0
  {
    if value == to {
      SelfQuotient(to - from);
    }
  }

  /** A non-zero number divided by itself is 1. */
  lemma SelfQuotient(d: real)
    requires d != 0.0
    ensures d / d == 1.0
  {
  }

  /** The bounded fraction is the unbounded one clamped to [0, 1]. */
  lemma BoundedIsClampedUnbounded(value: real, from: real, to: real)
    ensures Fractionify(value, from, to, true) == CoerceIn(Fractionify(value, from, to, false), 0.0, 1.0)
  {
  }

  /** Division by a positive number keeps the order. */
  lemma DivideByPositiveMonotone(a: real, b: real, d: real)
    requires a <= b && d > 0.0
    ensures a / d <= b / d
  {
    assert b / d - a / d == (b - a) / d;
  }

  /** For a rising range the fraction, bounded or not, never decreases as the value grows. */
  lemma MonotoneInValue(v1: real, v2: real, from: real, to: real, bounded: bool)
    requires from < to && v1 <= v2
    ensures Fractionify(v1, from, to, bounded) <= Fractionify(v2, from, to, bounded)
  {
    DivideByPositiveMonotone(v1 - from, v2 - from, to - from);
    var f1, f2 := (v1 - from) / (to - from), (v2 - from) / (to - from);
    if bounded {
      CoerceInMonotone(f1, f2, 0.0, 1.0);
    }
  }

  /** For a falling range the fraction never increases as the value grows. */
  lemma AntitoneInValue(v1: real, v2: real, from: real, to: real, bounded: bool)
    requires from > to && v1 <= v2
    ensures Fractionify(v2, from, to, bounded) <= Fractionify(v1, from, to, bounded)
  {
    DivideByPositiveMonotone(from - v2, from - v1, from - to);
    assert (v1 - from) / (to - from) == (from - v1) / (from - to);
    assert (v2 - from) / (to - from) == (from - v2) / (from - to);
    var f1, f2 := (v1 - from) / (to - from), (v2 - from) / (to - from);
    if bounded {
      CoerceInMonotone(f2, f1, 0.0, 1.0);
    }
  }

  /** `fractionify` on Dp values: the differences are taken in Dp and read
      through their values; here `bounded` defaults to false. */
  function FractionifyDp(value: Dp, from: Dp, to: Dp, bounded: bool := false): (r: real)
    ensures r == Fractionify(value as real, from as real, to as real, bounded)
  {
    if from == to then 0.0
    else
      var fraction := ((value - from) as real) / ((to - from) as real);
      if bounded then CoerceIn(fraction, 0.0, 1.0) else fraction
  }

  /** `fractionify` on Int values as written: `value - from` and `to - from`
      are 32-bit `Int` subtractions, so they wrap around when the exact
      difference leaves the `Int` range. It agrees with the exact rule
      whenever neither difference wraps. */
  function FractionifyIntAsWritten(value: Int32, from: Int32, to: Int32, bounded: bool := true): (r: real)
    ensures from == to ==> r == 0.0
    ensures bounded ==> 0.0 <= r <= 1.0
    ensures INT_MIN <= value - from <= INT_MAX && INT_MIN <= to - from <= INT_MAX ==>
      r == Fractionify(value as real, from as real, to as real, bounded)
    ensures from != to && value == from ==> r == 0.0
    ensures from != to && value == to ==> r == 1.0
  {
    if from == to then 0.0
    else
      WrapKeepsNonZero(to, from);
      assert value == to ==> (Wrap32(value - from) as real) / (Wrap32(to - from) as real) == 1.0 by {
        if value == to { SelfQuotient(Wrap32(to - from) as real); }
      }
      var fraction := (Wrap32(value - from) as real) / (Wrap32(to - from) as real);
      if bounded then CoerceIn(fraction, 0.0, 1.0) else fraction
  }

  /** As written, too, the bounded Int result is the unbounded one clamped
      to [0, 1], whether or not the differences wrap. */
  lemma IntAsWrittenBoundedIsClamped(value: Int32, from: Int32, to: Int32)
    ensures FractionifyIntAsWritten(value, from, to, true) ==
      CoerceIn(FractionifyIntAsWritten(value, from, to, false), 0.0, 1.0)
  {
  }

  /** With the widest `Int` range, the value 0 lies almost exactly half way,
      yet both differences wrap: the unbounded result is 2^31 and the bounded
      one is 1 instead of about one half. */
  lemma IntWrapCounterexample()
    ensures FractionifyIntAsWritten(0, INT_MIN, INT_MAX, false) == 2147483648.0
    ensures FractionifyIntAsWritten(0, INT_MIN, INT_MAX, true) == 1.0
    ensures FractionifyInt(0, INT_MIN, INT_MAX, false) == 2147483648.0 / 4294967295.0
    ensures 0.5 < FractionifyInt(0, INT_MIN, INT_MAX, true) < 0.5000001
  {
    assert Wrap32(0 - INT_MIN) == INT_MIN;
    assert Wrap32(INT_MAX - INT_MIN) == -1;
  }

  /** `fractionify` on Int values with the differences taken exactly (as if
      the operands were widened before subtracting); it is the rule on reals
      applied to the integer inputs. */
  function FractionifyInt(value: Int32, from: Int32, to: Int32, bounded: bool := true): (r: real)
    ensures r == Fractionify(value as real, from as real, to as real, bounded)
  {
    if from == to then 0.0
    else
      var fraction := ((value - from) as real) / ((to - from) as real);
      if bounded then CoerceIn(fraction, 0.0, 1.0) else fraction
  }

  /** For a rising `Int` range every value between the endpoints maps to its
      exact position, which lies in [0, 1], whether bounded or not. */
  lemma IntInsideRangeIsExactPosition(value: Int32, from: Int32, to: Int32, bounded: bool)
    requires from < to && from <= value <= to
    ensures FractionifyInt(value, from, to, bounded) == (value - from) as real / (to - from) as real
    ensures 0.0 <= FractionifyInt(value, from, to, bounded) <= 1.0
  {
    var d := (to - from) as real;
    var n := (value - from) as real;
    DivideByPositiveMonotone(0.0, n, d);
    DivideByPositiveMonotone(n, d, d);
    SelfQuotient(d);
    assert 0.0 <= n / d <= 1.0;
    assert n / d == (value as real - from as real) / (to as real - from as real);
  }

  /** The range overload on Int: `fractionify(value, range.first, range.last, bounded)`. */
  function FractionifyIntRange(value: Int32, range: IntRange, bounded: bool := true): (r: real)
    ensures range.first == range.last ==> r == 0.0
    ensures bounded ==> 0.0 <= r <= 1.0
    ensures range.first != range.last && value == range.first ==> r == 0.0
    ensures range.first != range.last && value == range.last ==> r == 1.0
  {
    FractionifyInt(value, range.first, range.last, bounded)
  }

  /** The range overload on Float and on Double values. */
  function FractionifyRange(value: real, range: ClosedRange<real>, bounded: bool := true): (r: real)
    ensures range.start == range.endInclusive ==> r == 0.0
    ensures bounded ==> 0.0 <= r <= 1.0
    ensures range.start != range.endInclusive && value == range.start ==> r == 0.0
    ensures range.start != range.endInclusive && value == range.endInclusive ==> r == 1.0
  {
    Fractionify(value, range.start, range.endInclusive, bounded)
  }

  /** The range overload on Dp values; unlike the Dp endpoint overload its
      `bounded` defaults to true. */
  function FractionifyDpRange(value: Dp, range: ClosedRange<Dp>, bounded: bool := true): (r: real)
    ensures range.start == range.endInclusive ==> r == 0.0
    ensures bounded ==> 0.0 <= r <= 1.0
    ensures range.start != range.endInclusive && value == range.start ==> r == 0.0
    ensures range.start != range.endInclusive && value == range.endInclusive ==> r == 1.0
  {
    FractionifyDp(value, range.start, range.endInclusive, bounded)
  }

  /** Every range overload is its endpoint overload applied to the range's
      first and last values. */
  lemma RangeOverloadsDelegate(i: Int32, ir: IntRange, x: real, xr: ClosedRange<real>, d: Dp, dr: ClosedRange<Dp>, bounded: bool)
    ensures FractionifyIntRange(i, ir, bounded) == FractionifyInt(i, ir.first, ir.last, bounded)
    ensures FractionifyRange(x, xr, bounded) == Fractionify(x, xr.start, xr.endInclusive, bounded)
    ensures FractionifyDpRange(d, dr, bounded) == FractionifyDp(d, dr.start, dr.endInclusive, bounded)
  {
  }

  /** The default of `bounded`: true for every overload except the Dp endpoint
      one. A Dp value past the end of its range therefore maps beyond 1
      through the endpoint overload and to 1 through the range overload. */
  lemma BoundedDefaults(i: Int32, a: Int32, b: Int32, x: real, f: real, t: real, d: Dp, p: Dp, q: Dp)
    ensures FractionifyInt(i, a, b) == FractionifyInt(i, a, b, true)
    ensures FractionifyIntRange(i, IntRange(a, b)) == FractionifyIntRange(i, IntRange(a, b), true)
    ensures Fractionify(x, f, t) == Fractionify(x, f, t, true)
    ensures FractionifyRange(x, ClosedRange(f, t)) == FractionifyRange(x, ClosedRange(f, t), true)
    ensures FractionifyDp(d, p, q) == FractionifyDp(d, p, q, false)
    ensures FractionifyDpRange(d, ClosedRange(p, q)) == FractionifyDpRange(d, ClosedRange(p, q), true)
    ensures FractionifyDp(2.0, 0.0, 1.0) == 2.0
    ensures FractionifyDpRange(2.0, ClosedRange(0.0, 1.0)) == 1.0
  {
  }

  /** `amplitudeFractional`: `(2x - 1)^2` clamped to [0, 1]; on [0, 1] the
      clamp never applies. */
  function AmplitudeFractional(fractional: real): (r: real)
    ensures 0.0 <= r <= 1.0
    ensures 0.0 <= fractional <= 1.0 ==> r == (2.0 * fractional - 1.0) * (2.0 * fractional - 1.0)
  {
    var centred := fractional * 2.0 - 1.0;
    SquareBelowOne(centred);
    CoerceIn(centred * centred, 0.0, 1.0)
  }

  /** A number of magnitude at most 1 has a square of at most 1. */
  lemma SquareBelowOne(c: real)
    ensures -1.0 <= c <= 1.0 ==> c * c <= 1.0
  {
    if -1.0 <= c <= 1.0 {
      if c >= 0.0 {
        assert c * c <= c * 1.0;
      } else {
        assert c * c <= (-c) * 1.0;
      }
    }
  }

  /** The curve is 1 at both ends and 0 in the middle. */
  lemma AmplitudeEndpoints()
    ensures AmplitudeFractional(0.0) == 1.0
    ensures AmplitudeFractional(1.0) == 1.0
    ensures AmplitudeFractional(0.5) == 0.0
  {
  }

  /** The curve is symmetric about one half. */
  lemma AmplitudeSymmetric(x: real)
    ensures AmplitudeFractional(x) == AmplitudeFractional(1.0 - x)
  {
    var c := x * 2.0 - 1.0;
    assert (1.0 - x) * 2.0 - 1.0 == -c;
    assert (-c) * (-c) == c * c;
  }

  /** Squaring keeps the order of non-negative numbers. */
  lemma SquareMonotone(a: real, b: real)
    requires 0.0 <= a <= b
    ensures a * a <= b * b
  {
    assert a * a <= a * b;
    assert a * b <= b * b;
  }

  /** From one half upwards the curve never decreases. */
  lemma AmplitudeRisesAfterHalf(x1: real, x2: real)
    requires 0.5 <= x1 <= x2
    ensures AmplitudeFractional(x1) <= AmplitudeFractional(x2)
  {
    SquareMonotone(x1 * 2.0 - 1.0, x2 * 2.0 - 1.0);
    CoerceInMonotone((x1 * 2.0 - 1.0) * (x1 * 2.0 - 1.0), (x2 * 2.0 - 1.0) * (x2 * 2.0 - 1.0), 0.0, 1.0);
  }
}
