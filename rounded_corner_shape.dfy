/** Builders of rounded-corner shapes from two radii: vertically symmetric
    ones (one radius for the top corners, one for the bottom corners) and
    horizontally symmetric ones (one for the start corners, one for the end
    corners), each from Dp or from `Int` radii. An `Int` passed to the
    toolkit's `CornerSize` selects its `percent` overload, so the `Int`
    builders make percentage corners and refuse a percentage outside 0..100;
    their documentation speaks of pixels, which the pixel builders below
    give. */
module RoundedCorners {
  import opened Toolkit

  /** The toolkit's corner sizes: `CornerSize(size: Dp)`,
      `CornerSize(size: Float)` in pixels, and `CornerSize(percent: Int)`,
      a percentage of the shape's shorter side. */
  datatype CornerSize = DpCorner(size: Dp) | PxCorner(px: real) | PercentCorner(percent: int)

  /** A `RoundedCornerShape` given by its four corners. */
  datatype RoundedCornerShape = RoundedCornerShape(
    topStart: CornerSize, topEnd: CornerSize, bottomEnd: CornerSize, bottomStart: CornerSize)

  /** A builder's outcome: the shape, or the `IllegalArgumentException` that
      `CornerSize(percent)` throws for a percentage outside 0..100. */
  datatype ShapeResult = Built(shape: RoundedCornerShape) | IllegalArgument

  /** The radius in pixels a corner resolves to on a shape whose shorter side
      is `shortSide` pixels, at `density` pixels per Dp. */
  function RadiusPx(c: CornerSize, shortSide: real, density: real): real {
    match c
    case DpCorner(size) => size as real * density
    case PxCorner(px) => px
    case PercentCorner(percent) => shortSide * (percent as real / 100.0)
  }

  /** The shape as laid out in the opposite direction: start and end swap. */
  function Mirrored(s: RoundedCornerShape): RoundedCornerShape {
    RoundedCornerShape(s.topEnd, s.topStart, s.bottomStart, s.bottomEnd)
  }

  /** The shape turned upside down: top and bottom swap. */
  function Flipped(s: RoundedCornerShape): RoundedCornerShape {
    RoundedCornerShape(s.bottomStart, s.bottomEnd, s.topEnd, s.topStart)
  }

  predicate AllDp(s: RoundedCornerShape) {
    s.topStart.DpCorner? && s.topEnd.DpCorner? && s.bottomEnd.DpCorner? && s.bottomStart.DpCorner?
  }

  predicate AllPx(s: RoundedCornerShape) {
    s.topStart.PxCorner? && s.topEnd.PxCorner? && s.bottomEnd.PxCorner? && s.bottomStart.PxCorner?
  }

  predicate AllPercent(s: RoundedCornerShape) {
    s.topStart.PercentCorner? && s.topEnd.PercentCorner? && s.bottomEnd.PercentCorner? && s.bottomStart.PercentCorner?
  }

  /** `VRoundedCornerShape(top: Dp, bottom: Dp)`: looks the same in both
      layout directions; the top corners have radius `top`, the bottom ones `bottom`. */
  function VRoundedCornerShapeDp(top: Dp, bottom: Dp): (s: RoundedCornerShape)
    ensures Mirrored(s) == s
    ensures s.topStart == DpCorner(top) && s.bottomStart == DpCorner(bottom)
  {
    RoundedCornerShape(DpCorner(top), DpCorner(top), DpCorner(bottom), DpCorner(bottom))
  }

  /** `VRoundedCornerShape(top: Int, bottom: Int)` as written: every corner is
      `CornerSize(percent)`, so the shape is built exactly when both
      percentages lie in 0..100. */
  function VRoundedCornerShapePercent(top: int, bottom: int): (r: ShapeResult)
    ensures r.Built? <==> 0 <= top <= 100 && 0 <= bottom <= 100
    ensures r.Built? ==> Mirrored(r.shape) == r.shape
    ensures r.Built? ==> r.shape.topStart == PercentCorner(top) && r.shape.bottomStart == PercentCorner(bottom)
  {
    if 0 <= top <= 100 && 0 <= bottom <= 100 then
      Built(RoundedCornerShape(PercentCorner(top), PercentCorner(top), PercentCorner(bottom), PercentCorner(bottom)))
    else
      IllegalArgument
  }

  /** `VRoundedCornerShape(top: Int, bottom: Int)` as documented: radii in
      pixels (`CornerSize(top.toFloat())`), accepted for every `Int`. */
  function VRoundedCornerShapePx(top: int, bottom: int): (s: RoundedCornerShape)
    ensures Mirrored(s) == s
    ensures s.topStart == PxCorner(top as real) && s.bottomStart == PxCorner(bottom as real)
  {
    RoundedCornerShape(PxCorner(top as real), PxCorner(top as real), PxCorner(bottom as real), PxCorner(bottom as real))
  }

  /** `HRoundedCornerShape(start: Dp, end: Dp)`: looks the same upside down;
      the start corners have radius `start`, the end ones `end`. */
  function HRoundedCornerShapeDp(start: Dp, end: Dp): (s: RoundedCornerShape)
    ensures Flipped(s) == s
    ensures s.topStart == DpCorner(start) && s.topEnd == DpCorner(end)
  {
    RoundedCornerShape(DpCorner(start), DpCorner(end), DpCorner(end), DpCorner(start))
  }

  /** `HRoundedCornerShape(start: Int, end: Int)` as written: percentage
      corners, built exactly when both lie in 0..100. */
  function HRoundedCornerShapePercent(start: int, end: int): (r: ShapeResult)
    ensures r.Built? <==> 0 <= start <= 100 && 0 <= end <= 100
    ensures r.Built? ==> Flipped(r.shape) == r.shape
    ensures r.Built? ==> r.shape.topStart == PercentCorner(start) && r.shape.topEnd == PercentCorner(end)
  {
    if 0 <= start <= 100 && 0 <= end <= 100 then
      Built(RoundedCornerShape(PercentCorner(start), PercentCorner(end), PercentCorner(end), PercentCorner(start)))
    else
      IllegalArgument
  }

  /** `HRoundedCornerShape(start: Int, end: Int)` as documented: radii in pixels. */
  function HRoundedCornerShapePx(start: int, end: int): (s: RoundedCornerShape)
    ensures Flipped(s) == s
    ensures s.topStart == PxCorner(start as real) && s.topEnd == PxCorner(end as real)
  {
    RoundedCornerShape(PxCorner(start as real), PxCorner(end as real), PxCorner(end as real), PxCorner(start as real))
  }

  /** The `Int` builders as written do not give the documented pixel radii:
      `16` on a 48-pixel square resolves to 7.68 pixels rather than 16, and a
      radius above 100 is refused rather than built. */
  lemma IntRadiiArePercentages()
    ensures VRoundedCornerShapePercent(16, 16).Built?
    ensures RadiusPx(VRoundedCornerShapePercent(16, 16).shape.topStart, 48.0, 1.0) == 7.68
    ensures RadiusPx(VRoundedCornerShapePx(16, 16).topStart, 48.0, 1.0) == 16.0
    ensures VRoundedCornerShapePercent(150, 0) == IllegalArgument
    ensures HRoundedCornerShapePercent(0, 150) == IllegalArgument
  {
  }

  /** The pixel builders give every corner its documented radius, whatever the
      shape's size or the density, and accept every `Int`. */
  lemma PixelRadiiIgnoreShapeSize(a: int, b: int, shortSide: real, density: real)
    ensures var v := VRoundedCornerShapePx(a, b);
      RadiusPx(v.topStart, shortSide, density) == RadiusPx(v.topEnd, shortSide, density) == a as real &&
      RadiusPx(v.bottomStart, shortSide, density) == RadiusPx(v.bottomEnd, shortSide, density) == b as real
    ensures var h := HRoundedCornerShapePx(a, b);
      RadiusPx(h.topStart, shortSide, density) == RadiusPx(h.bottomStart, shortSide, density) == a as real &&
      RadiusPx(h.topEnd, shortSide, density) == RadiusPx(h.bottomEnd, shortSide, density) == b as real
  {
  }

  /** Turning a vertical shape upside down swaps its radii; mirroring a
      horizontal one swaps its radii. */
  lemma SwappingRadii(a: Dp, b: Dp, m: int, n: int)
    ensures Flipped(VRoundedCornerShapeDp(a, b)) == VRoundedCornerShapeDp(b, a)
    ensures Flipped(VRoundedCornerShapePx(m, n)) == VRoundedCornerShapePx(n, m)
    ensures VRoundedCornerShapePercent(m, n).Built? ==>
      VRoundedCornerShapePercent(n, m).Built? &&
      Flipped(VRoundedCornerShapePercent(m, n).shape) == VRoundedCornerShapePercent(n, m).shape
    ensures Mirrored(HRoundedCornerShapeDp(a, b)) == HRoundedCornerShapeDp(b, a)
    ensures Mirrored(HRoundedCornerShapePx(m, n)) == HRoundedCornerShapePx(n, m)
    ensures HRoundedCornerShapePercent(m, n).Built? ==>
      HRoundedCornerShapePercent(n, m).Built? &&
      Mirrored(HRoundedCornerShapePercent(m, n).shape) == HRoundedCornerShapePercent(n, m).shape
  {
  }

  /** With equal radii both builders give the same shape, all four corners
      of that radius. */
  lemma EqualRadiiAreUniform(r: Dp, k: int)
    ensures VRoundedCornerShapeDp(r, r) == HRoundedCornerShapeDp(r, r) == RoundedCornerShape(DpCorner(r), DpCorner(r), DpCorner(r), DpCorner(r))
    ensures VRoundedCornerShapePx(k, k) == HRoundedCornerShapePx(k, k)
    ensures VRoundedCornerShapePercent(k, k) == HRoundedCornerShapePercent(k, k)
    ensures VRoundedCornerShapePercent(k, k).Built? ==>
      VRoundedCornerShapePercent(k, k).shape == RoundedCornerShape(PercentCorner(k), PercentCorner(k), PercentCorner(k), PercentCorner(k))
  {
  }

  /** The Dp builders make Dp corners, the `Int` builders percentage corners
      and the pixel builders pixel corners, all with the same arrangement:
      given the same numbers, the corners' magnitudes agree position by
      position. */
  lemma OverloadsShareArrangement(a: int, b: int)
    ensures AllDp(VRoundedCornerShapeDp(a as Dp, b as Dp)) && AllPx(VRoundedCornerShapePx(a, b))
    ensures AllDp(HRoundedCornerShapeDp(a as Dp, b as Dp)) && AllPx(HRoundedCornerShapePx(a, b))
    ensures Magnitudes(VRoundedCornerShapeDp(a as Dp, b as Dp)) == Magnitudes(VRoundedCornerShapePx(a, b))
    ensures Magnitudes(HRoundedCornerShapeDp(a as Dp, b as Dp)) == Magnitudes(HRoundedCornerShapePx(a, b))
    ensures VRoundedCornerShapePercent(a, b).Built? ==>
      AllPercent(VRoundedCornerShapePercent(a, b).shape) &&
      Magnitudes(VRoundedCornerShapePercent(a, b).shape) == Magnitudes(VRoundedCornerShapePx(a, b))
    ensures HRoundedCornerShapePercent(a, b).Built? ==>
      AllPercent(HRoundedCornerShapePercent(a, b).shape) &&
      Magnitudes(HRoundedCornerShapePercent(a, b).shape) == Magnitudes(HRoundedCornerShapePx(a, b))
  {
  }

  /** The number a corner size carries, whatever its unit. */
  function Magnitude(c: CornerSize): real {
    match c
    case DpCorner(size) => size as real
    case PxCorner(px) => px
    case PercentCorner(percent) => percent as real
  }

  /** The magnitudes of a shape's corners, in the order top-start, top-end,
      bottom-end, bottom-start. */
  function Magnitudes(s: RoundedCornerShape): seq<real> {
    [Magnitude(s.topStart), Magnitude(s.topEnd), Magnitude(s.bottomEnd), Magnitude(s.bottomStart)]
  }
}
