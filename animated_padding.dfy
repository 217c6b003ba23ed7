/** The layout rule of `Modifier.padding(padding: () -> PaddingValues)`:
    the content is measured under the incoming constraints shrunk by the
    padding, the modifier reports the content size plus the padding clamped to
    the incoming constraints, and places the content at the start and top
    padding. The density conversion `roundToPx` and the content's own
    measurement are supplied by the toolkit and enter as parameters. */
module AnimatedPadding {
  import opened Toolkit
  import opened Padding

  /** What one layout pass decides: the constraints the content is measured
      under, the size reported for the padded box, and where the content is
      placed. */
  datatype PaddedLayout = PaddedLayout(inner: Constraints, size: Size, placeX: int, placeY: int)

  /** The total horizontal padding in pixels: left plus right, rounded. */
  function HorizontalPaddingPx(p: PaddingValues, dir: LayoutDirection, roundToPx: Dp -> int): (w: int)
    ensures w == roundToPx(StartPadding(p, dir) + EndPadding(p, dir))
  {
    HorizontalTotal(p, dir);
    roundToPx(LeftPadding(p, dir) + RightPadding(p, dir))
  }

  /** The content's constraints: each minimum lowered by the padding but
      never below 0, each maximum lowered by the padding but never below the
      new minimum. They are always valid; for valid incoming constraints each
      maximum is exactly the shrunk one whenever the padding fits under it, and
      all four are the incoming ones shifted by the padding whenever the
      padding fits under the incoming minimum. */
  function InnerConstraints(c: Constraints, widthDiff: int, heightDiff: int): (inner: Constraints)
    ensures inner.Valid()
    ensures c.minWidth - widthDiff >= 0 ==> inner.minWidth == c.minWidth - widthDiff
    ensures c.minWidth - widthDiff < 0 ==> inner.minWidth == 0
    ensures c.minHeight - heightDiff >= 0 ==> inner.minHeight == c.minHeight - heightDiff
    ensures c.minHeight - heightDiff < 0 ==> inner.minHeight == 0
    ensures c.maxWidth - widthDiff >= inner.minWidth ==> inner.maxWidth == c.maxWidth - widthDiff
    ensures c.maxWidth - widthDiff < inner.minWidth ==> inner.maxWidth == inner.minWidth
    ensures c.maxHeight - heightDiff >= inner.minHeight ==> inner.maxHeight == c.maxHeight - heightDiff
    ensures c.maxHeight - heightDiff < inner.minHeight ==> inner.maxHeight == inner.minHeight
    ensures c.Valid() && widthDiff <= c.maxWidth ==> inner.maxWidth == c.maxWidth - widthDiff
    ensures c.Valid() && heightDiff <= c.maxHeight ==> inner.maxHeight == c.maxHeight - heightDiff
    ensures c.Valid() && widthDiff <= c.minWidth ==>
      inner.minWidth == c.minWidth - widthDiff && inner.maxWidth == c.maxWidth - widthDiff
    ensures c.Valid() && heightDiff <= c.minHeight ==>
      inner.minHeight == c.minHeight - heightDiff && inner.maxHeight == c.maxHeight - heightDiff
  {
    var minWidth := CoerceAtLeast(c.minWidth - widthDiff, 0);
    var minHeight := CoerceAtLeast(c.minHeight - heightDiff, 0);
    Constraints(
      minWidth,
      CoerceAtLeast(c.maxWidth - widthDiff, minWidth),
      minHeight,
      CoerceAtLeast(c.maxHeight - heightDiff, minHeight))
  }

  /** The reported size: content plus padding, clamped to the incoming
      constraints. It is within valid incoming constraints, is exactly
      content plus padding whenever that already fits, and otherwise the
      incoming maximum (too large) or minimum (too small) on each axis. */
  function OuterSize(c: Constraints, content: Size, widthDiff: int, heightDiff: int): (s: Size)
    ensures c.Valid() ==> c.Admits(s)
    ensures c.Admits(Size(content.width + widthDiff, content.height + heightDiff)) ==>
      s == Size(content.width + widthDiff, content.height + heightDiff)
    ensures content.width + widthDiff > c.maxWidth ==> s.width == c.maxWidth
    ensures content.height + heightDiff > c.maxHeight ==> s.height == c.maxHeight
    ensures c.Valid() && content.width + widthDiff < c.minWidth ==> s.width == c.minWidth
    ensures c.Valid() && content.height + heightDiff < c.minHeight ==> s.height == c.minHeight
  {
    Size(
      FastCoerceIn(content.width + widthDiff, c.minWidth, c.maxWidth),
      FastCoerceIn(content.height + heightDiff, c.minHeight, c.maxHeight))
  }

  /** One layout pass of the padding modifier in layout direction `dir`. */
  function MeasurePadded(p: PaddingValues, dir: LayoutDirection, roundToPx: Dp -> int,
                         c: Constraints, measure: Constraints -> Size): (l: PaddedLayout)
    ensures l.inner.Valid()
    ensures l.inner == InnerConstraints(c, HorizontalPaddingPx(p, dir, roundToPx), roundToPx(p.top + p.bottom))
    ensures c.Valid() ==> c.Admits(l.size)
    ensures l.size == OuterSize(c, measure(l.inner), HorizontalPaddingPx(p, dir, roundToPx), roundToPx(p.top + p.bottom))
    ensures l.placeX == roundToPx(StartPadding(p, dir)) && l.placeY == roundToPx(p.top)
  {
    var widthDiff := HorizontalPaddingPx(p, dir, roundToPx);
    var heightDiff := roundToPx(p.top + p.bottom);
    var inner := InnerConstraints(c, widthDiff, heightDiff);
    var content := measure(inner);
    PaddedLayout(
      inner,
      OuterSize(c, content, widthDiff, heightDiff),
      roundToPx(StartPadding(p, dir)),
      roundToPx(p.top))
  }

  /** When the content's size plus the padding fits the incoming constraints,
      the padded box reports exactly that size. */
  lemma FittingContentKeepsItsSize(p: PaddingValues, dir: LayoutDirection, roundToPx: Dp -> int,
                                   c: Constraints, measure: Constraints -> Size)
    requires
      var l := MeasurePadded(p, dir, roundToPx, c, measure);
      c.Admits(Size(measure(l.inner).width + HorizontalPaddingPx(p, dir, roundToPx),
                    measure(l.inner).height + roundToPx(p.top + p.bottom)))
    ensures
      var l := MeasurePadded(p, dir, roundToPx, c, measure);
      l.size == Size(measure(l.inner).width + HorizontalPaddingPx(p, dir, roundToPx),
                     measure(l.inner).height + roundToPx(p.top + p.bottom))
  {
  }

  /** The content is placed at the start padding as the toolkit resolves it
      for the layout direction; for a relative padding that is its `start`
      edge in both directions. */
  lemma RelativePlacementUsesStart(p: PaddingValues, dir: LayoutDirection, roundToPx: Dp -> int,
                                   c: Constraints, measure: Constraints -> Size)
    requires p.Relative?
    ensures MeasurePadded(p, dir, roundToPx, c, measure).placeX == roundToPx(p.start)
  {
  }

  /** With zero padding (and a density conversion that maps 0 dp to 0 px)
      the content is measured under the incoming constraints, placed at the
      origin, and its own size is reported when the constraints admit it. */
  lemma ZeroPaddingIsTransparent(dir: LayoutDirection, roundToPx: Dp -> int,
                                 c: Constraints, measure: Constraints -> Size)
    requires roundToPx(0.0) == 0 && c.Valid()
    ensures
      var l := MeasurePadded(Zero, dir, roundToPx, c, measure);
      l.inner == c && l.placeX == 0 && l.placeY == 0 &&
      (c.Admits(measure(c)) ==> l.size == measure(c))
  {
    assert HorizontalPaddingPx(Zero, dir, roundToPx) == 0 by {
      assert LeftPadding(Zero, dir) + RightPadding(Zero, dir) == 0.0;
    }
    assert Zero.top + Zero.bottom == 0.0;
  }
}
