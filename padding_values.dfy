/** The `plus` and `minus` operators on padding values. Both resolve start and
    end against a fixed left-to-right direction and combine the four edges
    one by one; the result is a direction-relative padding. */
module Padding {
  import opened Toolkit

  datatype LayoutDirection = Ltr | Rtl

  /** The toolkit's padding values: relative ones (`PaddingValues(start, top,
      end, bottom)`) whose start and end follow the layout direction, and
      absolute ones (`PaddingValues.Absolute(left, top, right, bottom)`). */
  datatype PaddingValues =
    | Relative(start: Dp, top: Dp, end: Dp, bottom: Dp)
    | Absolute(left: Dp, top: Dp, right: Dp, bottom: Dp)

  const Zero: PaddingValues := Relative(0.0, 0.0, 0.0, 0.0)

  /** `calculateLeftPadding(direction)`. */
  function LeftPadding(p: PaddingValues, dir: LayoutDirection): Dp {
    match p
    case Relative(start, _, end, _) => if dir == Ltr then start else end
    case Absolute(left, _, _, _) => left
  }

  /** `calculateRightPadding(direction)`. */
  function RightPadding(p: PaddingValues, dir: LayoutDirection): Dp {
    match p
    case Relative(start, _, end, _) => if dir == Ltr then end else start
    case Absolute(_, _, right, _) => right
  }

  /** `calculateStartPadding(direction)`: the left edge in a left-to-right
      layout, the right edge otherwise. */
  function StartPadding(p: PaddingValues, dir: LayoutDirection): Dp {
    if dir == Ltr then LeftPadding(p, dir) else RightPadding(p, dir)
  }

  /** `calculateEndPadding(direction)`. */
  function EndPadding(p: PaddingValues, dir: LayoutDirection): Dp {
    if dir == Ltr then RightPadding(p, dir) else LeftPadding(p, dir)
  }

  /** `padding + other`: every edge of the result is the sum of the two
      operands' edges, start and end read left to right, whatever direction
      the result is later resolved in. */
  function Plus(a: PaddingValues, b: PaddingValues): (r: PaddingValues)
    ensures r.Relative?
    ensures forall dir :: StartPadding(r, dir) == StartPadding(a, Ltr) + StartPadding(b, Ltr)
    ensures forall dir :: EndPadding(r, dir) == EndPadding(a, Ltr) + EndPadding(b, Ltr)
    ensures r.top == a.top + b.top && r.bottom == a.bottom + b.bottom
  {
    Relative(
      StartPadding(a, Ltr) + StartPadding(b, Ltr),
      a.top + b.top,
      EndPadding(a, Ltr) + EndPadding(b, Ltr),
      a.bottom + b.bottom)
  }

  /** `padding - other`: every edge of the result is the difference of the
      operands' edges, start and end read left to right. */
  function Minus(a: PaddingValues, b: PaddingValues): (r: PaddingValues)
    ensures r.Relative?
    ensures forall dir :: StartPadding(r, dir) == StartPadding(a, Ltr) - StartPadding(b, Ltr)
    ensures forall dir :: EndPadding(r, dir) == EndPadding(a, Ltr) - EndPadding(b, Ltr)
    ensures r.top == a.top - b.top && r.bottom == a.bottom - b.bottom
  {
    Relative(
      StartPadding(a, Ltr) - StartPadding(b, Ltr),
      a.top - b.top,
      EndPadding(a, Ltr) - EndPadding(b, Ltr),
      a.bottom - b.bottom)
  }

  /** The edges of `p` read left to right, as a relative padding. */
  function ResolvedLtr(p: PaddingValues): (r: PaddingValues)
    ensures r.Relative?
    ensures p.Relative? ==> r == p
  {
    Relative(StartPadding(p, Ltr), p.top, EndPadding(p, Ltr), p.bottom)
  }

  /** Subtracting what was added gives back every edge of the first operand. */
  lemma PlusThenMinusCancels(a: PaddingValues, b: PaddingValues)
    ensures Minus(Plus(a, b), b) == ResolvedLtr(a)
    ensures a.Relative? ==> Minus(Plus(a, b), b) == a
  {
  }

  /** Adding paddings is commutative and associative, and the zero padding
      is its identity (up to reading start and end left to right). */
  lemma PlusIsCommutativeMonoid(a: PaddingValues, b: PaddingValues, c: PaddingValues)
    ensures Plus(a, b) == Plus(b, a)
    ensures Plus(Plus(a, b), c) == Plus(a, Plus(b, c))
    ensures Plus(a, Zero) == ResolvedLtr(a) && Plus(Zero, a) == ResolvedLtr(a)
  {
  }

  /** The horizontal total is the same read left and right or start and end,
      in either direction. */
  lemma HorizontalTotal(p: PaddingValues, dir: LayoutDirection)
    ensures LeftPadding(p, dir) + RightPadding(p, dir) == StartPadding(p, dir) + EndPadding(p, dir)
  {
  }

  /** For relative operands the fixed left-to-right reading is harmless: the
      sum's edges in any direction are the sums of the operands' edges in
      that direction. */
  lemma RelativePlusFollowsDirection(a: PaddingValues, b: PaddingValues, dir: LayoutDirection)
    requires a.Relative? && b.Relative?
    ensures LeftPadding(Plus(a, b), dir) == LeftPadding(a, dir) + LeftPadding(b, dir)
    ensures RightPadding(Plus(a, b), dir) == RightPadding(a, dir) + RightPadding(b, dir)
  {
  }

  /** For absolute operands it is not: in a right-to-left layout the sum's
      left edge is the sum of the operands' right edges. */
  lemma AbsolutePlusMirrorsInRtl(a: PaddingValues, b: PaddingValues)
    requires a.Absolute? && b.Absolute?
    ensures LeftPadding(Plus(a, b), Rtl) == a.right + b.right
    ensures RightPadding(Plus(a, b), Rtl) == a.left + b.left
  {
  }
}
