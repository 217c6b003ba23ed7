/** The decision rules of `ExpandableBox`: which targets and spring
    stiffnesses its animated cells are given, the "local progress" each of the
    two children derives from the transition value, and how the box is
    measured and which child it places. The animated values themselves are
    advanced by the toolkit's animation runtime and enter here as inputs. */
module ExpandableBox {
  import opened Toolkit
  import opened Fractions
  import PredictiveBack

  /** `spring(dampingRatio, stiffness, visibilityThreshold)`. */
  datatype SpringSpec = SpringSpec(dampingRatio: real, stiffness: real, visibilityThreshold: real)

  /** Every spring of the box is critically damped with the same threshold. */
  function Spring(stiffness: real): SpringSpec {
    SpringSpec(1.0, stiffness, 0.00000001)
  }

  /** An animated value cell: the spring it animates with and the target it
      animates toward. */
  datatype Cell = Cell(spec: SpringSpec, target: real)

  /** The target of the open/close animation: 1 when expanded, 0 when collapsed. */
  function NominalTarget(expanded: bool): (r: real)
    ensures expanded <==> r == 1.0
    ensures !expanded <==> r == 0.0
  {
    if expanded then 1.0 else 0.0
  }

  /** The cells that drive the transition value. With a back callback there
      are three: the tracker (enabled only while expanded), the open/close cell,
      the predictive cell following the gesture's progress scaled by 0.6, and
      the displayed cell following the clamped difference of the current
      values of the other two. Without a callback the displayed cell follows
      the open/close target directly. */
  datatype TransitionCells =
    | WithBack(trackerEnabled: bool, raw: Cell, predictive: Cell, displayed: Cell)
    | WithoutBack(displayed: Cell)

  /** The cells for the current `state()`, tracker state and current values
      of the open/close and predictive cells. The displayed target always lies
      in [0, 1]. */
  function Cells(hasOnBack: bool, expanded: bool, gesture: PredictiveBack.BackSnapshot,
                 rawValue: real, predictiveValue: real): (cells: TransitionCells)
    ensures cells.WithBack? <==> hasOnBack
    ensures 0.0 <= cells.displayed.target <= 1.0
    ensures hasOnBack ==> cells.trackerEnabled == expanded
    ensures hasOnBack ==> cells.raw.target == NominalTarget(expanded)
    ensures hasOnBack ==> cells.predictive.target == gesture.progress * 0.6
    ensures hasOnBack && 0.0 <= rawValue - predictiveValue <= 1.0 ==>
      cells.displayed.target == rawValue - predictiveValue
    ensures hasOnBack && rawValue - predictiveValue < 0.0 ==> cells.displayed.target == 0.0
    ensures hasOnBack && rawValue - predictiveValue > 1.0 ==> cells.displayed.target == 1.0
    ensures !hasOnBack ==> cells.displayed.target == NominalTarget(expanded)
  {
    if hasOnBack then
      WithBack(
        expanded,
        Cell(Spring(if expanded then 250.0 else 300.0), NominalTarget(expanded)),
        Cell(Spring(if PredictiveBack.Dragged(gesture) then 15000.0 else 300.0), gesture.progress * 0.6),
        Cell(Spring(15000.0), CoerceIn(rawValue - predictiveValue, 0.0, 1.0)))
    else
      WithoutBack(Cell(Spring(if expanded then 300.0 else 400.0), NominalTarget(expanded)))
  }

  /** The stiffness of every cell: with a callback 250 while expanding and
      300 while collapsing for the open/close cell, 15000 while dragged and
      300 otherwise for the predictive cell, 15000 for the displayed cell;
      without one 300 while expanding and 400 while collapsing. In both
      modes opening is the softer motion. */
  lemma Stiffnesses(expanded: bool, gesture: PredictiveBack.BackSnapshot, rawValue: real, predictiveValue: real)
    ensures var c := Cells(true, expanded, gesture, rawValue, predictiveValue);
      c.raw.spec == Spring(if expanded then 250.0 else 300.0) &&
      c.predictive.spec == Spring(if PredictiveBack.Dragged(gesture) then 15000.0 else 300.0) &&
      c.displayed.spec == Spring(15000.0)
    ensures Cells(false, expanded, gesture, rawValue, predictiveValue).displayed.spec ==
      Spring(if expanded then 300.0 else 400.0)
    ensures forall hasOnBack: bool ::
      NominalStiffness(hasOnBack, true, gesture) < NominalStiffness(hasOnBack, false, gesture)
  {
  }

  /** The stiffness of the cell that follows the open/close target. */
  function NominalStiffness(hasOnBack: bool, expanded: bool, gesture: PredictiveBack.BackSnapshot): real {
    match Cells(hasOnBack, expanded, gesture, 0.0, 0.0)
    case WithBack(_, raw, _, _) => raw.spec.stiffness
    case WithoutBack(displayed) => displayed.spec.stiffness
  }

  /** Once no gesture pulls and the open/close cell has settled, the box with
      a back callback aims at the same transition value as the box without. */
  lemma SettledMatchesPlainBox(expanded: bool, gesture: PredictiveBack.BackSnapshot)
    ensures Cells(true, expanded, gesture, NominalTarget(expanded), 0.0).displayed.target ==
      Cells(false, expanded, gesture, NominalTarget(expanded), 0.0).displayed.target
  {
  }

  /** A gesture can only pull the displayed transition toward collapsed: for
      an open/close value in [0, 1] and a non-negative predictive value the
      displayed target never exceeds the open/close value. */
  lemma GesturePullsTowardCollapsed(expanded: bool, gesture: PredictiveBack.BackSnapshot,
                                    rawValue: real, predictiveValue: real)
    requires 0.0 <= rawValue <= 1.0 && 0.0 <= predictiveValue
    ensures Cells(true, expanded, gesture, rawValue, predictiveValue).displayed.target <= rawValue
  {
  }

  /** A back gesture's progress in [0, 1] moves the predictive target within
      [0, 0.6]. */
  lemma PredictiveTargetRange(expanded: bool, gesture: PredictiveBack.BackSnapshot, rawValue: real, predictiveValue: real)
    requires 0.0 <= gesture.progress <= 1.0
    ensures 0.0 <= Cells(true, expanded, gesture, rawValue, predictiveValue).predictive.target <= 0.6
  {
  }

  /** The collapsed child's local progress: the amplitude of `1 - t` when
      `1 - t` is past one half, otherwise 0. */
  function CollapsedProgress(t: real): (p: real)
    ensures 0.0 <= p <= 1.0
    ensures p != 0.0 ==> t < 0.5
    ensures t < 0.5 ==> p == AmplitudeFractional(1.0 - t)
  {
    var progress := 1.0 - t;
    if progress > 0.5 then AmplitudeFractional(progress) else 0.0
  }

  /** The expanded child's local progress: the amplitude of `t` when `t` is
      past one half, otherwise 0. */
  function ExpandedProgress(t: real): (p: real)
    ensures 0.0 <= p <= 1.0
    ensures p != 0.0 ==> t > 0.5
    ensures t > 0.5 ==> p == AmplitudeFractional(t)
  {
    if t > 0.5 then AmplitudeFractional(t) else 0.0
  }

  /** At most one child has a non-zero local progress, both are 0 half way,
      and the collapsed child's progress is the expanded child's mirrored. */
  lemma LocalProgressesExclude(t: real)
    ensures CollapsedProgress(t) == 0.0 || ExpandedProgress(t) == 0.0
    ensures CollapsedProgress(0.5) == 0.0 && ExpandedProgress(0.5) == 0.0
    ensures CollapsedProgress(t) == ExpandedProgress(1.0 - t)
  {
  }

  /** As the box opens the expanded child's local progress never drops, and
      the collapsed child's never rises. */
  lemma LocalProgressMonotone(t1: real, t2: real)
    requires t1 <= t2
    ensures ExpandedProgress(t1) <= ExpandedProgress(t2)
    ensures CollapsedProgress(t2) <= CollapsedProgress(t1)
  {
    if t1 > 0.5 {
      AmplitudeRisesAfterHalf(t1, t2);
    }
    if 1.0 - t2 > 0.5 {
      AmplitudeRisesAfterHalf(1.0 - t2, 1.0 - t1);
    }
  }

  datatype Child = CollapsedChild | ExpandedChild

  /** The box's layout: its size and the one child it places, at the origin. */
  datatype BoxLayout = BoxLayout(size: Size, placed: Child, placeX: int, placeY: int)

  /** The child that is placed: the expanded one from one half on. */
  function PlacedChild(t: real): (c: Child)
    ensures c == ExpandedChild <==> t >= 0.5
  {
    if t >= 0.5 then ExpandedChild else CollapsedChild
  }

  /** One layout pass: both children are measured under the box's own
      constraints, the box takes the size interpolated between theirs by the
      transition value, and places one child at the origin. */
  function MeasureBox(c: Constraints, measureCollapsed: Constraints -> Size,
                      measureExpanded: Constraints -> Size, t: real): (b: BoxLayout)
    ensures b.placed == PlacedChild(t) && b.placeX == 0 && b.placeY == 0
    ensures b.size == Size(LerpInt(measureCollapsed(c).width, measureExpanded(c).width, t),
                           LerpInt(measureCollapsed(c).height, measureExpanded(c).height, t))
    ensures t == 0.0 ==> b.size == measureCollapsed(c)
    ensures t == 1.0 ==> b.size == measureExpanded(c)
  {
    var collapsed := measureCollapsed(c);
    var expanded := measureExpanded(c);
    BoxLayout(
      Size(LerpInt(collapsed.width, expanded.width, t), LerpInt(collapsed.height, expanded.height, t)),
      PlacedChild(t), 0, 0)
  }

  /** For a transition value in [0, 1] the box's width and height lie between
      the two children's, so the box keeps to any constraints both children
      keep to. */
  lemma BoxSizeBetweenChildren(c: Constraints, measureCollapsed: Constraints -> Size,
                               measureExpanded: Constraints -> Size, t: real)
    requires 0.0 <= t <= 1.0
    ensures var b, lo, hi := MeasureBox(c, measureCollapsed, measureExpanded, t), measureCollapsed(c), measureExpanded(c);
      Min(lo.width, hi.width) <= b.size.width <= Max(lo.width, hi.width) &&
      Min(lo.height, hi.height) <= b.size.height <= Max(lo.height, hi.height)
    ensures c.Admits(measureCollapsed(c)) && c.Admits(measureExpanded(c)) ==>
      c.Admits(MeasureBox(c, measureCollapsed, measureExpanded, t).size)
  {
  }

  /** The child that is not placed always has local progress 0, so only the
      placed child can show its "pop". */
  lemma HiddenChildIsAtRest(c: Constraints, measureCollapsed: Constraints -> Size,
                            measureExpanded: Constraints -> Size, t: real)
    ensures MeasureBox(c, measureCollapsed, measureExpanded, t).placed == CollapsedChild ==> ExpandedProgress(t) == 0.0
    ensures MeasureBox(c, measureCollapsed, measureExpanded, t).placed == ExpandedChild ==> CollapsedProgress(t) == 0.0
  {
  }
}
