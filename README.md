# compose-extensions: a verified model of its arithmetic and state rules

This project models the parts of the compose-extensions library that are
plain rules rather than toolkit glue, and proves properties of them in Dafny:

- `fractionify`: maps a value to its fraction `(value - from) / (to - from)` of a
  range. It returns 0 for equal endpoints and clamps to [0, 1] when `bounded`.
  The Int, Float, Double and Dp overloads and the range overloads are all
  modelled, and so is `amplitudeFractional`, the curve `(2x - 1)^2` clamped to
  [0, 1] (module `Fractions`).
- `PaddingValues.plus` and `minus`: edge-wise sum and difference, with start and
  end read left to right (module `Padding`).
- `VRoundedCornerShape` and `HRoundedCornerShape`, Dp and `Int` forms. An `Int`
  passed to the toolkit's `CornerSize` selects its `percent` overload, so the
  `Int` forms make percentage corners and refuse values outside 0..100
  (module `RoundedCorners`).
- The layout rule of `Modifier.padding(padding: () -> PaddingValues)`: the
  content's constraints, the reported size and the placement
  (module `AnimatedPadding`).
- `PredictiveBackState`, together with the gesture handler that
  `onPredictiveBack` registers. The state is a class with three mutable fields.
  The handler is a method with a loop, proved against a specification
  function (module `PredictiveBack`).
- The decision rules of `ExpandableBox`:
  - the target and spring of every animated cell;
  - the local progress of each child;
  - the interpolated box size and which child is placed.

  The animated values are inputs (module `ExpandableBox`).

Module `Toolkit` holds the host toolkit's value types (`Dp`, `Offset`,
`Constraints`, `Size`) and the helpers the library calls. The helpers are
`coerceIn`, `fastCoerceAtLeast`, `fastCoerceIn`, `lerp(Int, Int, Float)` and
Kotlin's 32-bit `Int` wrap-around.

Modelling choices:
- Float, Double and Dp are exact reals.
- Dafny has no overloading, so each overload has its own name.
  - The Float and Double overloads of `fractionify` are the same rule on reals,
    `Fractions.Fractionify`.
  - `FractionifyDp` has its own function, because its type and its default differ.
- Parameter defaults are kept as Dafny default parameter values.
- `roundToPx` (density conversion) and each child's `measure` come from the
  toolkit. They are function parameters.
- A back gesture is a finite sequence of events followed by its outcome:
  committed (the flow completes) or cancelled (a `CancellationException`).
  - `firstOrNull` at line 97 consumes the first event.
  - The model reads the `collect` loop at line 99 as receiving the remaining
    events only, each once. This is a chosen reading of the host's flow, which
    the source does not define (see "## Left out").
  - Each call of `onBack` is recorded as a snapshot of the state at the moment
    of the call (`HandleGesture` returns the list).
- Where the doc comments and the code disagree, the code is followed:
  - The doc comments of the Int, Double and Float endpoint overloads
    (fractionify.kt lines 16, 61 and 106) say that `bounded` defaults to false.
    The code defaults it to true. Only the Dp endpoint overload defaults to false.
- PaddingValues.kt defines only `plus` and `minus`; no padding interpolation is
  modelled.

## Model

| member | source | states |
|---|---|---|
| `Toolkit.Wrap32` | compose-extensions/src/main/java/com/somnionocte/compose_extensions/fractionify.kt:28 | a Kotlin `Int` result is the exact value modulo 2^32 in the `Int` range, and is the exact value when that fits |
| `Toolkit.LerpInt` | compose-extensions/src/main/java/com/somnionocte/compose_extensions/ExpandableBox.kt:84-85 | `lerp(start, stop, t)` is the integer nearest the exact interpolation `start + (stop - start) * t`, halves rounded up: `start` at 0, `stop` at 1, and a value between the two for t in [0, 1] |
| `Toolkit.CoerceIn` | compose-extensions/src/main/java/com/somnionocte/compose_extensions/fractionify.kt:29 | `coerceIn(lo, hi)` lies in [lo, hi], is the input inside it, `lo` below it and `hi` above it |
| `Toolkit.CoerceAtLeast` | compose-extensions/src/main/java/com/somnionocte/compose_extensions/AnimatedPadding.kt:22-29 | `fastCoerceAtLeast(min)` is at least both `min` and the input, and is one of the two |
| `Toolkit.RoundHalfUp` | compose-extensions/src/main/java/com/somnionocte/compose_extensions/ExpandableBox.kt:84-85 | the rounding inside `lerp` gives the integer within half a unit of the input, halves rounded up |
| `Toolkit.FastCoerceIn` | compose-extensions/src/main/java/com/somnionocte/compose_extensions/AnimatedPadding.kt:33-34 | the result never exceeds max, is at least min when min <= max, is the input when the input already lies in [min, max], is max for an input above max, and is min for an input below min when min <= max |
| `Fractions.Fractionify` | compose-extensions/src/main/java/com/somnionocte/compose_extensions/fractionify.kt:110-120 | Float overload, and the Double one at lines 65-75. Equal endpoints give 0. A bounded result lies in [0, 1]. The result is `(value-from)/(to-from)` when unbounded, or when that quotient is already in [0, 1]. For distinct endpoints `from` maps to 0 and `to` to 1 |
| `Fractions.BoundedIsClampedUnbounded` | compose-extensions/src/main/java/com/somnionocte/compose_extensions/fractionify.kt:118-119 | the bounded result is the unbounded one clamped to [0, 1] |
| `Fractions.MonotoneInValue` | compose-extensions/src/main/java/com/somnionocte/compose_extensions/fractionify.kt:118-119 | for from < to the result, bounded or not, never decreases as the value grows |
| `Fractions.AntitoneInValue` | compose-extensions/src/main/java/com/somnionocte/compose_extensions/fractionify.kt:118-119 | for from > to the result never increases as the value grows |
| `Fractions.FractionifyDp` | compose-extensions/src/main/java/com/somnionocte/compose_extensions/fractionify.kt:154-164 | the Dp overload, which takes its differences in Dp, equals the rule on reals applied to the Dp values; `bounded` defaults to false |
| `Fractions.FractionifyIntAsWritten` | compose-extensions/src/main/java/com/somnionocte/compose_extensions/fractionify.kt:20-30 | the Int overload with 32-bit subtractions. Equal endpoints give 0, a bounded result lies in [0, 1], and for distinct endpoints `from` maps to 0 and `to` to 1 even when the differences wrap. When neither difference wraps it equals the exact rule |
| `Fractions.IntAsWrittenBoundedIsClamped` | compose-extensions/src/main/java/com/somnionocte/compose_extensions/fractionify.kt:28-29 | as written, the bounded Int result is the unbounded one clamped to [0, 1], whether or not the differences wrap |
| `Fractions.IntWrapCounterexample` | compose-extensions/src/main/java/com/somnionocte/compose_extensions/fractionify.kt:28 | the input value 0, from Int.MIN_VALUE, to Int.MAX_VALUE. As written: 2147483648 unbounded and 1 bounded. Exact rule: about 0.5 |
| `Fractions.FractionifyInt` | compose-extensions/src/main/java/com/somnionocte/compose_extensions/fractionify.kt:20-30 | the Int overload with exact differences equals the rule on reals applied to the integers |
| `Fractions.IntInsideRangeIsExactPosition` | compose-extensions/src/main/java/com/somnionocte/compose_extensions/fractionify.kt:28-29 | for from < to, every value between the endpoints maps to its exact position, which lies in [0, 1], bounded or not |
| `Fractions.FractionifyIntRange` | compose-extensions/src/main/java/com/somnionocte/compose_extensions/fractionify.kt:43-47 | IntRange overload. A one-element range gives 0, a bounded result lies in [0, 1], `first` maps to 0 and `last` to 1 |
| `Fractions.FractionifyRange` | compose-extensions/src/main/java/com/somnionocte/compose_extensions/fractionify.kt:88-92 | the Double range overload, and the Float one at lines 133-137. They have the same guarantees on `start` and `endInclusive` |
| `Fractions.FractionifyDpRange` | compose-extensions/src/main/java/com/somnionocte/compose_extensions/fractionify.kt:177-181 | Dp range overload: the same guarantees, bounded by default |
| `Fractions.RangeOverloadsDelegate` | compose-extensions/src/main/java/com/somnionocte/compose_extensions/fractionify.kt:43-47 | every range overload equals its endpoint overload on the range's bounds (also lines 88-92, 133-137, 177-181) |
| `Fractions.BoundedDefaults` | compose-extensions/src/main/java/com/somnionocte/compose_extensions/fractionify.kt:20-181 | `bounded` defaults to true everywhere except the Dp endpoint overload. So Dp 2 in 0..1 gives 2 from the endpoint overload and 1 from the range overload |
| `Fractions.AmplitudeFractional` | compose-extensions/src/main/java/com/somnionocte/compose_extensions/fractionify.kt:196 | the amplitude always lies in [0, 1], and equals `(2x-1)^2` for x in [0, 1] |
| `Fractions.AmplitudeEndpoints` | compose-extensions/src/main/java/com/somnionocte/compose_extensions/fractionify.kt:186-187 | amplitude of 0 and of 1 is 1; amplitude of 0.5 is 0 |
| `Fractions.AmplitudeSymmetric` | compose-extensions/src/main/java/com/somnionocte/compose_extensions/fractionify.kt:196 | amplitude(x) == amplitude(1 - x) for every x |
| `Fractions.AmplitudeRisesAfterHalf` | compose-extensions/src/main/java/com/somnionocte/compose_extensions/fractionify.kt:196 | from 0.5 upwards the amplitude never decreases |
| `Padding.Plus` | compose-extensions/src/main/java/com/somnionocte/compose_extensions/PaddingValues.kt:8-16 | the sum is a relative padding. Its top and bottom are the sums of the operands'. Its start and end, in every layout direction, are the sums of the operands' start and end read left to right |
| `Padding.Minus` | compose-extensions/src/main/java/com/somnionocte/compose_extensions/PaddingValues.kt:18-26 | the same, edge by edge, with differences |
| `Padding.PlusThenMinusCancels` | compose-extensions/src/main/java/com/somnionocte/compose_extensions/PaddingValues.kt:8-26 | `(a + b) - b` has every edge of `a` read left to right, and is `a` itself for a relative `a` |
| `Padding.PlusIsCommutativeMonoid` | compose-extensions/src/main/java/com/somnionocte/compose_extensions/PaddingValues.kt:8-16 | `plus` is commutative and associative; zero padding is its identity, up to the left-to-right reading |
| `Padding.RelativePlusFollowsDirection` | compose-extensions/src/main/java/com/somnionocte/compose_extensions/PaddingValues.kt:9-13 | for two relative paddings, the sum's left and right edges in any direction are the sums of the operands' |
| `Padding.AbsolutePlusMirrorsInRtl` | compose-extensions/src/main/java/com/somnionocte/compose_extensions/PaddingValues.kt:9-13 | for two absolute paddings in a right-to-left layout, the sum's left edge is the sum of the operands' right edges, because of the fixed left-to-right reading |
| `Padding.HorizontalTotal` | compose-extensions/src/main/java/com/somnionocte/compose_extensions/AnimatedPadding.kt:15-17 | left + right equals start + end in either direction |
| `RoundedCorners.VRoundedCornerShapeDp` | compose-extensions/src/main/java/com/somnionocte/compose_extensions/RoundedCornerShape.kt:16-24 | the shape is unchanged by swapping start and end; its top corners are `top` and its bottom corners `bottom`, as Dp corners |
| `RoundedCorners.VRoundedCornerShapePercent` | compose-extensions/src/main/java/com/somnionocte/compose_extensions/RoundedCornerShape.kt:35-43 | the `Int` overload as written: built exactly when both radii lie in 0..100, otherwise refused; the shape is unchanged by swapping start and end, with top corners `top` percent and bottom corners `bottom` percent |
| `RoundedCorners.VRoundedCornerShapePx` | compose-extensions/src/main/java/com/somnionocte/compose_extensions/RoundedCornerShape.kt:26-43 | the `Int` overload as its doc comment describes it: accepted for every `Int`, unchanged by swapping start and end, top corners `top` pixels and bottom corners `bottom` pixels |
| `RoundedCorners.HRoundedCornerShapeDp` | compose-extensions/src/main/java/com/somnionocte/compose_extensions/RoundedCornerShape.kt:54-62 | the shape is unchanged by swapping top and bottom; its start corners are `start` and its end corners `end`, as Dp corners |
| `RoundedCorners.HRoundedCornerShapePercent` | compose-extensions/src/main/java/com/somnionocte/compose_extensions/RoundedCornerShape.kt:73-81 | the `Int` overload as written: built exactly when both radii lie in 0..100, otherwise refused; the shape is unchanged by swapping top and bottom, with start corners `start` percent and end corners `end` percent |
| `RoundedCorners.HRoundedCornerShapePx` | compose-extensions/src/main/java/com/somnionocte/compose_extensions/RoundedCornerShape.kt:64-81 | the `Int` overload as its doc comment describes it: accepted for every `Int`, unchanged by swapping top and bottom, start corners `start` pixels and end corners `end` pixels |
| `RoundedCorners.IntRadiiArePercentages` | compose-extensions/src/main/java/com/somnionocte/compose_extensions/RoundedCornerShape.kt:39 | `VRoundedCornerShape(16, 16)` as written resolves to a 7.68-pixel radius on a 48-pixel square, where the documented pixel form gives 16; a radius of 150 is refused by both `Int` overloads |
| `RoundedCorners.PixelRadiiIgnoreShapeSize` | compose-extensions/src/main/java/com/somnionocte/compose_extensions/RoundedCornerShape.kt:26-29 | the documented pixel forms give each corner exactly its `Int` radius in pixels, whatever the shape's size or the density |
| `RoundedCorners.SwappingRadii` | compose-extensions/src/main/java/com/somnionocte/compose_extensions/RoundedCornerShape.kt:16-81 | turning a vertical shape upside down swaps its radii; mirroring a horizontal shape swaps its radii. This holds for Dp, pixel and (when built) percentage corners |
| `RoundedCorners.EqualRadiiAreUniform` | compose-extensions/src/main/java/com/somnionocte/compose_extensions/RoundedCornerShape.kt:16-81 | with equal radii the vertical and horizontal builders give the same result, four corners of that radius (Dp, pixel and percentage forms, a shared refusal for out-of-range percentages) |
| `RoundedCorners.OverloadsShareArrangement` | compose-extensions/src/main/java/com/somnionocte/compose_extensions/RoundedCornerShape.kt:16-81 | Dp builders make only Dp corners, the `Int` builders only percentage corners and the pixel forms only pixel corners. Given the same numbers, the corners' magnitudes match position by position |
| `AnimatedPadding.HorizontalPaddingPx` | compose-extensions/src/main/java/com/somnionocte/compose_extensions/AnimatedPadding.kt:15-17 | the horizontal total in pixels is the rounded start + end, in either direction |
| `AnimatedPadding.InnerConstraints` | compose-extensions/src/main/java/com/somnionocte/compose_extensions/AnimatedPadding.kt:22-30 | the content's constraints are always valid. Each minimum is the incoming one minus the padding, or 0 when that is negative. Each maximum is the incoming one minus the padding, or the new minimum when that is smaller. For valid incoming constraints the maximum is exactly the shrunk one whenever the padding fits under it |
| `AnimatedPadding.OuterSize` | compose-extensions/src/main/java/com/somnionocte/compose_extensions/AnimatedPadding.kt:32-34 | the reported size lies within valid incoming constraints. On each axis it is exactly content + padding when that fits, the incoming maximum when that is larger, and the incoming minimum when that is smaller |
| `AnimatedPadding.MeasurePadded` | compose-extensions/src/main/java/com/somnionocte/compose_extensions/AnimatedPadding.kt:11-42 | one layout pass: the content's constraints are valid and are the incoming ones shrunk by the padding. The reported size is the content's size plus the padding, clamped to the incoming constraints. The content is placed at (rounded start, rounded top) |
| `AnimatedPadding.FittingContentKeepsItsSize` | compose-extensions/src/main/java/com/somnionocte/compose_extensions/AnimatedPadding.kt:32-34 | content size + padding that fits the incoming constraints is reported unchanged |
| `AnimatedPadding.RelativePlacementUsesStart` | compose-extensions/src/main/java/com/somnionocte/compose_extensions/AnimatedPadding.kt:36-39 | a relative padding places the content at x = the rounded `start` padding, measured from the left, in both directions (`place`, not `placeRelative`) |
| `AnimatedPadding.ZeroPaddingIsTransparent` | compose-extensions/src/main/java/com/somnionocte/compose_extensions/AnimatedPadding.kt:22-39 | with zero padding and valid constraints, the content is measured under the incoming constraints and placed at the origin. Its size is kept when the constraints admit it |
| `PredictiveBack.PredictiveBackState.constructor` | compose-extensions/src/main/java/com/somnionocte/compose_extensions/OnPredictiveBackHandler.kt:33-48 | a new tracker has zero start point, progress and offset |
| `PredictiveBack.PredictiveBackState.IsDragged` | compose-extensions/src/main/java/com/somnionocte/compose_extensions/OnPredictiveBackHandler.kt:27 | `isDragged` holds exactly when progress is not 0 |
| `PredictiveBack.PredictiveBackState.UpdateOffset` | compose-extensions/src/main/java/com/somnionocte/compose_extensions/OnPredictiveBackHandler.kt:57-59 | the offset becomes start point minus touch point; start point and progress are unchanged |
| `PredictiveBack.PredictiveBackState.Reset` | compose-extensions/src/main/java/com/somnionocte/compose_extensions/OnPredictiveBackHandler.kt:61-65 | all three fields become zero, so the tracker is not dragged |
| `PredictiveBack.HandleGesture` | compose-extensions/src/main/java/com/somnionocte/compose_extensions/OnPredictiveBackHandler.kt:95-108 | the in-place handler calls `onBack` and leaves the final state exactly as `Lifecycle` says for the state it started from |
| `PredictiveBack.Step` | compose-extensions/src/main/java/com/somnionocte/compose_extensions/OnPredictiveBackHandler.kt:99-102 | one collect step keeps the start point, copies the event's progress (so the tracker is dragged exactly when that is non-zero), and sets the offset to start point minus touch point |
| `PredictiveBack.Collect` | compose-extensions/src/main/java/com/somnionocte/compose_extensions/OnPredictiveBackHandler.kt:99-102 | collecting no events changes nothing; after collecting some, the progress is the last event's |
| `PredictiveBack.Track` | compose-extensions/src/main/java/com/somnionocte/compose_extensions/OnPredictiveBackHandler.kt:97-102 | no events leaves the state unchanged; otherwise the start point is the first event's touch point, whatever follows |
| `PredictiveBack.Lifecycle` | compose-extensions/src/main/java/com/somnionocte/compose_extensions/OnPredictiveBackHandler.kt:95-108 | `onBack` runs exactly once if the gesture is committed and never if it is cancelled; the tracker ends at zero and not dragged either way |
| `PredictiveBack.CollectKeepsStart` | compose-extensions/src/main/java/com/somnionocte/compose_extensions/OnPredictiveBackHandler.kt:99-102 | the collect loop never changes the start point |
| `PredictiveBack.CollectReflectsLast` | compose-extensions/src/main/java/com/somnionocte/compose_extensions/OnPredictiveBackHandler.kt:99-102 | after collecting, the progress is the last event's, copied unclamped, and the offset is start point minus the last touch point |
| `PredictiveBack.TrackedState` | compose-extensions/src/main/java/com/somnionocte/compose_extensions/OnPredictiveBackHandler.kt:97-102 | no events: the state is unchanged. One event: only the start point is set, to its touch point. More: also the last event's progress and offset |
| `PredictiveBack.OnBackSeesLastEvent` | compose-extensions/src/main/java/com/somnionocte/compose_extensions/OnPredictiveBackHandler.kt:103-106 | a committed gesture with at least two events calls `onBack` once, before the reset, and that call sees the last event's progress and offset. A cancelled gesture of any length never calls it |
| `PredictiveBack.ThreeEventGesture` | compose-extensions/src/main/java/com/somnionocte/compose_extensions/OnPredictiveBackHandler.kt:95-108 | events (10,10,0), (15,12,0.3), (40,20,1), then commit: one `onBack` call seeing progress 1 and offset (-30,-10). Cancel: no call. Both end at zero |
| `ExpandableBox.NominalTarget` | compose-extensions/src/main/java/com/somnionocte/compose_extensions/ExpandableBox.kt:34 | the open/close target is 1 exactly when expanded and 0 exactly when collapsed |
| `ExpandableBox.Cells` | compose-extensions/src/main/java/com/somnionocte/compose_extensions/ExpandableBox.kt:31-42 | the displayed target always lies in [0, 1]. With `onBack`: the tracker is enabled only while expanded, and the predictive target is progress × 0.6. The displayed target is raw − predictive clamped to [0, 1]: that difference inside the range, 0 below it, 1 above it. Without `onBack`: the displayed target is the open/close target |
| `ExpandableBox.Stiffnesses` | compose-extensions/src/main/java/com/somnionocte/compose_extensions/ExpandableBox.kt:34-41 | stiffness 250/300 for the open/close cell, 15000/300 dragged/not for the predictive cell, 15000 for the displayed cell, 300/400 without `onBack`. Opening is softer than closing in both modes |
| `ExpandableBox.SettledMatchesPlainBox` | compose-extensions/src/main/java/com/somnionocte/compose_extensions/ExpandableBox.kt:34-41 | with no pull and a settled open/close cell, the box with `onBack` aims where the box without it does |
| `ExpandableBox.GesturePullsTowardCollapsed` | compose-extensions/src/main/java/com/somnionocte/compose_extensions/ExpandableBox.kt:39 | a non-negative predictive value never raises the displayed target above the open/close value |
| `ExpandableBox.PredictiveTargetRange` | compose-extensions/src/main/java/com/somnionocte/compose_extensions/ExpandableBox.kt:37 | gesture progress in [0, 1] gives a predictive target in [0, 0.6] |
| `ExpandableBox.CollapsedProgress` | compose-extensions/src/main/java/com/somnionocte/compose_extensions/ExpandableBox.kt:44-50 | the collapsed child's progress lies in [0, 1], is non-zero only for t < 0.5, and there equals amplitude(1 - t) |
| `ExpandableBox.ExpandedProgress` | compose-extensions/src/main/java/com/somnionocte/compose_extensions/ExpandableBox.kt:61-67 | the expanded child's progress lies in [0, 1], is non-zero only for t > 0.5, and there equals amplitude(t) |
| `ExpandableBox.LocalProgressesExclude` | compose-extensions/src/main/java/com/somnionocte/compose_extensions/ExpandableBox.kt:45-66 | at most one child's progress is non-zero; both are 0 at t = 0.5; the collapsed progress at t equals the expanded one at 1 - t |
| `ExpandableBox.LocalProgressMonotone` | compose-extensions/src/main/java/com/somnionocte/compose_extensions/ExpandableBox.kt:45-66 | as t grows the expanded child's progress never drops and the collapsed child's never rises |
| `ExpandableBox.PlacedChild` | compose-extensions/src/main/java/com/somnionocte/compose_extensions/ExpandableBox.kt:88-91 | the expanded child is placed exactly when t >= 0.5; otherwise the collapsed child |
| `ExpandableBox.MeasureBox` | compose-extensions/src/main/java/com/somnionocte/compose_extensions/ExpandableBox.kt:77-93 | both children are measured under the box's constraints, and exactly one child is placed, at the origin. At every t the box's width and height are `lerp` of the children's, so the box has the collapsed child's size at t = 0 and the expanded child's at t = 1 |
| `ExpandableBox.BoxSizeBetweenChildren` | compose-extensions/src/main/java/com/somnionocte/compose_extensions/ExpandableBox.kt:84-85 | for t in [0, 1] the box's width and height lie between the children's, so the box keeps to constraints that both children keep to |
| `ExpandableBox.HiddenChildIsAtRest` | compose-extensions/src/main/java/com/somnionocte/compose_extensions/ExpandableBox.kt:45-91 | the child that is not placed always has local progress 0 |

## Left out

- animatable.kt (`animatableAs`) is not part of this model. It is coroutine and
  snapshot machinery around the toolkit's animation runtime. The animated
  values `ExpandableBox` reads enter the model as inputs.
- Spring physics, damping and timing: only the targets and the spring
  parameters chosen are modelled. Nothing is claimed about how the animated
  value moves toward them.
- GraphicsLayer.kt, getScreenRadius.kt, clearFocusOnTap.kt and the build
  script are not part of this model. They only set toolkit layer fields, query
  the platform display, or wire gestures and focus.
- Floating point is idealised as exact reals:
  - no `toFloat`/`toDouble` rounding;
  - no NaN or infinities;
  - so `(a + b) - b == a` holds exactly.
- `roundToPx` and each child's `measure` are function parameters. The model
  does not assume that a measured size respects the constraints it was
  measured under.
- AnimatedPadding.kt, `Constraints.Infinity`: the pixel arithmetic uses
  unbounded integers. A maximum of `Int.MAX_VALUE` minus a negative padding
  would wrap in Kotlin; the model does not wrap there. An unbounded incoming
  maximum (`Constraints.Infinity`) minus a positive padding at lines 27 and 29
  becomes a very large finite maximum; the model, like the source, treats it
  as a plain number, and whether the toolkit's `Constraints` can represent or
  refuses such a value is not modelled.
- The toolkit's own validation of `PaddingValues` is not shown in the source,
  so it is not modelled. `Padding.Minus` can therefore produce negative edges,
  which the toolkit constructor might refuse.
- `PredictiveBackHandler` registration and its `enabled` flag are outside the
  model. `ExpandableBox.Cells` models the flag's value; `HandleGesture` models
  the handler run on one delivered gesture.
- `RoundedCornerShape`'s outline drawing, which scales radii down when
  adjacent corners overlap, is not modelled; `RoundedCorners.RadiusPx` is the
  radius a corner asks for before that scaling.
- `RoundedCorners.VRoundedCornerShapePercent` and
  `RoundedCorners.HRoundedCornerShapePercent` rest on the toolkit's overload
  set for `CornerSize`, which lies outside this repository. An `Int` argument
  selects `CornerSize(percent: Int)`, refused outside 0..100, and the model
  follows that reading.
- The back-event flow's host semantics: the model assumes that the `collect`
  at line 99 of OnPredictiveBackHandler.kt receives the events after the one
  `firstOrNull` consumed at line 97, each once. How the host flow behaves when
  collected a second time is not modelled.
- A cancellation that arrives while events are still pending is modelled as
  arriving after the events delivered so far. Exceptions other than
  cancellation are not modelled.
- `BackEventCompat`'s swipe edge and frame time are not read by the library,
  so they are not modelled.
- `Fractions.FractionifyIntRange` delegates to the corrected
  `Fractions.FractionifyInt`, not to the as-written 32-bit rule (see Findings).
  `Fractions.FractionifyIntAsWritten` states its agreement with the corrected
  rule only when neither difference wraps; its endpoint values and its clamp
  (`Fractions.IntAsWrittenBoundedIsClamped`) hold for every input.
- Composable plumbing is not modelled: `remember`, `derivedStateOf`,
  recomposition, and the `Box`/`graphicsLayer` wrappers around each child.

## Findings

| source | as written | input that shows it | evidently intended | confidence | as-written member | corrected member |
|---|---|---|---|---|---|---|
| compose-extensions/src/main/java/com/somnionocte/compose_extensions/fractionify.kt:28 | `value - from` and `to - from` are 32-bit `Int` subtractions, which wrap when the range is wider than `Int.MAX_VALUE` | value 0, from `Int.MIN_VALUE`, to `Int.MAX_VALUE`: the unbounded result is 2147483648 and the bounded one 1 | the exact position, about 0.5, as the doc comment's "fractional position within the range" says (take the differences after widening to Double or Long) | medium; not executed | `Fractions.FractionifyIntAsWritten`, shown by `Fractions.IntWrapCounterexample` | `Fractions.FractionifyInt`, with `Fractions.IntInsideRangeIsExactPosition` |
| compose-extensions/src/main/java/com/somnionocte/compose_extensions/RoundedCornerShape.kt:39-42 | `VRoundedCornerShape(top: Int, bottom: Int)` passes each `Int` to `CornerSize(...)`, which selects its `percent` overload | `VRoundedCornerShape(16, 16)` on a 48-pixel square: radius 7.68 pixels instead of 16; `VRoundedCornerShape(150, 0)` is refused | pixel radii, as the doc comment at line 29 says (pass `top.toFloat()`) | medium; not executed | `RoundedCorners.VRoundedCornerShapePercent`, shown by `RoundedCorners.IntRadiiArePercentages` | `RoundedCorners.VRoundedCornerShapePx`, with `RoundedCorners.PixelRadiiIgnoreShapeSize` |
| compose-extensions/src/main/java/com/somnionocte/compose_extensions/RoundedCornerShape.kt:77-80 | `HRoundedCornerShape(start: Int, end: Int)` passes each `Int` to `CornerSize(...)`, which selects its `percent` overload | `HRoundedCornerShape(0, 150)` is refused; smaller radii become percentages of the shorter side | pixel radii, as the doc comment at line 67 says (pass `start.toFloat()`) | medium; not executed | `RoundedCorners.HRoundedCornerShapePercent`, shown by `RoundedCorners.IntRadiiArePercentages` | `RoundedCorners.HRoundedCornerShapePx`, with `RoundedCorners.PixelRadiiIgnoreShapeSize` |
