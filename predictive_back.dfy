/** The predictive-back tracker: a `PredictiveBackState` whose three fields
    are updated by a back gesture. The gesture arrives as a finite sequence of
    events followed by its outcome: committed (the sequence ends normally) or
    cancelled. The first event only records where the touch started; every
    later event copies its progress and recomputes the offset from the start
    point; a committed gesture calls `onBack` and then resets the state, a
    cancelled one only resets it. */
module PredictiveBack {
  import opened Toolkit

  /** The observable fields of a `PredictiveBackState` at one moment. */
  datatype BackSnapshot = BackSnapshot(startOffset: Offset, progress: real, offset: Offset)

  /** The state a tracker starts in and returns to after every gesture. */
  const Idle: BackSnapshot := BackSnapshot(ZeroOffset, 0.0, ZeroOffset)

  /** `isDragged`: derived from the progress, never stored. */
  predicate Dragged(s: BackSnapshot) {
    s.progress != 0.0
  }

  /** One gesture update (`BackEventCompat`): the touch point and the progress. */
  datatype BackEvent = BackEvent(touchX: real, touchY: real, progress: real)

  function Touch(e: BackEvent): Offset {
    Offset(e.touchX, e.touchY)
  }

  datatype Outcome = Committed | Cancelled

  /** A whole gesture: the events the platform delivers, in order, and how
      the sequence ends. */
  datatype Gesture = Gesture(events: seq<BackEvent>, outcome: Outcome)

  /** The body of the collect loop for one event. */
  function Step(s: BackSnapshot, e: BackEvent): (r: BackSnapshot)
    ensures r.startOffset == s.startOffset
    ensures r.progress == e.progress && (Dragged(r) <==> e.progress != 0.0)
    ensures r.offset == s.startOffset.Minus(Touch(e))
  {
    s.(progress := e.progress, offset := s.startOffset.Minus(Touch(e)))
  }

  /** The collect loop run over `events`, in delivery order. */
  function Collect(s: BackSnapshot, events: seq<BackEvent>): (r: BackSnapshot)
    ensures events == [] ==> r == s
    ensures events != [] ==> r.progress == events[|events| - 1].progress
    decreases |events|
  {
    if events == [] then s
    else Step(Collect(s, events[..|events| - 1]), events[|events| - 1])
  }

  /** The gesture's events applied to the state: the first is taken by
      `firstOrNull` and sets only the start point, the rest are collected. */
  function Track(s: BackSnapshot, events: seq<BackEvent>): (r: BackSnapshot)
    ensures events == [] ==> r == s
    ensures events != [] ==> r.startOffset == Touch(events[0])
  {
    if events == [] then s
    else
      var started := s.(startOffset := Touch(events[0]));
      CollectKeepsStart(started, events[1..]);
      Collect(started, events[1..])
  }

  /** What a gesture does, seen from outside: the state `onBack` observes at
      each of its calls, and the state left behind. */
  datatype Observation = Observation(backCalls: seq<BackSnapshot>, final: BackSnapshot)

  /** The gesture lifecycle from state `s`: `onBack` is called once, on the
      tracked state, exactly when the gesture is committed; either way the
      tracker ends idle and not dragged. */
  function Lifecycle(s: BackSnapshot, g: Gesture): (o: Observation)
    ensures o.final == Idle && !Dragged(o.final)
    ensures g.outcome == Committed <==> |o.backCalls| == 1
    ensures g.outcome == Cancelled <==> o.backCalls == []
  {
    match g.outcome
    case Committed => Observation([Track(s, g.events)], Idle)
    case Cancelled => Observation([], Idle)
  }

  /** The collect loop never moves the start point. */
  lemma {:induction false} CollectKeepsStart(s: BackSnapshot, events: seq<BackEvent>)
    ensures Collect(s, events).startOffset == s.startOffset
    decreases |events|
  {
    if events != [] {
      CollectKeepsStart(s, events[..|events| - 1]);
    }
  }

  /** After the collect loop over a non-empty sequence the state reflects
      its last event alone: that event's progress, uncapped, and the offset
      from the start point to its touch point. */
  lemma CollectReflectsLast(s: BackSnapshot, events: seq<BackEvent>)
    requires events != []
    ensures Collect(s, events) ==
      BackSnapshot(s.startOffset, events[|events| - 1].progress, s.startOffset.Minus(Touch(events[|events| - 1])))
  {
    CollectKeepsStart(s, events[..|events| - 1]);
  }

  /** The effect of a gesture's events: none without events; with one event
      only the start point, set to its touch point; with more, also the last
      event's progress and the offset of its touch point from the start. */
  lemma TrackedState(s: BackSnapshot, events: seq<BackEvent>)
    ensures events == [] ==> Track(s, events) == s
    ensures |events| == 1 ==> Track(s, events) == s.(startOffset := Touch(events[0]))
    ensures |events| >= 2 ==>
      Track(s, events) == BackSnapshot(
        Touch(events[0]), events[|events| - 1].progress, Touch(events[0]).Minus(Touch(events[|events| - 1])))
  {
    if |events| >= 2 {
      CollectReflectsLast(s.(startOffset := Touch(events[0])), events[1..]);
      assert events[1..][|events[1..]| - 1] == events[|events| - 1];
    }
  }

  /** A committed gesture with at least two events calls `onBack` exactly
      once, and that call sees the last event's progress and offset; a
      cancelled gesture of any length never calls it. */
  lemma OnBackSeesLastEvent(s: BackSnapshot, g: Gesture)
    ensures g.outcome == Committed && |g.events| >= 2 ==>
      Lifecycle(s, g).backCalls == [BackSnapshot(Touch(g.events[0]), g.events[|g.events| - 1].progress,
                                                 Touch(g.events[0]).Minus(Touch(g.events[|g.events| - 1])))]
    ensures g.outcome == Cancelled ==> Lifecycle(s, g).backCalls == []
  {
    TrackedState(s, g.events);
  }

  /** Three events, then commit or cancel: `onBack` runs once after a commit
      and never after a cancel, and both end idle. */
  lemma ThreeEventGesture()
    ensures var events := [BackEvent(10.0, 10.0, 0.0), BackEvent(15.0, 12.0, 0.3), BackEvent(40.0, 20.0, 1.0)];
      Lifecycle(Idle, Gesture(events, Committed)) ==
        Observation([BackSnapshot(Offset(10.0, 10.0), 1.0, Offset(-30.0, -10.0))], Idle) &&
      Lifecycle(Idle, Gesture(events, Cancelled)) == Observation([], Idle)
  {
    var events := [BackEvent(10.0, 10.0, 0.0), BackEvent(15.0, 12.0, 0.3), BackEvent(40.0, 20.0, 1.0)];
    TrackedState(Idle, events);
  }

  /** The tracker object whose fields the gesture updates in place. */
  class PredictiveBackState {
    var startOffset: Offset
    var progress: real
    var offset: Offset

    constructor ()
      ensures Snapshot() == Idle
    {
      startOffset, progress, offset := ZeroOffset, 0.0, ZeroOffset;
    }

    function Snapshot(): BackSnapshot
      reads this
    {
      BackSnapshot(startOffset, progress, offset)
    }

    /** `isDragged`: true exactly while the progress is not 0. */
    function IsDragged(): (d: bool)
      reads this
      ensures d <==> progress != 0.0
    {
      Dragged(Snapshot())
    }

    /** `updateOffset`: the offset becomes the start point minus the touch
      point; the start point and the progress stay. */
    method UpdateOffset(touchX: real, touchY: real)
      modifies this
      ensures offset == startOffset.Minus(Offset(touchX, touchY))
      ensures startOffset == old(startOffset) && progress == old(progress)
    {
      offset := startOffset.Minus(Offset(touchX, touchY));
    }

    /** `reset`: every field back to zero, so the tracker is no longer dragged. */
    method Reset()
      modifies this
      ensures Snapshot() == Idle && !IsDragged()
    {
      progress := 0.0;
      startOffset := ZeroOffset;
      offset := ZeroOffset;
    }
  }

  /** The handler `onPredictiveBack` registers, run over one gesture. It
      returns the state `onBack` observed at each call. */
  method HandleGesture(state: PredictiveBackState, gesture: Gesture) returns (backCalls: seq<BackSnapshot>)
    modifies state
    ensures Observation(backCalls, state.Snapshot()) == Lifecycle(old(state.Snapshot()), gesture)
  {
    var events := gesture.events;
    if |events| > 0 {
      state.startOffset := Touch(events[0]);
      ghost var collected := state.Snapshot();
      var i := 1;
      while i < |events|
        invariant 1 <= i <= |events|
        invariant state.Snapshot() == Collect(collected, events[1..i])
      {
        state.progress := events[i].progress;
        state.UpdateOffset(events[i].touchX, events[i].touchY);
        assert events[1..i + 1][..i - 1] == events[1..i];
        i := i + 1;
      }
      assert events[1..i] == events[1..];
    }
    match gesture.outcome {
      case Committed =>
        backCalls := [state.Snapshot()];
        state.Reset();
      case Cancelled =>
        backCalls := [];
        state.Reset();
    }
  }
}
