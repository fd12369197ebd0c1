/** The per-frame gesture recogniser of the hand tracker, stated as pure
    functions: the state kept between frames, the transition one frame
    makes, and what that transition guarantees.

    Coordinates are reals standing for the tracker's 32-bit floats, and
    the two Euclidean distances are compared through their squares:
    `sqrt(q) < t` holds exactly when `q < t * t` for `t > 0`, which the
    lemmas on distances below make precise. */
module Gesture {

  import opened RealArith

  datatype Option<+T> = None | Some(value: T)

  /** A normalised landmark position. */
  datatype Point = Point(x: real, y: real)

  /** What the recogniser reads of the first detected hand:
      landmark 8 (index fingertip) and landmark 4 (thumb tip). */
  datatype HandObservation = HandObservation(indexTip: Point, thumbTip: Point)

  /** The per-frame cursor report: smoothed position and pinch flag. */
  datatype CursorSample = CursorSample(x: real, y: real, pinching: bool)

  /** The discrete pointer action emitted on a pinch release. */
  datatype Action =
    | Click(x: real, y: real)
    | Scroll(startX: real, startY: real, endX: real, endY: real)

  /** The six fields the recogniser carries from one frame to the next. */
  datatype RecognizerState = RecognizerState(
    smoothedX: real,
    smoothedY: real,
    isPinching: bool,
    startPinchX: real,
    startPinchY: real,
    lastActionTime: int)

  /** Everything one frame produces: the new state, the cursor report
      and at most one action. */
  datatype FrameResult = FrameResult(next: RecognizerState, cursor: CursorSample, action: Option<Action>)

  const SmoothingFactor: real := 0.5
  const PinchThreshold: real := 0.08
  const ScrollThreshold: real := 0.05
  const ActionDebounceTime: int := 300

  /** The fields as the tracker initialises them: every coordinate 0,
      not pinching, last action at time 0. */
  const InitialState: RecognizerState := RecognizerState(0.0, 0.0, false, 0.0, 0.0, 0)

  function Abs(v: real): real { if v < 0.0 then -v else v }

  predicate Between(v: real, a: real, b: real) { (a <= v <= b) || (b <= v <= a) }

  /** Squared Euclidean distance; zero exactly for equal points. */
  function SqDist(a: Point, b: Point): (q: real)
    ensures q >= 0.0
    ensures q == 0.0 <==> a == b
  {
    var dx, dy := a.x - b.x, a.y - b.y;
    SquareNonNegative(dx);
    SquareNonNegative(dy);
    Square(dx) + Square(dy)
  }

  /** One step of the exponential filter on one axis: the new value lies
      between the old value and the raw one and halves the gap to it. */
  function Smooth(current: real, raw: real): (r: real)
    ensures Between(r, current, raw)
    ensures Abs(r - raw) == Abs(current - raw) / 2.0
  {
    current + (raw - current) * SmoothingFactor
  }

  /** The hand is in pinch shape when the thumb-tip to index-tip
      distance is strictly below the pinch threshold: for the distance d
      (the non-negative root of the squared distance), pinch shape holds
      exactly when d < 0.08, so a distance of exactly 0.08 is no pinch. */
  predicate IsPinchShape(o: HandObservation): (b: bool)
    ensures forall d :: d >= 0.0 && Square(d) == SqDist(o.indexTip, o.thumbTip) ==>
      (b <==> d < PinchThreshold)
  {
    SquaresDecideLength(SqDist(o.indexTip, o.thumbTip), PinchThreshold);
    SqDist(o.indexTip, o.thumbTip) < Square(PinchThreshold)
  }

  /** An action may fire only when strictly more than the debounce time
      has passed since the last emitted one. A clock reading that is not
      after the last action is always inside the window; exactly 300 ms
      later is still inside it, 301 ms later is outside. */
  predicate OutsideDebounce(lastActionTime: int, now: int): (b: bool)
    ensures b ==> now > lastActionTime
    ensures now == lastActionTime + ActionDebounceTime ==> !b
    ensures now == lastActionTime + ActionDebounceTime + 1 ==> b
  {
    now - lastActionTime > ActionDebounceTime
  }

  /** Click or scroll, from how far the smoothed cursor moved between the
      pinch onset `start` and the release point `end`: for the moved
      distance d, a move with d > 0.05 scrolls from start to end, any
      other move clicks at the start, so a move of exactly 0.05 clicks. */
  function Classify(start: Point, end: Point): (a: Action)
    ensures forall d :: d >= 0.0 && Square(d) == SqDist(end, start) ==>
      a == (if d > ScrollThreshold then Scroll(start.x, start.y, end.x, end.y)
            else Click(start.x, start.y))
  {
    SquaresDecideLength(SqDist(end, start), ScrollThreshold);
    if SqDist(end, start) > Square(ScrollThreshold)
    then Scroll(start.x, start.y, end.x, end.y)
    else Click(start.x, start.y)
  }

  /** The pinch state machine and the classifier, applied to a state whose
      smoothed position has already been updated for this frame. It never
      moves the cursor; afterwards the machine is pinching exactly when
      the hand is in pinch shape; an action comes only from a release
      (pinching before, open hand now), and then the last action time is
      `now`, while without an action the last action time is kept. */
  function PinchTransition(st: RecognizerState, pinchShape: bool, now: int): (r: (RecognizerState, Option<Action>))
    ensures r.0.smoothedX == st.smoothedX && r.0.smoothedY == st.smoothedY
    ensures r.0.isPinching == pinchShape
    ensures r.1.Some? ==> st.isPinching && !pinchShape && r.0.lastActionTime == now
    ensures r.1.None? ==> r.0.lastActionTime == st.lastActionTime
    ensures !(st.isPinching && !pinchShape) ==> r.1.None?
  {
    if pinchShape then
      if st.isPinching then (st, None)
      else (st.(isPinching := true, startPinchX := st.smoothedX, startPinchY := st.smoothedY), None)
    else if !st.isPinching then (st, None)
    else if !OutsideDebounce(st.lastActionTime, now) then (st.(isPinching := false), None)
    else
      (st.(isPinching := false, lastActionTime := now),
       Some(Classify(Point(st.startPinchX, st.startPinchY), Point(st.smoothedX, st.smoothedY))))
  }

  /** One frame of the recogniser: `obs` is the first detected hand, or
      None when no hand is seen; `now` is the clock reading taken on a
      release. With a hand, the new pinch flag is this frame's pinch
      shape; the cursor is always reported at the new smoothed position,
      pinching only when a hand is present and the machine pinches; and an
      action is emitted only when a pinch ends on a present hand. */
  function Step(st: RecognizerState, obs: Option<HandObservation>, now: int): (r: FrameResult)
    ensures obs.Some? ==> r.next.isPinching == IsPinchShape(obs.value)
    ensures r.cursor.x == r.next.smoothedX && r.cursor.y == r.next.smoothedY
    ensures r.cursor.pinching == (obs.Some? && r.next.isPinching)
    ensures r.action.Some? ==> obs.Some? && st.isPinching && !r.next.isPinching
  {
    match obs
    case None => FrameResult(st, CursorSample(st.smoothedX, st.smoothedY, false), None)
    case Some(o) =>
      var smoothed := st.(smoothedX := Smooth(st.smoothedX, o.indexTip.x),
                          smoothedY := Smooth(st.smoothedY, o.indexTip.y));
      var (next, action) := PinchTransition(smoothed, IsPinchShape(o), now);
      FrameResult(next, CursorSample(next.smoothedX, next.smoothedY, next.isPinching), action)
  }

  // ----- what one frame does -----

  /** A frame without a hand changes no field, emits nothing and reports
      the last smoothed position as not pinching; in particular it does
      not release a pinch in progress. */
  lemma AbsentFrameChangesNothing(st: RecognizerState, now: int)
    ensures Step(st, None, now).next == st
    ensures Step(st, None, now).action == None
    ensures Step(st, None, now).cursor == CursorSample(st.smoothedX, st.smoothedY, false)
  {
  }

  /** A frame with a hand moves the smoothed position halfway to the index
      tip on each axis, so it lies between the old position and the tip. */
  lemma PresentFrameSmooths(st: RecognizerState, o: HandObservation, now: int)
    ensures var n := Step(st, Some(o), now).next;
      Between(n.smoothedX, st.smoothedX, o.indexTip.x) &&
      Between(n.smoothedY, st.smoothedY, o.indexTip.y) &&
      n.smoothedX - o.indexTip.x == (st.smoothedX - o.indexTip.x) / 2.0 &&
      n.smoothedY - o.indexTip.y == (st.smoothedY - o.indexTip.y) / 2.0
  {
  }

  /** Pinch onset: the pinch starts at the smoothed position after this
      frame's update, and nothing is emitted or re-timed. */
  lemma PinchOnset(st: RecognizerState, o: HandObservation, now: int)
    requires IsPinchShape(o) && !st.isPinching
    ensures var r := Step(st, Some(o), now);
      r.next.isPinching &&
      r.next.startPinchX == r.next.smoothedX && r.next.startPinchY == r.next.smoothedY &&
      r.next.lastActionTime == st.lastActionTime &&
      r.action == None && r.cursor.pinching
  {
  }

  /** A continuing pinch keeps its start point and the last action time,
      stays pinching and emits nothing. */
  lemma PinchContinues(st: RecognizerState, o: HandObservation, now: int)
    requires IsPinchShape(o) && st.isPinching
    ensures var r := Step(st, Some(o), now);
      r.next.isPinching &&
      r.next.startPinchX == st.startPinchX && r.next.startPinchY == st.startPinchY &&
      r.next.lastActionTime == st.lastActionTime &&
      r.action == None && r.cursor.pinching
  {
  }

  /** An open hand while idle only moves the smoothed position. */
  lemma IdleOpenHandOnlySmooths(st: RecognizerState, o: HandObservation, now: int)
    requires !IsPinchShape(o) && !st.isPinching
    ensures var r := Step(st, Some(o), now);
      r.next == st.(smoothedX := r.next.smoothedX, smoothedY := r.next.smoothedY) &&
      r.action == None && !r.cursor.pinching
  {
  }

  /** An action is emitted only on a release: a present hand out of pinch
      shape while the machine was pinching. */
  lemma ActionOnlyOnRelease(st: RecognizerState, obs: Option<HandObservation>, now: int)
    ensures Step(st, obs, now).action.Some? ==>
      obs.Some? && !IsPinchShape(obs.value) && st.isPinching
  {
  }

  /** A release always clears the pinch and reports it cleared; it emits
      exactly when more than 300 ms have passed since the last action, and
      then the emitted action is the classification of the move from the
      pinch start to the smoothed position, and the last action time
      becomes `now`; a debounced release leaves that time alone. */
  lemma Release(st: RecognizerState, o: HandObservation, now: int)
    requires !IsPinchShape(o) && st.isPinching
    ensures var r := Step(st, Some(o), now);
      !r.next.isPinching && !r.cursor.pinching &&
      r.next.startPinchX == st.startPinchX && r.next.startPinchY == st.startPinchY &&
      (r.action.Some? <==> now - st.lastActionTime > ActionDebounceTime) &&
      r.next.lastActionTime == (if r.action.Some? then now else st.lastActionTime) &&
      (r.action.Some? ==>
        r.action.value == Classify(Point(st.startPinchX, st.startPinchY),
                                   Point(r.next.smoothedX, r.next.smoothedY)))
  {
  }

  /** The last action time moves only when an action fires, and then to a
      time more than the debounce window past the previous one. */
  lemma DebounceOnEveryFrame(st: RecognizerState, obs: Option<HandObservation>, now: int)
    ensures var r := Step(st, obs, now);
      (r.action.None? ==> r.next.lastActionTime == st.lastActionTime) &&
      (r.action.Some? ==> r.next.lastActionTime == now &&
                          now - st.lastActionTime > ActionDebounceTime)
  {
  }

  /** A frame with a hand reports the post-transition state to the cursor. */
  lemma CursorReportsNewState(st: RecognizerState, o: HandObservation, now: int)
    ensures var r := Step(st, Some(o), now);
      r.cursor == CursorSample(r.next.smoothedX, r.next.smoothedY, r.next.isPinching)
  {
  }
}
