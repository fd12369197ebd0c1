/** The tracking manager's recogniser as the object it is: six mutable
    fields and a per-frame callback that updates them in place, proved to
    make exactly the transition `Gesture.Step` describes. */
module Tracking {

  import opened RealArith
  import opened Gesture

  class HandTrackingManager {
    var smoothedX: real
    var smoothedY: real
    var isPinching: bool
    var startPinchX: real
    var startPinchY: real
    var lastActionTime: int

    /** The fields as one state value. */
    function State(): RecognizerState
      reads this
    {
      RecognizerState(smoothedX, smoothedY, isPinching, startPinchX, startPinchY, lastActionTime)
    }

    constructor ()
      ensures State() == InitialState
    {
      smoothedX, smoothedY := 0.0, 0.0;
      isPinching := false;
      startPinchX, startPinchY := 0.0, 0.0;
      lastActionTime := 0;
    }

    /** The landmark callback for one frame: `obs` is the first detected
        hand or None, `now` the uptime clock. Returns the cursor report
        and the click or scroll to dispatch, if any. */
    method OnFrame(obs: Option<HandObservation>, now: int) returns (cursor: CursorSample, action: Option<Action>)
      modifies this
      ensures Step(old(State()), obs, now) == FrameResult(State(), cursor, action)
      ensures obs.None? ==> State() == old(State()) && action.None? && !cursor.pinching
      ensures action.Some? ==> old(isPinching) && !isPinching && lastActionTime == now
      ensures action.None? ==> lastActionTime == old(lastActionTime)
    {
      action := None;
      if obs.None? {
        cursor := CursorSample(smoothedX, smoothedY, false);
        return;
      }
      var indexTip := obs.value.indexTip;
      var thumbTip := obs.value.thumbTip;

      smoothedX := smoothedX + (indexTip.x - smoothedX) * SmoothingFactor;
      smoothedY := smoothedY + (indexTip.y - smoothedY) * SmoothingFactor;

      var distanceSq := SqDist(indexTip, thumbTip);

      if distanceSq < Square(PinchThreshold) {
        if !isPinching {
          isPinching := true;
          startPinchX := smoothedX;
          startPinchY := smoothedY;
        }
      } else {
        if isPinching {
          isPinching := false;
          var moveDistanceSq := SqDist(Point(smoothedX, smoothedY), Point(startPinchX, startPinchY));
          var currentTime := now;
          if currentTime - lastActionTime > ActionDebounceTime {
            lastActionTime := currentTime;
            if moveDistanceSq > Square(ScrollThreshold) {
              action := Some(Scroll(startPinchX, startPinchY, smoothedX, smoothedY));
            } else {
              action := Some(Click(startPinchX, startPinchY));
            }
          }
        }
      }

      cursor := CursorSample(smoothedX, smoothedY, isPinching);
    }
  }

  /** A click end to end: the hand comes in open with its index tip at
      (1, 1), which carries the cursor from the origin to (0.5, 0.5); the
      tip then rests at (0.5, 0.5) while the thumb closes to 0.03 away for
      four frames and opens to 0.1 away one second into the clock. The
      cursor never moves during the pinch, so the release clicks where
      the pinch began. */
  method ClickScenario() returns (action: Option<Action>)
    ensures action == Some(Click(0.5, 0.5))
  {
    var m := new HandTrackingManager();
    var open1 := HandObservation(Point(1.0, 1.0), Point(1.0, 0.9));
    var pinched := HandObservation(Point(0.5, 0.5), Point(0.53, 0.5));
    var released := HandObservation(Point(0.5, 0.5), Point(0.6, 0.5));
    var c;
    c, action := m.OnFrame(Some(open1), 100);
    assert m.State().smoothedX == 0.5 && m.State().smoothedY == 0.5;
    c, action := m.OnFrame(Some(pinched), 133);
    assert m.State().isPinching && m.State().startPinchX == 0.5 && m.State().startPinchY == 0.5;
    c, action := m.OnFrame(Some(pinched), 166);
    c, action := m.OnFrame(Some(pinched), 200);
    c, action := m.OnFrame(Some(pinched), 233);
    assert m.State() == RecognizerState(0.5, 0.5, true, 0.5, 0.5, 0);
    c, action := m.OnFrame(Some(released), 1000);
  }

  /** A scroll end to end: as above, but while pinched the index tip moves
      to (0.5, 0.7), which takes the smoothed cursor to (0.5, 0.6); the hand
      opens with the tip there, and the release scrolls from the pinch
      start to (0.5, 0.6). */
  method ScrollScenario() returns (action: Option<Action>)
    ensures action == Some(Scroll(0.5, 0.5, 0.5, 0.6))
  {
    var m := new HandTrackingManager();
    var c;
    c, action := m.OnFrame(Some(HandObservation(Point(1.0, 1.0), Point(1.0, 0.9))), 100);
    c, action := m.OnFrame(Some(HandObservation(Point(0.5, 0.5), Point(0.53, 0.5))), 133);
    assert m.State() == RecognizerState(0.5, 0.5, true, 0.5, 0.5, 0);
    c, action := m.OnFrame(Some(HandObservation(Point(0.5, 0.7), Point(0.53, 0.7))), 166);
    assert m.State() == RecognizerState(0.5, 0.6, true, 0.5, 0.5, 0);
    c, action := m.OnFrame(Some(HandObservation(Point(0.5, 0.6), Point(0.6, 0.6))), 1000);
  }

  /** Debounce end to end: two clicks whose releases come 250 ms apart.
      The first fires; the second pinch is still cleared on release, but
      its click is dropped and the last action time stays at the first. */
  method DebounceScenario() returns (first: Option<Action>, second: Option<Action>, pinchingAfter: bool)
    ensures first == Some(Click(0.5, 0.5))
    ensures second == None
    ensures !pinchingAfter
  {
    var m := new HandTrackingManager();
    var pinched := HandObservation(Point(0.5, 0.5), Point(0.53, 0.5));
    var released := HandObservation(Point(0.5, 0.5), Point(0.6, 0.5));
    var c, a;
    c, a := m.OnFrame(Some(HandObservation(Point(1.0, 1.0), Point(1.0, 0.9))), 900);
    c, a := m.OnFrame(Some(pinched), 950);
    c, first := m.OnFrame(Some(released), 1000);
    assert m.State() == RecognizerState(0.5, 0.5, false, 0.5, 0.5, 1000);
    c, a := m.OnFrame(Some(pinched), 1100);
    c, second := m.OnFrame(Some(released), 1250);
    pinchingAfter := m.isPinching;
    assert m.lastActionTime == 1000;
  }
}
