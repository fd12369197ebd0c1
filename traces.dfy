/** The recogniser over a run of frames: what stays true from frame to
    frame (the smoothed cursor never leaves the unit square, emitted
    actions are more than the debounce window apart) and how the filter
    converges on a hand held still. */
module Traces {

  import opened RealArith
  import opened Gesture

  /** One delivered frame: the first detected hand (if any) and the clock
      reading of its callback. */
  datatype Frame = Frame(obs: Option<HandObservation>, now: int)

  /** The state after feeding `frames` in order. */
  function Final(st: RecognizerState, frames: seq<Frame>): RecognizerState
    decreases |frames|
  {
    if frames == [] then st
    else Final(Step(st, frames[0].obs, frames[0].now).next, frames[1..])
  }

  /** The clock readings of the frames that emitted an action, in order. */
  function EmissionTimes(st: RecognizerState, frames: seq<Frame>): seq<int>
    decreases |frames|
  {
    if frames == [] then []
    else
      var r := Step(st, frames[0].obs, frames[0].now);
      (if r.action.Some? then [frames[0].now] else []) + EmissionTimes(r.next, frames[1..])
  }

  predicate InUnitInterval(v: real) { 0.0 <= v <= 1.0 }

  predicate InUnitSquare(p: Point) { InUnitInterval(p.x) && InUnitInterval(p.y) }

  /** The smoothed position and the recorded pinch start are normalised. */
  predicate StateInUnitSquare(st: RecognizerState)
  {
    InUnitSquare(Point(st.smoothedX, st.smoothedY)) &&
    InUnitSquare(Point(st.startPinchX, st.startPinchY))
  }

  /** Every index tip the frames carry is a normalised landmark. */
  predicate TipsInUnitSquare(frames: seq<Frame>)
  {
    forall i :: 0 <= i < |frames| && frames[i].obs.Some? ==> InUnitSquare(frames[i].obs.value.indexTip)
  }

  /** One frame keeps a normalised state normalised. */
  lemma StepPreservesUnitSquare(st: RecognizerState, obs: Option<HandObservation>, now: int)
    requires StateInUnitSquare(st)
    requires obs.Some? ==> InUnitSquare(obs.value.indexTip)
    ensures StateInUnitSquare(Step(st, obs, now).next)
  {
  }

  /** Starting from a normalised state (the initial all-zero one is), the
      smoothed cursor and the pinch start stay in the unit square for as
      long as the index tips do. */
  lemma {:induction false} RunStaysInUnitSquare(st: RecognizerState, frames: seq<Frame>)
    requires StateInUnitSquare(st)
    requires TipsInUnitSquare(frames)
    ensures StateInUnitSquare(Final(st, frames))
    decreases |frames|
  {
    if frames != [] {
      StepPreservesUnitSquare(st, frames[0].obs, frames[0].now);
      var rest := frames[1..];
      assert TipsInUnitSquare(rest) by {
        forall i | 0 <= i < |rest| && rest[i].obs.Some?
          ensures InUnitSquare(rest[i].obs.value.indexTip)
        {
          assert rest[i] == frames[i + 1];
        }
      }
      RunStaysInUnitSquare(Step(st, frames[0].obs, frames[0].now).next, rest);
    }
  }

  lemma InitialStateInUnitSquare()
    ensures StateInUnitSquare(InitialState)
  {
  }

  /** A fresh recogniser, whose fields all start at 0, keeps its smoothed
      cursor and its pinch start in the unit square for every run whose
      index tips lie there. */
  lemma FreshRunStaysInUnitSquare(frames: seq<Frame>)
    requires TipsInUnitSquare(frames)
    ensures StateInUnitSquare(Final(InitialState, frames))
  {
    InitialStateInUnitSquare();
    RunStaysInUnitSquare(InitialState, frames);
  }

  /** Debounce over a run: every emitted action comes more than 300 ms
      after the last action time the run started from, any two emitted
      actions are more than 300 ms apart, at most one action is emitted per
      frame, and the last action time ends at the last emission. This holds
      whatever the clock does between frames, since the last action time
      moves only when an action fires. */
  lemma {:induction false} EmissionsAreSpaced(st: RecognizerState, frames: seq<Frame>)
    ensures var e := EmissionTimes(st, frames);
      |e| <= |frames| &&
      (forall i :: 0 <= i < |e| ==> e[i] - st.lastActionTime > ActionDebounceTime) &&
      (forall i, j :: 0 <= i < j < |e| ==> e[j] - e[i] > ActionDebounceTime) &&
      Final(st, frames).lastActionTime == (if e == [] then st.lastActionTime else e[|e| - 1])
    decreases |frames|
  {
    if frames != [] {
      var next, fired := FirstFrame(st, frames);
      EmissionsAreSpaced(next, frames[1..]);
      if fired {
        ConsSpaced(st.lastActionTime, frames[0].now, EmissionTimes(next, frames[1..]));
      }
    }
  }

  /** The first frame of a run: the state it leaves, whether it emitted,
      and how the run's final state and emission times decompose. */
  lemma FirstFrame(st: RecognizerState, frames: seq<Frame>) returns (next: RecognizerState, fired: bool)
    requires frames != []
    ensures Final(st, frames) == Final(next, frames[1..])
    ensures EmissionTimes(st, frames) ==
      (if fired then [frames[0].now] else []) + EmissionTimes(next, frames[1..])
    ensures !fired ==> next.lastActionTime == st.lastActionTime
    ensures fired ==> next.lastActionTime == frames[0].now &&
                      frames[0].now - st.lastActionTime > ActionDebounceTime
  {
    var r := Step(st, frames[0].obs, frames[0].now);
    DebounceOnEveryFrame(st, frames[0].obs, frames[0].now);
    next, fired := r.next, r.action.Some?;
  }

  /** Prepending an emission more than the debounce window after `last`
      to a spaced tail that starts more than the window after it keeps
      the sequence spaced and after `last`. */
  lemma ConsSpaced(last: int, t0: int, tail: seq<int>)
    requires t0 - last > ActionDebounceTime
    requires forall i :: 0 <= i < |tail| ==> tail[i] - t0 > ActionDebounceTime
    requires forall i, j :: 0 <= i < j < |tail| ==> tail[j] - tail[i] > ActionDebounceTime
    ensures var e := [t0] + tail;
      (forall i :: 0 <= i < |e| ==> e[i] - last > ActionDebounceTime) &&
      (forall i, j :: 0 <= i < j < |e| ==> e[j] - e[i] > ActionDebounceTime)
  {
    var e := [t0] + tail;
    forall i, j | 0 <= i < j < |e| ensures e[j] - e[i] > ActionDebounceTime {
      if i == 0 {
        assert e[j] == tail[j - 1];
      } else {
        assert e[i] == tail[i - 1] && e[j] == tail[j - 1];
      }
    }
    forall i | 0 <= i < |e| ensures e[i] - last > ActionDebounceTime {
      if i > 0 {
        assert e[i] == tail[i - 1];
      }
    }
  }

  /** A fresh recogniser drops every release that comes in the first
      300 ms of the clock, because its last action time starts at 0. */
  lemma FreshRecognizerDropsEarlyReleases(frames: seq<Frame>)
    ensures forall i :: 0 <= i < |EmissionTimes(InitialState, frames)| ==>
      EmissionTimes(InitialState, frames)[i] > ActionDebounceTime
  {
    EmissionsAreSpaced(InitialState, frames);
  }

  /** A run of frames without a hand changes nothing and emits nothing:
      the cursor freezes, and a pinch in progress stays in progress. */
  lemma {:induction false} AbsentFramesFreeze(st: RecognizerState, frames: seq<Frame>)
    requires forall i :: 0 <= i < |frames| ==> frames[i].obs.None?
    ensures Final(st, frames) == st
    ensures EmissionTimes(st, frames) == []
    decreases |frames|
  {
    if frames != [] {
      AbsentFrameChangesNothing(st, frames[0].now);
      var rest := frames[1..];
      assert forall i :: 0 <= i < |rest| ==> rest[i] == frames[i + 1];
      AbsentFramesFreeze(st, rest);
    }
  }

  /** (1/2) raised to the power `n`. */
  function HalfPow(n: nat): (r: real)
    ensures 0.0 < r <= 1.0
  {
    if n == 0 then 1.0 else HalfPow(n - 1) / 2.0
  }

  /** While the index tip stays at `tip`, every frame halves the gap between
      the smoothed cursor and the tip on each axis, whatever the thumb does:
      after `n` frames the gap is (1/2)^n of what it was. */
  lemma {:induction false} StillTipHalvesGap(st: RecognizerState, frames: seq<Frame>, tip: Point)
    requires forall i :: 0 <= i < |frames| ==> frames[i].obs.Some? && frames[i].obs.value.indexTip == tip
    ensures Final(st, frames).smoothedX - tip.x == Mul(st.smoothedX - tip.x, HalfPow(|frames|))
    ensures Final(st, frames).smoothedY - tip.y == Mul(st.smoothedY - tip.y, HalfPow(|frames|))
    decreases |frames|
  {
    var n := |frames|;
    if n > 0 {
      var next := Step(st, frames[0].obs, frames[0].now).next;
      var rest := frames[1..];
      assert forall i :: 0 <= i < |rest| ==> rest[i] == frames[i + 1];
      StillTipHalvesGap(next, rest, tip);
      PresentFrameSmooths(st, frames[0].obs.value, frames[0].now);
      assert Final(st, frames) == Final(next, rest);
      MulHalf(st.smoothedX - tip.x, HalfPow(n - 1));
      MulHalf(st.smoothedY - tip.y, HalfPow(n - 1));
    }
  }

  /** Convergence is monotone: while the index tip stays put, the smoothed
      cursor never moves away from it on either axis. */
  lemma StillTipNeverMovesAway(st: RecognizerState, frames: seq<Frame>, tip: Point)
    requires forall i :: 0 <= i < |frames| ==> frames[i].obs.Some? && frames[i].obs.value.indexTip == tip
    ensures Abs(Final(st, frames).smoothedX - tip.x) <= Abs(st.smoothedX - tip.x)
    ensures Abs(Final(st, frames).smoothedY - tip.y) <= Abs(st.smoothedY - tip.y)
  {
    StillTipHalvesGap(st, frames, tip);
    MulShrinks(st.smoothedX - tip.x, HalfPow(|frames|));
    MulShrinks(st.smoothedY - tip.y, HalfPow(|frames|));
  }

  /** Scaling by a factor in (0, 1] never increases magnitude. */
  lemma MulShrinks(v: real, f: real)
    requires 0.0 < f <= 1.0
    ensures Abs(Mul(v, f)) <= Abs(v)
  {
    if v >= 0.0 {
      MulLeftMonotone(v, f, 1.0);
      MulLeftMonotone(v, 0.0, f);
    } else {
      MulLeftMonotone(-v, f, 1.0);
      assert Mul(-v, f) == -Mul(v, f);
      MulLeftMonotone(-v, 0.0, f);
    }
  }
}
