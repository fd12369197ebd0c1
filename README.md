# Hands-free gesture recogniser, modelled in Dafny

RealHandsFree drives an Android pointer with one hand seen by the front
camera. A landmark detector reports the hand's keypoints once per
processed frame. The tracking manager's result callback turns that stream
into a cursor position and discrete pointer actions:

- an exponential filter (factor 0.5) smooths the index-fingertip position;
- a two-state pinch machine compares the thumb-tip to index-tip distance
  with 0.08 (strictly below means pinch);
- on release, the pinch becomes a scroll if the smoothed cursor moved
  more than 0.05 since the onset, and a click at the onset point
  otherwise;
- a 300 ms debounce suppresses actions that come too soon after the
  previous one;
- every frame reports one cursor sample (position and pinch flag).

The project models that callback and the six fields it keeps
(`smoothedX`, `smoothedY`, `isPinching`, `startPinchX`, `startPinchY`,
`lastActionTime`).

- `arith.dfy`, module `RealArith`: products and squares of reals. The
  lemma `SquareBelowIffBelow` is what allows each `sqrt(q) < t` of the
  source to be written as `q < t²`.
- `gesture.dfy`, module `Gesture`: the values (points, the observed hand,
  cursor samples, `Click | Scroll`, the recogniser state) and the
  constants. `Step` is the pure transition of one frame, built from
  `Smooth`, `IsPinchShape`, `PinchTransition`, `OutsideDebounce` and
  `Classify`. The lemmas state what one frame does.
- `traces.dfy`, module `Traces`: runs over a sequence of frames (`Final`,
  `EmissionTimes`). It proves that the cursor stays in the unit square,
  that emitted actions are spaced by the debounce window, that frames
  without a hand freeze everything, and that the filter converges on a
  still fingertip.
- `tracking.dfy`, module `Tracking`: class `HandTrackingManager` with the
  six fields and an imperative `OnFrame` that updates them in the
  source's order. Its postcondition ties the new fields and both outputs
  to `Gesture.Step` applied to the old fields. Three client methods drive
  a click, a scroll and a debounced second click through `OnFrame`, and
  their postconditions state the outcome of each scenario, which is proved.

The source delivers results through callbacks: first the action
(`onClick` or `onScroll`), then `onCursorUpdate`. The model returns both
from a single `OnFrame` call. The clock `SystemClock.uptimeMillis()` is
the `now` parameter. The first detected hand's landmarks 8 and 4 are
passed in directly as `HandObservation(indexTip, thumbTip)`.

### Behaviour worth noting

- The smoothed position starts at 0 (HandTrackingManager.kt:44-45), so
  the first frame with a hand moves the cursor halfway from the origin
  toward the fingertip. `ClickScenario` uses this: a tip at (1, 1) brings
  the cursor to (0.5, 0.5).
- A frame without a hand returns early (lines 140-143). It changes no
  field and reports `pinching = false` to the cursor, but a pinch in
  progress stays in progress (`AbsentFrameChangesNothing`,
  `AbsentFramesFreeze`).
- `lastActionTime` starts at 0 (line 52) and the debounce test is a
  strict `>` (lines 179-180), so a fresh recogniser drops every release
  with `now <= 300` (`FreshRecognizerDropsEarlyReleases`).
- The debounce spacing holds whether or not the clock is monotonic,
  because `lastActionTime` moves only when an action fires
  (`EmissionsAreSpaced`).
- A release clears the pinch (line 171) before the debounce test (line
  180), so a debounced release still ends the pinch and its interval is
  dropped without an action.

## Model

| member | source | states |
|---|---|---|
| `RealArith.SquareBelowIffBelow` | app/src/main/java/com/yaxan/realhandsfree/tracking/HandTrackingManager.kt:152-159 | for d ≥ 0 and t > 0, d² < t² exactly when d < t, so comparing squared distances against squared thresholds decides what the source's `sqrt` comparisons decide |
| `Gesture.SqDist` | app/src/main/java/com/yaxan/realhandsfree/tracking/HandTrackingManager.kt:152-155 | the squared thumb-to-index distance is never negative and is zero exactly when the two points coincide |
| `Gesture.Smooth` | app/src/main/java/com/yaxan/realhandsfree/tracking/HandTrackingManager.kt:149-150 | one filter step lands between the old smoothed value and the raw value and halves the gap to the raw value |
| `Gesture.IsPinchShape` | app/src/main/java/com/yaxan/realhandsfree/tracking/HandTrackingManager.kt:152-159 | for the thumb-to-index distance d, pinch shape holds exactly when d < 0.08 (strict), so d = 0.08 is no pinch; computed by comparing the squared distance with 0.08² |
| `Gesture.OutsideDebounce` | app/src/main/java/com/yaxan/realhandsfree/tracking/HandTrackingManager.kt:180 | the test of line 180, `now − lastActionTime > 300`; its contract fixes the boundary (exactly +300 is suppressed, +301 fires) and the backwards-clock case (a reading not after the last action never fires); `Gesture.Release` states the full if-and-only-if for a release |
| `Gesture.Classify` | app/src/main/java/com/yaxan/realhandsfree/tracking/HandTrackingManager.kt:174-191 | for the distance d the smoothed cursor moved during the pinch, d > 0.05 gives Scroll(start, end) and any other d gives Click(start), so a move of exactly 0.05 clicks |
| `Gesture.PinchTransition` | app/src/main/java/com/yaxan/realhandsfree/tracking/HandTrackingManager.kt:159-194 | the pinch machine and classifier on an already smoothed state: it leaves the cursor where it is, afterwards pinching equals this frame's pinch shape, an action comes only from a release and sets lastActionTime to now, and without an action lastActionTime is kept; `Release`, `PinchOnset` and `PinchContinues` state each branch in full |
| `Gesture.Step` | app/src/main/java/com/yaxan/realhandsfree/tracking/HandTrackingManager.kt:136-197 | one frame: with a hand the new pinch flag is this frame's pinch shape, the cursor is reported at the new smoothed position and is pinching only with a hand present, and an action needs a present hand ending a pinch; the lemmas below state each path in full |
| `Gesture.AbsentFrameChangesNothing` | app/src/main/java/com/yaxan/realhandsfree/tracking/HandTrackingManager.kt:140-143 | a frame with no hand leaves all six fields unchanged (including a pinch in progress), emits nothing and reports (smoothedX, smoothedY, false) |
| `Gesture.PresentFrameSmooths` | app/src/main/java/com/yaxan/realhandsfree/tracking/HandTrackingManager.kt:149-150 | a frame with a hand puts each smoothed axis between its old value and the index tip, at half the old gap |
| `Gesture.PinchOnset` | app/src/main/java/com/yaxan/realhandsfree/tracking/HandTrackingManager.kt:159-166 | pinch shape while idle starts a pinch whose start point is the smoothed position after this frame's update; no action is emitted and lastActionTime is unchanged |
| `Gesture.PinchContinues` | app/src/main/java/com/yaxan/realhandsfree/tracking/HandTrackingManager.kt:159-167 | pinch shape while pinching keeps the start point, lastActionTime and the pinch, and emits nothing |
| `Gesture.IdleOpenHandOnlySmooths` | app/src/main/java/com/yaxan/realhandsfree/tracking/HandTrackingManager.kt:168-170 | an open hand while idle changes only the smoothed position and emits nothing |
| `Gesture.ActionOnlyOnRelease` | app/src/main/java/com/yaxan/realhandsfree/tracking/HandTrackingManager.kt:168-194 | an action is emitted only on a frame whose hand is present, out of pinch shape, and finds the machine pinching |
| `Gesture.Release` | app/src/main/java/com/yaxan/realhandsfree/tracking/HandTrackingManager.kt:168-194 | a release always clears the pinch and reports it cleared. It emits exactly when now − lastActionTime > 300, and the action is then the classification of start → smoothed position. lastActionTime becomes now if an action fired and is unchanged otherwise |
| `Gesture.DebounceOnEveryFrame` | app/src/main/java/com/yaxan/realhandsfree/tracking/HandTrackingManager.kt:179-181 | on any frame, lastActionTime changes only when an action fires, and then to a now more than 300 past the previous value |
| `Gesture.CursorReportsNewState` | app/src/main/java/com/yaxan/realhandsfree/tracking/HandTrackingManager.kt:196 | a frame with a hand reports the post-transition smoothed position and pinch flag |
| `Traces.StepPreservesUnitSquare` | app/src/main/java/com/yaxan/realhandsfree/tracking/HandTrackingManager.kt:149-165 | one frame keeps the smoothed position and the pinch start in [0,1]² when the index tip is in [0,1]² |
| `Traces.RunStaysInUnitSquare` | app/src/main/java/com/yaxan/realhandsfree/tracking/HandTrackingManager.kt:149-150 | from a state in [0,1]², every run whose index tips lie in [0,1]² ends in [0,1]² |
| `Traces.InitialStateInUnitSquare` | app/src/main/java/com/yaxan/realhandsfree/tracking/HandTrackingManager.kt:44-51 | the initial fields (all coordinates 0) lie in [0,1]² |
| `Traces.FreshRunStaysInUnitSquare` | app/src/main/java/com/yaxan/realhandsfree/tracking/HandTrackingManager.kt:44-51 | starting from the initial all-zero fields, every run whose index tips lie in [0,1]² keeps the smoothed cursor and the pinch start in [0,1]² |
| `Traces.EmissionsAreSpaced` | app/src/main/java/com/yaxan/realhandsfree/tracking/HandTrackingManager.kt:179-181 | over any run, at most one action is emitted per frame. Every emission is more than 300 after the starting lastActionTime, any two emissions are more than 300 apart, and lastActionTime ends at the last emission |
| `Traces.FreshRecognizerDropsEarlyReleases` | app/src/main/java/com/yaxan/realhandsfree/tracking/HandTrackingManager.kt:179-180 | a fresh recogniser emits only at clock values above 300, because lastActionTime starts at 0 |
| `Traces.AbsentFramesFreeze` | app/src/main/java/com/yaxan/realhandsfree/tracking/HandTrackingManager.kt:140-143 | any run of frames without a hand leaves the state unchanged and emits nothing |
| `Traces.StillTipHalvesGap` | app/src/main/java/com/yaxan/realhandsfree/tracking/HandTrackingManager.kt:149-150 | while the index tip stays put, after n frames the gap between cursor and tip on each axis is (1/2)ⁿ times the starting gap |
| `Traces.StillTipNeverMovesAway` | app/src/main/java/com/yaxan/realhandsfree/tracking/HandTrackingManager.kt:149-150 | while the index tip stays put, the gap between cursor and tip never grows on either axis |
| `Tracking.HandTrackingManager.constructor` | app/src/main/java/com/yaxan/realhandsfree/tracking/HandTrackingManager.kt:44-52 | a new manager starts at smoothed (0, 0), not pinching, start (0, 0), lastActionTime 0 |
| `Tracking.HandTrackingManager.OnFrame` | app/src/main/java/com/yaxan/realhandsfree/tracking/HandTrackingManager.kt:136-197 | the in-place update of the six fields, the cursor sample and the optional action are exactly `Gesture.Step` of the old fields. A frame without a hand changes nothing, and lastActionTime moves only when an action fires |
| `Tracking.ClickScenario` | app/src/main/java/com/yaxan/realhandsfree/tracking/HandTrackingManager.kt:159-191 | a pinch with no cursor movement, released after the debounce window, clicks at the onset point (0.5, 0.5) |
| `Tracking.ScrollScenario` | app/src/main/java/com/yaxan/realhandsfree/tracking/HandTrackingManager.kt:159-191 | a pinch during which the smoothed cursor moves 0.1 scrolls from (0.5, 0.5) to (0.5, 0.6) |
| `Tracking.DebounceScenario` | app/src/main/java/com/yaxan/realhandsfree/tracking/HandTrackingManager.kt:168-194 | of two clicks released 250 apart, only the first fires, and the second pinch is still cleared |

## Left out

- Floating point: coordinates are `real`, so 32-bit float rounding in the filter and the distance computations is not modelled.
- `sqrt`: both distances are compared through their squares; `SquareBelowIffBelow` shows this gives the same decisions on reals.
- 64-bit `Long` time arithmetic: `now` and `lastActionTime` are unbounded integers. The uptime clock is non-negative and far from overflow, so `now - lastActionTime` cannot wrap in practice.
- Landmark extraction: the model takes the two tip points of the first hand directly. Indexing an observation with fewer than 9 landmarks (an exception in the source) and the other 19 landmarks are not modelled. Hands after the first are ignored, as in the source.
- Detector and camera setup (`setupHandLandmarker`, `startCamera`), frame conversion (`detectLiveStream`) and `stop`: these are foreign library calls and I/O.
- The `isBusy` drop-when-busy flag and the background executor: they give cross-thread backpressure, and the model has no threads.
- Forwarding the raw result to `onResults`, and the log lines: they are outside effects that do not affect the recogniser's state.
- The cursor overlay's pixel mapping, the accessibility service's gesture dispatch and the permission UI: they are platform UI and input, outside the recogniser.
