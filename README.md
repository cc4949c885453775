# Gesture pipeline of the portfolio hub, modelled in Dafny

The portfolio site can be driven by a webcam hand. Each camera frame's 21
hand landmarks pass through the following stages:

1. An exponential smoother.
2. A gesture recogniser: a small state machine over pose, pinch, edge scroll
   and hand-scale change, with wake-up, latch and cooldown timers.
3. A projection that mirrors the index tip onto the window.
4. An action layer of React state cells (focus, confirm, summon, dismiss,
   scroll).
5. The views that react to it: the application shell, the universe landing
   view, the personal memory map and the professional project carousel.

A stand-alone "gesture lab" page has its own older copy of the recogniser and
smoother, plus a page controller for a card strip.

The project models these pieces on exact reals and unbounded integers, module
by module:

| module | models |
|---|---|
| `Wrappers` | `Option` |
| `JsMath` | the JavaScript number operations used: truncating `%`, `Math.round`, clamping, `Math.abs` |
| `JsStrings` | `split`, `trim` with the ECMAScript white-space set, `filter(Boolean)` |
| `Landmarks` | the 21-point hand and squared distances; every distance comparison of the source is made on squares |
| `GestureLogic` | the recogniser's per-frame transition `Step` as a function, and `Run` over a sequence of frames |
| `Recognizer` | the `GestureRecognizer` class as written (fields updated with early returns), proved to perform `Step` |
| `GestureProperties` | what the recogniser promises, proved about `Step` and `Run` |
| `Smoothing` | both landmark smoothers, the agreement between them, convexity and geometric convergence |
| `ViewStates`, `Actions` | the view enum and the action layer |
| `App` | focus resolution from the DOM under the cursor, gesture dispatch, the confirm and dismiss effects |
| `GestureController` | one detection frame: smooth, recognise, project |
| `UniverseView`, `PersonalGalaxy`, `ProfessionalGalaxy` | the three views' state and handlers |
| `LabUi` | the lab page controller, as transitions on a state value, with a class proved to perform them |

Square roots and `Math.sqrt` are a function parameter. DOM queries,
`elementsFromPoint`, card layouts and hit tests are inputs. Clocks are
timestamp parameters.

## Model

| member | source | states |
|---|---|---|
| `JsMath.Trunc` | components/ProfessionalGalaxy.tsx:48 | the integer part toward zero: within one of `x` on the side of zero |
| `JsMath.RealRem` | components/ProfessionalGalaxy.tsx:48 | JavaScript `%` on numbers: `a` less a whole multiple of `n`, in `[0, n)` for `a >= 0` and in `(-n, 0]` for `a < 0` |
| `JsMath.IntRem` | components/ProfessionalGalaxy.tsx:54 | JavaScript `%` on integers: `a` less a whole multiple of `n`, in `[0, n)` for `a >= 0` and in `(-n, 0]` for `a < 0` |
| `JsMath.IntRemUnique` | components/ProfessionalGalaxy.tsx:54 | those three properties determine the remainder: any value that has them is `IntRem(a, n)` |
| `JsMath.Round` | components/ProfessionalGalaxy.tsx:53 | `Math.round`: within half of `x`, halves go up |
| `JsMath.Clamp` | components/ProfessionalGalaxy.tsx:120 | the result is in `[lo, hi]`; it is `x` itself when `x` already is, `hi` above the range and `lo` below it |
| `JsMath.Abs` | apps/gesture-lab/src/ui.js:215 | non-negative and equal to `x` or `-x` |
| `JsStrings.Split` | components/ProfessionalGalaxy.tsx:126 | at least one piece, no piece contains the separator, and joining the pieces gives the text back |
| `JsStrings.SplitNoSeparator` | components/ProfessionalGalaxy.tsx:126 | a text without the separator splits into itself alone |
| `JsStrings.SplitFirstLine` | components/ProfessionalGalaxy.tsx:126 | splitting at the first separator gives the first line, then the pieces of the rest |
| `JsStrings.TrimStart` | components/ProfessionalGalaxy.tsx:127 | a suffix of the text; everything cut is white space and the result does not start with white space |
| `JsStrings.TrimEnd` | components/ProfessionalGalaxy.tsx:127 | a prefix of the text; everything cut is white space and the result does not end with white space |
| `JsStrings.Trim` | components/ProfessionalGalaxy.tsx:127 | a slice of the text such that everything cut away before and after it is white space, with no white space at either end of the slice |
| `JsStrings.TrimUnique` | components/ProfessionalGalaxy.tsx:127 | any slice that cuts away only white space and keeps none at its ends is the trim |
| `JsStrings.TrimEmpty` | components/ProfessionalGalaxy.tsx:127-128 | a text trims to empty exactly when it is all white space |
| `JsStrings.TrimKeepsOut` | components/ProfessionalGalaxy.tsx:127 | trimming introduces no character |
| `JsStrings.TrimIdempotent` | components/ProfessionalGalaxy.tsx:127 | trimming twice is trimming once |
| `JsStrings.TrimAll` | components/ProfessionalGalaxy.tsx:127 | same length; each entry is the trim of the corresponding piece |
| `JsStrings.TrimAllConcat` | components/ProfessionalGalaxy.tsx:127 | trimming every piece of a concatenation trims each part in turn |
| `JsStrings.NonEmpty` | components/ProfessionalGalaxy.tsx:128 | only non-empty strings of the input survive, all of them, each as often as in the input (equal multisets once `""` is removed) |
| `JsStrings.NonEmptyConcat` | components/ProfessionalGalaxy.tsx:128 | the survivors of `xs + ys` are those of `xs` followed by those of `ys`, so the input order is kept |
| `JsStrings.NonEmptySingle` | components/ProfessionalGalaxy.tsx:128 | a single string survives by itself exactly when it is non-empty |
| `Landmarks.SqDist` | gesture/gesture-logic.ts:182-184 | the squared planar distance is non-negative |
| `Landmarks.DistanceComparison` | gesture/gesture-logic.ts:197-206 | comparing `dist > k * dist'` or `dist < k * dist'` is the same as comparing squares against `k * k` times the other square |
| `Landmarks.ThresholdComparison` | gesture/gesture-logic.ts:137-142 | comparing a distance with a threshold is the same as comparing its square with the squared threshold |
| `GestureLogic.CountExtended` | gesture/gesture-logic.ts:195-200 | the number of extended fingers among the first `n` is at most `n` |
| `GestureLogic.CountCurled` | gesture/gesture-logic.ts:202-206 | at most four fingers are curled |
| `GestureLogic.PoseOf` | gesture/gesture-logic.ts:190-213 | never UNKNOWN. OPEN iff three or more fingers are extended. CLOSED iff fewer than three are extended and either three or more are curled or at most one is extended. NEUTRAL iff exactly two are extended and fewer than three are curled. |
| `GestureLogic.Recent` | gesture/gesture-logic.ts:100 | only samples younger than the window, all from the history, and the newest sample survives when it is young enough |
| `GestureLogic.DetectScroll` | gesture/gesture-logic.ts:233-237 | LEFT iff the cursor is below the threshold; RIGHT iff not LEFT and above one minus it, which for a threshold under one half is just the right band |
| `GestureLogic.DetectComplexScale` | gesture/gesture-logic.ts:239-251 | SUMMON iff the hand shrank past the threshold while CLOSED; DISMISS iff it grew past it while OPEN; nothing else is reported |
| `GestureLogic.WakeStage` | gesture/gesture-logic.ts:119-132 | asleep, a frame reports at most WAKE. WAKE exactly for an OPEN, steady hand held strictly longer than the hold time. The awake flag is set by WAKE. The timer resets unless the pose holds. No other field changes. |
| `GestureLogic.MotionStage` | gesture/gesture-logic.ts:160-177 | never WAKE or CONFIRM. Scrolls keep the state. Scale gestures stamp the time and clear the history. No gesture means no change. |
| `GestureLogic.Run` | gesture/gesture-logic.ts:78-180 | one outcome per frame |
| `Recognizer.GestureRecognizer.constructor` | gesture/gesture-logic.ts:49-76 | asleep, no history, every timer at zero, pose UNKNOWN, with the given config |
| `Recognizer.GestureRecognizer.GetHandPose` | gesture/gesture-logic.ts:190-213 | the counting loop returns exactly `PoseOf` of the hand |
| `Recognizer.GestureRecognizer.Process` | gesture/gesture-logic.ts:78-180 | the imperative `process` returns the result of `Step` and leaves exactly its next state |
| `Recognizer.GestureRecognizer.AwaitWake` | gesture/gesture-logic.ts:119-132 | the sleeping branch performs `WakeStage` |
| `Recognizer.GestureRecognizer.TrackPinch` | gesture/gesture-logic.ts:134-158 | the pinch branch performs `PinchStage` |
| `Recognizer.GestureRecognizer.TrackMotion` | gesture/gesture-logic.ts:160-177 | the scroll and scale branch performs `MotionStage` |
| `GestureProperties.FingerTestsAgreeWithDistances` | gesture/gesture-logic.ts:190-206 | the squared finger tests give the same answers as the source's comparisons of square-rooted distances |
| `GestureProperties.ThresholdTestsAgreeWithDistances` | gesture/gesture-logic.ts:134-142 | the squared pinch, release and steadiness tests agree with the comparisons of `_distance` with 0.1, 0.15 and 0.05 |
| `GestureProperties.ConfigsAgree` | apps/gesture-lab/src/gesture-logic.js:15-24 | both constant sets are usable. They differ only in the scale threshold, the scale window and the cooldown. |
| `GestureProperties.NoHandFrame` | gesture/gesture-logic.ts:79-84 | no hand: nothing reported, history emptied, presence timer reset, pose forgotten; latch, awake flag, pinch timer and stamp kept |
| `GestureProperties.HandFrameReport` | gesture/gesture-logic.ts:102-117 | a hand frame always reports the raw index tip, the remembered non-UNKNOWN pose, the awake flag after the frame and the scale delta |
| `GestureProperties.HandFrameStep` | gesture/gesture-logic.ts:86-134 | a hand frame is well formed, and awake it is the pinch stage run on the recorded state |
| `GestureProperties.RecentIsFilter` | gesture/gesture-logic.ts:100 | `Recent` keeps exactly the samples younger than the window |
| `GestureProperties.RecentSorted` | gesture/gesture-logic.ts:100 | `Recent` keeps time order |
| `GestureProperties.StepHistory` | gesture/gesture-logic.ts:92-100 | after a hand frame without a scale gesture the history is the recorded one |
| `GestureProperties.HistoryAfterHandFrame` | gesture/gesture-logic.ts:92-100 | the history is empty after a scale gesture. Otherwise it is this frame's sample after the earlier samples younger than a second, kept in time order. |
| `GestureProperties.RecordedHistory` | gesture/gesture-logic.ts:92-100 | recording appends this frame's wrist sample and keeps exactly the earlier samples younger than a second, in time order |
| `GestureProperties.ShortHistoryIsInert` | gesture/gesture-logic.ts:215-231 | with fewer than five samples the hand is never steady and the scale delta is zero |
| `GestureProperties.AsleepOnlyWakes` | gesture/gesture-logic.ts:119-132 | asleep: at most WAKE, exactly on an OPEN steady hand held long enough; pinch fields and stamp untouched |
| `GestureProperties.AwakeFlag` | gesture/gesture-logic.ts:119-132 | the awake flag is set exactly by WAKE, never cleared, and an awake recogniser never reports WAKE |
| `GestureProperties.ConfirmConditions` | gesture/gesture-logic.ts:134-158 | CONFIRM iff awake, unlatched, below the engage threshold and held longer than the hold time. It then latches, stamps the time and skips scroll and scale. |
| `GestureProperties.LatchTransitions` | gesture/gesture-logic.ts:136-150 | a latched pinch is released exactly above the release threshold, and an open one closes exactly when CONFIRM fires; otherwise the latch is kept |
| `GestureProperties.MotionGestures` | gesture/gesture-logic.ts:160-177 | the scroll and scale stage reports LEFT or RIGHT exactly for an OPEN hand in the edge band, SUMMON and DISMISS exactly under their delta and strictly-after-cooldown conditions, DISMISS only outside the edge band |
| `GestureProperties.PinchStageFacts` | gesture/gesture-logic.ts:134-177 | the awake stage reports something and never WAKE. CONFIRM iff the pinch fires; each scroll and scale gesture iff it did not fire and its own conditions hold. The progress is the elapsed share of the hold time on an unfired pinch. The latch, pinch timer, stamp and history follow the branch taken; nothing else changes. |
| `GestureProperties.PinchProgress` | gesture/gesture-logic.ts:142-157 | with a coherent timer the progress is in `[0, 1]`. It is non-zero only on an awake, unlatched pinch that has not fired, and then it is the elapsed share of the hold time. |
| `GestureProperties.AwakeProgress` | gesture/gesture-logic.ts:142-157 | awake with a coherent timer: progress in `[0, 1]`, and non-zero only on an unlatched pinch below the engage threshold that did not fire, where it is the elapsed share of the hold time |
| `GestureProperties.CoherentStep` | gesture/gesture-logic.ts:139-155 | a step keeps the pinch timer non-negative and not after any later frame |
| `GestureProperties.ScrollConditions` | gesture/gesture-logic.ts:160-167 | LEFT or RIGHT exactly for an awake OPEN hand in the edge band when CONFIRM did not fire; no cooldown, stamp and history untouched |
| `GestureProperties.ScaleConditions` | gesture/gesture-logic.ts:169-177 | SUMMON and DISMISS exactly under their pose, delta and strictly-after-cooldown conditions; either stamps the time and empties the history |
| `GestureProperties.GestureStamp` | gesture/gesture-logic.ts:146-175 | `lastGestureTime` moves to the frame time exactly on CONFIRM, SUMMON and DISMISS |
| `GestureProperties.RunStep` | gesture/gesture-logic.ts:78-180 | frame `k` of a run is processed from the state the earlier frames left |
| `GestureProperties.StaysAwake` | gesture/gesture-logic.ts:119-132 | once awake, awake for the rest of the run, with no further WAKE |
| `GestureProperties.WakeAwakens` | gesture/gesture-logic.ts:119-132 | after a frame that reports WAKE the recogniser is awake |
| `GestureProperties.WakeAtMostOnce` | gesture/gesture-logic.ts:119-132 | a run reports WAKE at most once |
| `GestureProperties.NothingBeforeWake` | gesture/gesture-logic.ts:119-132 | from asleep, every frame before the WAKE is asleep and reports nothing else |
| `GestureProperties.LatchedUntilRelease` | gesture/gesture-logic.ts:136-150 | from a latched state a CONFIRM needs a release frame before it |
| `GestureProperties.ConfirmsSeparatedByRelease` | gesture/gesture-logic.ts:136-150 | between two CONFIRMs of a run lies a hand frame opened beyond the release threshold |
| `GestureProperties.CoherentAlongRun` | gesture/gesture-logic.ts:142-153 | with non-decreasing timestamps the pinch timer stays coherent |
| `GestureProperties.ProgressInUnitAlongRun` | gesture/gesture-logic.ts:142-157 | with non-decreasing timestamps every reported pinch progress is in `[0, 1]` |
| `GestureProperties.StampNotBefore` | gesture/gesture-logic.ts:146-175 | after a stamping gesture the stamp is never earlier than that frame |
| `GestureProperties.RunStamp` | gesture/gesture-logic.ts:146-175 | along a run, a frame moves the stamp to its own time exactly when it reports CONFIRM, SUMMON or DISMISS, and keeps it otherwise |
| `GestureProperties.NoScaleGestureWithinCooldown` | gesture/gesture-logic.ts:169-177 | no SUMMON or DISMISS within the cooldown (inclusive) after an earlier CONFIRM, SUMMON or DISMISS |
| `Smoothing.EmaAll` | gesture/smoothing.ts:16-23 | same length; point `i` is the moving average of point `i` of each array only |
| `Smoothing.LandmarkSmoother.constructor` | gesture/smoothing.ts:5-8 | the given factor and no memory |
| `Smoothing.LandmarkSmoother.Smooth` | gesture/smoothing.ts:10-26 | returns `SmoothStep` of the memory and remembers what it returned |
| `Smoothing.LabLandmarkSmoother.constructor` | apps/gesture-lab/src/smoothing.js:6-10 | the given factor and no memory |
| `Smoothing.LabLandmarkSmoother.Smooth` | apps/gesture-lab/src/smoothing.js:12-33 | returns `LabSmoothStep`; a missing input leaves the memory, any other input replaces it with the result |
| `Smoothing.SmoothKeepsLength` | gesture/smoothing.ts:11-23 | as many points out as in |
| `Smoothing.SmoothBootstraps` | gesture/smoothing.ts:11-14 | without a stored array of the same length the input comes back unchanged |
| `Smoothing.LerpIsEma` | apps/gesture-lab/src/smoothing.js:35-38 | the lab's interpolation is the same average |
| `Smoothing.LabAgreesWithTs` | apps/gesture-lab/src/smoothing.js:12-33 | the lab passes a missing input through and returns the first input as is; on a store of equal length it equals the other smoother |
| `Smoothing.EmaBetween` | gesture/smoothing.ts:18-22 | for a factor in `[0, 1]` the average lies between the old and new value |
| `Smoothing.SmoothIsConvex` | gesture/smoothing.ts:16-23 | every smoothed coordinate lies between the stored and the new one |
| `Smoothing.SmoothFixedPoint` | gesture/smoothing.ts:16-23 | feeding back the stored array changes nothing |
| `Smoothing.SmoothContracts` | gesture/smoothing.ts:18-22 | the gap to the input shrinks by the factor `1 - alpha` per coordinate |
| `Smoothing.SmoothConverges` | gesture/smoothing.ts:16-23 | under a constant input the gap after `n` calls is `(1 - alpha)^n` times the first |
| `Smoothing.PointConverges` | gesture/smoothing.ts:16-23 | under a constant input each coordinate of point `i` is off by `(1 - alpha)^n` times its first gap |
| `Smoothing.EmaConverges` | gesture/smoothing.ts:18-22 | one coordinate after `n` updates is `(1 - alpha)^n` of the first gap from the target |
| `Smoothing.RepeatPointwise` | gesture/smoothing.ts:16-23 | point `i` of repeated smoothing follows only point `i` of the inputs |
| `Smoothing.PowInUnit` | gesture/smoothing.ts:18-22 | the contraction factor raised to any power stays in `[0, 1]`, so the gap never grows |
| `ViewStates.ViewOfId` | App.tsx:63 | the cast view spells the string, and is unlisted iff the string is none of the enum's three |
| `ViewStates.ViewNameRoundTrip` | types.ts:1-5 | casting a view's own name gives the view back |
| `Actions.ActionLayer.constructor` | actions.ts:29-34 | no focus, no confirmed target, every counter at zero |
| `Actions.ActionLayer.SetFocus` | actions.ts:29 | the focus is the target and nothing else changes |
| `Actions.ActionLayer.Confirm` | actions.ts:36-40 | stores the given target (`null` too) or else the current focus, and bumps only `confirmId` |
| `Actions.ActionLayer.Summon` | actions.ts:41 | bumps only `summonId` |
| `Actions.ActionLayer.Dismiss` | actions.ts:42 | bumps only `dismissId` |
| `Actions.ActionLayer.ScrollBy` | actions.ts:43-46 | bumps the scroll id, replaces its delta, and changes nothing else |
| `App.Resolve` | App.tsx:60-76 | a node names a target only with a truthy type and the attribute its kind needs, and the target carries that attribute's value |
| `App.FirstSome` | App.tsx:107-113 | nothing is found iff every entry is absent |
| `App.FirstSomeAt` | App.tsx:107-113 | a present entry with only absent ones before it is the one found |
| `App.ParseFocusTarget` | App.tsx:57-81 | the walk returns the nearest naming node's target, and `null` iff no node of the chain names one |
| `App.SyncedFocus` | App.tsx:107-120 | the first resolving element, or nothing. It differs from that element exactly for a world target on the universe view in the top 35% of the window. |
| `App.SameFocus` | App.tsx:83-91 | `null` only equals `null`; on canonical targets the test is equality; it is reflexive |
| `App.SameFocusSymmetric` | App.tsx:83-91 | the test does not depend on argument order |
| `App.CanonicalByName` | types.ts:1-5 | two canonical views with the same string are the same view |
| `App.AppShell.constructor` | App.tsx:15-24 | universe view, guide closed, gestures off, cursor parked at (-1000, -1000), fresh action layer |
| `App.AppShell.OnMouseMove` | App.tsx:45-55 | the mouse moves the cursor unless gestures are on and a hand cursor came less than 800 ms ago |
| `App.AppShell.OnGestureCursor` | App.tsx:364-369 | a hand cursor replaces the cursor and stamps the time; `null` changes nothing |
| `App.AppShell.ToggleGestures` | App.tsx:374 | flips gesture mode and nothing else |
| `App.AppShell.OnCursorHover` | App.tsx:93-100 | in gesture mode the target under the cursor becomes the focus when it differs; no signal moves |
| `App.AppShell.SyncFocusFromCursor` | App.tsx:102-125 | with no cursor nothing happens and nothing is returned; otherwise `SyncedFocus` becomes the focus (if it differs) and is returned |
| `App.AppShell.HandleGesture` | App.tsx:127-148 | CONFIRM and SUMMON both confirm the synced focus and, with a cursor, leave it as the focus when it differs; the scrolls send -1 and +1; DISMISS dismisses; the summon counter never moves |
| `App.AppShell.OnConfirmSignal` | App.tsx:150-165 | a confirmed world opens its view, the guide opens and closes, back returns to the universe, and the first confirm or `null` does nothing |
| `App.AppShell.OnDismissSignal` | App.tsx:167-170 | any dismiss closes the guide |
| `GestureController.HandOffset` | components/GestureController.tsx:157-158 | +0.04 for Right, -0.04 for Left, 0 otherwise |
| `GestureController.ProjectionRoundTrip` | components/GestureController.tsx:159-165 | the raw tip is recovered from the pixels |
| `GestureController.ProjectionMonotone` | components/GestureController.tsx:159-165 | mirrored horizontally, order-preserving vertically |
| `GestureController.ProjectionCentre` | components/GestureController.tsx:159-165 | the window centre comes from raw `x = 0.5 + offset`, `y = 0.2` |
| `GestureController.ProjectionOvershoots` | components/GestureController.tsx:159-165 | nothing is clamped: the image's right and bottom edges land beyond the window |
| `GestureController.Pipeline.constructor` | components/GestureController.tsx:26-27 | a smoother with factor 0.2 and a fresh recogniser on the default config |
| `GestureController.Pipeline.Predict` | components/GestureController.tsx:141-176 | no hand withdraws the cursor. A hand is smoothed and recognised at the same time, its cursor is projected, and a gesture is passed on only when it exists. |
| `UniverseView.BoundaryMatchesSuppression` | components/UniverseView.tsx:28 | a world target survives the shell's suppression exactly when the cursor is below the zones' hover boundary |
| `UniverseView.HoverForFocus` | components/UniverseView.tsx:30-39 | in gesture mode a world focus highlights its view and no focus clears it; otherwise the highlight is kept |
| `UniverseView.GestureHoverFollowsFocus` | components/UniverseView.tsx:30-39 | with gestures on a world focus and the highlight name the same view; with them off the highlight is untouched |
| `UniverseView.UniverseScreen.constructor` | components/UniverseView.tsx:24 | no zone highlighted |
| `UniverseView.UniverseScreen.OnFocusChange` | components/UniverseView.tsx:30-39 | the effect sets the highlight to `HoverForFocus` |
| `UniverseView.UniverseScreen.Focus` | components/UniverseView.tsx:30-39 | sets the focus and runs the effect whenever React sees a new value: always for a target, which is a fresh object, and for `null` unless the focus was already `null` |
| `UniverseView.UniverseScreen.MouseMove` | components/UniverseView.tsx:156-166 | below the boundary the zone is highlighted and focused; above it the highlight goes, and the focus too if it is this zone |
| `UniverseView.UniverseScreen.MouseLeave` | components/UniverseView.tsx:167-172 | the highlight goes and the focus is cleared only if it is this zone |
| `UniverseView.UniverseScreen.Click` | components/UniverseView.tsx:173-177 | focuses and confirms the zone, bumps only `confirmId`, and selects the zone's view; in gesture mode the effect highlights the zone |
| `UniverseView.UniverseScreen.GuideEnter` | components/UniverseView.tsx:107-115 | the guide becomes the focus, the highlight is kept |
| `UniverseView.UniverseScreen.GuideLeave` | components/UniverseView.tsx:107-115 | the focus is cleared only if it is the guide |
| `UniverseView.UniverseScreen.GuideClick` | components/UniverseView.tsx:107-115 | focuses and confirms the guide and asks for the opposite of its open state |
| `PersonalGalaxy.FindIndex` | components/PersonalGalaxy.tsx:445 | the first index holding the id, or -1 iff none does |
| `PersonalGalaxy.FindMemory` | components/PersonalGalaxy.tsx:455 | the first memory with the id, or none iff there is none |
| `PersonalGalaxy.NextMemory` | components/PersonalGalaxy.tsx:444-448 | none iff there are no memories. Otherwise: from nothing or an unlisted memory, the first; from the last, the first; else the following one. |
| `PersonalGalaxy.SummonFrom` | components/PersonalGalaxy.tsx:444-448 | `k` summons from memory `i` land on memory `(i + k) mod n` |
| `PersonalGalaxy.SummonAdvance` | components/PersonalGalaxy.tsx:444-448 | with distinct ids each summon moves one place on, the last wrapping to the first |
| `PersonalGalaxy.SummonCycles` | components/PersonalGalaxy.tsx:444-448 | with distinct ids, `k` summons from nothing land on memory `(k - 1) mod n` |
| `PersonalGalaxy.SummonFullRound` | components/PersonalGalaxy.tsx:444-448 | `n` summons bring a memory back |
| `PersonalGalaxy.OffsetFor` | components/PersonalGalaxy.tsx:432-442 | the active memory ends up at (25, 50); with none the map is at rest |
| `PersonalGalaxy.HoveredFor` | components/PersonalGalaxy.tsx:473-481 | a place focus highlights its id; any other focus or none clears the highlight |
| `PersonalGalaxy.ConfirmedMemory` | components/PersonalGalaxy.tsx:452-461 | a confirmed place opens its memory when one has that id; anything else keeps the active memory |
| `PersonalGalaxy.SummonEffectNeverSettles` | components/PersonalGalaxy.tsx:463-466 | as written, after any number of jumps the summon effect's dependency changes again, so it reruns |
| `PersonalGalaxy.PersonalGalaxyView.constructor` | components/PersonalGalaxy.tsx:428-431 | nothing active or highlighted, the map at rest |
| `PersonalGalaxy.PersonalGalaxyView.SetActive` | components/PersonalGalaxy.tsx:432-442 | sets the active memory and moves the map to centre it |
| `PersonalGalaxy.PersonalGalaxyView.HandleSummon` | components/PersonalGalaxy.tsx:444-448 | the active memory becomes `NextMemory` of the old one |
| `PersonalGalaxy.PersonalGalaxyView.CloseMemory` | components/PersonalGalaxy.tsx:450 | nothing active and the map at rest |
| `PersonalGalaxy.PersonalGalaxyView.OnConfirmSignal` | components/PersonalGalaxy.tsx:452-461 | the active memory becomes `ConfirmedMemory` |
| `PersonalGalaxy.PersonalGalaxyView.OnSummonSignal` | components/PersonalGalaxy.tsx:463-466 | one jump per summon signal, none before the first |
| `PersonalGalaxy.PersonalGalaxyView.OnDismissSignal` | components/PersonalGalaxy.tsx:468-471 | any dismiss closes the memory |
| `PersonalGalaxy.PersonalGalaxyView.OnFocusChange` | components/PersonalGalaxy.tsx:473-481 | the highlight becomes `HoveredFor` of the focus |
| `PersonalGalaxy.PersonalGalaxyView.MarkerEnter` | components/PersonalGalaxy.tsx:540-543 | the marker is highlighted and becomes the focus |
| `PersonalGalaxy.PersonalGalaxyView.MarkerLeave` | components/PersonalGalaxy.tsx:544-549 | the highlight goes; the focus is cleared only if it is this marker |
| `PersonalGalaxy.PersonalGalaxyView.MarkerClick` | components/PersonalGalaxy.tsx:550-555 | focuses and confirms the marker and opens its memory; with distinct ids that is this very memory. The focus effect highlights the marker. |
| `PersonalGalaxy.PersonalGalaxyView.BackEnter` | components/PersonalGalaxy.tsx:578 | the exit becomes the focus, which clears a marker highlight |
| `PersonalGalaxy.PersonalGalaxyView.BackLeave` | components/PersonalGalaxy.tsx:579-583 | the focus is cleared only if it is the exit |
| `PersonalGalaxy.PersonalGalaxyView.BackClick` | components/PersonalGalaxy.tsx:584-588 | focuses and confirms the exit, bumps only `confirmId`, leaves the active memory; the focus effect clears a marker highlight |
| `ProfessionalGalaxy.SameAngleWithinTurn` | components/ProfessionalGalaxy.tsx:47-50 | two angles that are equal modulo whole turns, and less than a turn apart, are equal |
| `ProfessionalGalaxy.ClosestRotationAsWritten` | components/ProfessionalGalaxy.tsx:47-50 | `getClosestRotation` as written gives the target's angle, and stays within half a turn only while `target - current + 540 >= 0` |
| `ProfessionalGalaxy.ClosestRotationLongWay` | components/ProfessionalGalaxy.tsx:47-50 | from 1000 towards 0, the written version gives 720, more than half a turn back; the intended one gives 1080 |
| `ProfessionalGalaxy.FloorRem` | components/ProfessionalGalaxy.tsx:48 | a remainder in `[0, n)` that is a whole number of `n` steps from `a` |
| `ProfessionalGalaxy.ClosestRotation` | components/ProfessionalGalaxy.tsx:47-50 | the angle equal to the target modulo turns, in `[-180, 180)` of the current angle |
| `ProfessionalGalaxy.ClosestRotationUnique` | components/ProfessionalGalaxy.tsx:47-50 | that angle is the only one with both properties |
| `ProfessionalGalaxy.ClosestRotationIdempotent` | components/ProfessionalGalaxy.tsx:47-50 | turning again to the same target turns no further |
| `ProfessionalGalaxy.AsWrittenAgreesInRange` | components/ProfessionalGalaxy.tsx:47-50 | where the written version stays in range it equals the intended one |
| `ProfessionalGalaxy.SelectedIndex` | components/ProfessionalGalaxy.tsx:52-56 | a valid card index: the mathematical residue of the rounded snap index |
| `ProfessionalGalaxy.Snapped` | components/ProfessionalGalaxy.tsx:112-116 | a whole number of card angles, within half a card of the rotation, with the same card in front |
| `ProfessionalGalaxy.WheelRotation` | components/ProfessionalGalaxy.tsx:118-122 | moves at most 0.2 degrees; the horizontal delta wins unless zero; within ±25 the move is minus delta times 0.008; a chosen delta above 25 moves the ring by exactly -0.2 and one below -25 by exactly +0.2 |
| `ProfessionalGalaxy.ScrollRotation` | components/ProfessionalGalaxy.tsx:83-87 | no move before the first signal or for a zero delta; a positive delta turns back, a negative one forward; a signal moves the ring by exactly 15 degrees per unit of delta |
| `ProfessionalGalaxy.ScrollAllTurns` | components/ProfessionalGalaxy.tsx:83-87 | a series of scroll signals turns the ring by minus 15 times the sum of the deltas of the signals with a non-zero id |
| `ProfessionalGalaxy.RepeatedScroll` | components/ProfessionalGalaxy.tsx:83-87 | `k` signals of delta `d` move the ring by exactly `-15 * k * d` |
| `ProfessionalGalaxy.IndexById` | components/ProfessionalGalaxy.tsx:46 | absent iff the id is not listed; otherwise an index holding it with no later one holding it |
| `ProfessionalGalaxy.IndexOfDistinct` | components/ProfessionalGalaxy.tsx:46 | with distinct ids a card's own id maps to its index |
| `ProfessionalGalaxy.TechnicalItems` | components/ProfessionalGalaxy.tsx:124-128 | the items are the non-blank trimmed lines, each as often as it occurs |
| `ProfessionalGalaxy.TechnicalItemsOneLine` | components/ProfessionalGalaxy.tsx:124-128 | a one-line text gives its trimmed line, or nothing if that is blank |
| `ProfessionalGalaxy.TechnicalItemsFirstLine` | components/ProfessionalGalaxy.tsx:124-128 | the items of a text are the first line's trimmed text unless it is blank, then the items of the rest: line order is kept |
| `ProfessionalGalaxy.TechnicalItemsClean` | components/ProfessionalGalaxy.tsx:124-128 | no item is blank, spans lines or has white space at an end |
| `ProfessionalGalaxy.ProfessionalGalaxyView.constructor` | components/ProfessionalGalaxy.tsx:35-40 | rotation 0, first card selected, details closed, not dragging |
| `ProfessionalGalaxy.ProfessionalGalaxyView.RotateTo` | components/ProfessionalGalaxy.tsx:52-56 | the rotation is set and the selection follows it |
| `ProfessionalGalaxy.ProfessionalGalaxyView.OnConfirmSignal` | components/ProfessionalGalaxy.tsx:58-71 | a confirmed project turns its card to the front the short way and opens details; a confirmed link is opened |
| `ProfessionalGalaxy.ProfessionalGalaxyView.OnSummonSignal` | components/ProfessionalGalaxy.tsx:73-76 | any summon opens the details |
| `ProfessionalGalaxy.ProfessionalGalaxyView.OnDismissSignal` | components/ProfessionalGalaxy.tsx:78-81 | any dismiss closes the details |
| `ProfessionalGalaxy.ProfessionalGalaxyView.OnScrollSignal` | components/ProfessionalGalaxy.tsx:83-87 | the rotation becomes `ScrollRotation` and the selection follows |
| `ProfessionalGalaxy.ProfessionalGalaxyView.OnFocusChange` | components/ProfessionalGalaxy.tsx:89-96 | a project focus turns its card to the front unless a drag is on |
| `ProfessionalGalaxy.ProfessionalGalaxyView.DragStart` | components/ProfessionalGalaxy.tsx:98-103 | dragging starts from the pointer and the current rotation |
| `ProfessionalGalaxy.ProfessionalGalaxyView.DragMove` | components/ProfessionalGalaxy.tsx:105-110 | while dragging the ring follows the pointer at 0.4 degrees per pixel from the start |
| `ProfessionalGalaxy.ProfessionalGalaxyView.DragEnd` | components/ProfessionalGalaxy.tsx:89-116 | the drag ends and the ring snaps to `Snapped`, the same card staying in front. When a drag was on, `isDragging` changes, so the focus effect reruns and turns a focused project from the snapped angle to the front. |
| `ProfessionalGalaxy.ProfessionalGalaxyView.Wheel` | components/ProfessionalGalaxy.tsx:118-122 | the rotation becomes `WheelRotation` |
| `ProfessionalGalaxy.ProfessionalGalaxyView.CardEnter` | components/ProfessionalGalaxy.tsx:222-227 | the card becomes the focus. With no drag and distinct ids it comes to the front the short way; during a drag the ring stays. |
| `ProfessionalGalaxy.ProfessionalGalaxyView.CardLeave` | components/ProfessionalGalaxy.tsx:228-232 | the focus is cleared only if it is this card |
| `ProfessionalGalaxy.ProfessionalGalaxyView.CardClick` | components/ProfessionalGalaxy.tsx:233-237 | focuses and confirms the card, opens details, and with distinct ids brings it to the front the short way; the drag state is untouched |
| `ProfessionalGalaxy.ProfessionalGalaxyView.CloseDetails` | components/ProfessionalGalaxy.tsx:330 | closes the details and nothing else |
| `ProfessionalGalaxy.ProfessionalGalaxyView.LinkEnter` | components/ProfessionalGalaxy.tsx:372 | the link becomes the focus |
| `ProfessionalGalaxy.ProfessionalGalaxyView.LinkLeave` | components/ProfessionalGalaxy.tsx:373-377 | the focus is cleared only if it is this link |
| `ProfessionalGalaxy.ProfessionalGalaxyView.BackEnter` | components/ProfessionalGalaxy.tsx:141 | the exit becomes the focus |
| `ProfessionalGalaxy.ProfessionalGalaxyView.BackLeave` | components/ProfessionalGalaxy.tsx:142-146 | the focus is cleared only if it is the exit |
| `ProfessionalGalaxy.ProfessionalGalaxyView.BackClick` | components/ProfessionalGalaxy.tsx:147-151 | focuses and confirms the exit; the carousel is unchanged |
| `LabUi.Clicked` | apps/gesture-lab/src/ui.js:406-412 | with a modal open nothing changes; otherwise the card's detail modal opens with its title and text |
| `LabUi.Wrap` | apps/gesture-lab/src/ui.js:391-404 | inside the band the position stays; left of it, it jumps a margin into the middle copy; right of it, to the middle copy's start |
| `LabUi.WrapIdempotent` | apps/gesture-lab/src/ui.js:391-404 | on a strip of at least three margins a wrapped position is not moved again |
| `LabUi.WrapLandsInBand` | apps/gesture-lab/src/ui.js:391-404 | on such a strip every wrapped position is inside the band |
| `LabUi.CursorPos` | apps/gesture-lab/src/ui.js:299-313 | mirrored, scaled to the window, inside it for unit inputs |
| `LabUi.CursorVisuals` | apps/gesture-lab/src/ui.js:315-330 | clicking shows full progress and leaves the loading class; otherwise progress is shown and loading iff it is positive |
| `LabUi.ScrollFor` | apps/gesture-lab/src/ui.js:351-359 | a gesture changes at most the scroll position |
| `LabUi.InteractKeepsInv` | apps/gesture-lab/src/ui.js:332-389 | a gesture keeps the modal bookkeeping (flag matches the shown modal, at most one shown, hovered card exists) |
| `LabUi.EngageKeepsInv` | apps/gesture-lab/src/ui.js:351-389 | the scroll, hover and click part keeps it too |
| `LabUi.ModalBlocksGestures` | apps/gesture-lab/src/ui.js:336-348 | with a modal open, a gesture changes the page iff it is DISMISS |
| `LabUi.SummonAndDismiss` | apps/gesture-lab/src/ui.js:336-346 | DISMISS closes every open modal; SUMMON with none open shows the memory modal; neither scrolls |
| `LabUi.ConfirmOpensHovered` | apps/gesture-lab/src/ui.js:361-377 | CONFIRM hovers the card under the cursor and opens its detail modal iff there is one |
| `LabUi.ScrollGestures` | apps/gesture-lab/src/ui.js:351-359 | the scroll gestures move the strip by ±15, then wrap it, and open nothing |
| `LabUi.GesturesIgnoreGuide` | apps/gesture-lab/src/ui.js:332-389 | the guide flag neither affects nor is affected by a gesture |
| `LabUi.NearestAmong` | apps/gesture-lab/src/ui.js:203-225 | none iff there are no cards; otherwise the card nearest the centre, the first among equals |
| `LabUi.NearestCard` | apps/gesture-lab/src/ui.js:203-225 | the scan's choice is `NearestAmong` over every card |
| `LabUi.KeyCommandOf` | apps/gesture-lab/src/ui.js:49-100 | form controls are ignored. Escape closes the guide, else dismisses an open modal. Only the four listed gestures are sent. Card activation happens only with no modal. |
| `LabUi.KeyboardRespectsModals` | apps/gesture-lab/src/ui.js:57-98 | with a modal open only Escape does anything, and only close or dismiss |
| `LabUi.KeyMap` | apps/gesture-lab/src/ui.js:57-98 | with no modal the arrows scroll, M summons, Enter activates and Escape does nothing |
| `LabUi.CardKeyOpensEventCard` | apps/gesture-lab/src/ui.js:115-122 | an activation key on a card opens that card, and the page listener adds nothing |
| `LabUi.PointerClickOpensOnce` | apps/gesture-lab/src/ui.js:104-113 | the second of `pointerup` and `click` changes nothing |
| `LabUi.FrameKeepsInv` | apps/gesture-lab/src/ui.js:263-297 | a detection frame keeps the modal bookkeeping |
| `LabUi.KeyDownKeepsInv` | apps/gesture-lab/src/ui.js:49-122 | a key press keeps it |
| `LabUi.PageKeyKeepsInv` | apps/gesture-lab/src/ui.js:49-100 | the main key listener alone keeps it |
| `LabUi.ClickedKeepsInv` | apps/gesture-lab/src/ui.js:406-412 | opening a card's details keeps it |
| `LabUi.PointerKeepsInv` | apps/gesture-lab/src/ui.js:104-113 | a pointer event keeps it |
| `LabUi.LabUiPage.constructor` | apps/gesture-lab/src/ui.js:2-24 | no modal, strip at its start, no cursor, bookkeeping valid |
| `LabUi.LabUiPage.JumpToMiddle` | apps/gesture-lab/src/ui.js:244-254 | the strip moves to its middle copy and nothing else changes |
| `LabUi.LabUiPage.OpenGuideModal` | apps/gesture-lab/src/ui.js:153-177 | only the guide flag is set |
| `LabUi.LabUiPage.CloseGuideModal` | apps/gesture-lab/src/ui.js:153-177 | only the guide flag is cleared |
| `LabUi.LabUiPage.CloseModals` | apps/gesture-lab/src/ui.js:428-433 | both modals hidden, the flag cleared |
| `LabUi.LabUiPage.OpenMemoryModal` | apps/gesture-lab/src/ui.js:422-426 | the memory modal shown, the flag set |
| `LabUi.LabUiPage.TriggerClick` | apps/gesture-lab/src/ui.js:406-420 | performs `Clicked` on the card |
| `LabUi.LabUiPage.CheckInfiniteLoop` | apps/gesture-lab/src/ui.js:391-404 | the scroll position becomes `Wrap` of it |
| `LabUi.LabUiPage.UpdateCursor` | apps/gesture-lab/src/ui.js:299-313 | shows the cursor at `CursorPos` |
| `LabUi.LabUiPage.UpdateCursorVisuals` | apps/gesture-lab/src/ui.js:315-330 | performs `CursorVisuals` |
| `LabUi.LabUiPage.HandleInteraction` | apps/gesture-lab/src/ui.js:332-389 | the imperative handler performs `Interact` and keeps the modal bookkeeping valid |
| `LabUi.LabUiPage.EngageCards` | apps/gesture-lab/src/ui.js:350-388 | the scroll, hover, click and cursor part performs `Engage` |
| `LabUi.LabUiPage.ScrollForGesture` | apps/gesture-lab/src/ui.js:350-359 | performs `ScrollFor`: a scroll gesture moves the strip by 15 and wraps it |
| `LabUi.LabUiPage.HoverCard` | apps/gesture-lab/src/ui.js:361-377 | the card under the cursor becomes the hovered one and CONFIRM clicks it |
| `LabUi.LabUiPage.ClickCenterCard` | apps/gesture-lab/src/ui.js:203-225 | clicks the nearest card to the centre, if any |
| `LabUi.LabUiPage.ClickFocusedOrCenterCard` | apps/gesture-lab/src/ui.js:193-201 | the focused card if any, else the central one |
| `LabUi.LabUiPage.OnKeyDown` | apps/gesture-lab/src/ui.js:49-122 | the card listener, then the page listener, perform `KeyDown` and keep the modal bookkeeping valid |
| `LabUi.LabUiPage.OnPageKey` | apps/gesture-lab/src/ui.js:49-100 | the main listener performs `PageKey`: the keyboard policy's command applied to the page |
| `LabUi.LabUiPage.OnPointer` | apps/gesture-lab/src/ui.js:104-113 | a primary button on a card with no modal clicks it; the modal bookkeeping stays valid |
| `LabUi.LabUiPage.UpdateDebug` | apps/gesture-lab/src/ui.js:263-297 | no hand hides the cursor; a result moves it and handles the gesture; the modal bookkeeping stays valid |

## Left out

- The hand-pose model, the camera, `requestAnimationFrame` and the lab's `main.js` are out of scope. Only the per-frame result they deliver is modelled. The frame loop's test that the video's timestamp has moved (components/GestureController.tsx:146-147) is left out with the loop: a frame that reaches `GestureController.Pipeline.Predict` is taken to be a new one.
- Rendering is out of scope: motion styles, `CustomCursor`, the landmark drawing and the background components.
- Text formatting is out of scope: the lab's `updateStats` and status-pill texts, `toFixed` output, and the debug text of `updateDebug`.
- The lab's camera toggle (apps/gesture-lab/src/ui.js:26-47) and interaction-mode switch (ui.js:125-151) are left out. They only start and stop I/O and swap CSS classes.
- The DOM copying in `initInfiniteScroll` is not modelled. The layout is an input already holding the three copies; only the delayed jump is modelled.
- `window.open` is I/O. The professional confirm effect returns the URL it would open. The link buttons' own click handlers open a URL and change no state, so they are left out.
- Floating point: every number is an exact real. The model has no NaN, no infinities and no rounding error. `Math.sqrt` is a function parameter that the lemmas assume to be a square root only where they say so.
- The browser's clamping of `scrollLeft` to the scrollable range is not modelled.
- React scheduling: state updates take effect at once and an effect runs as a method call right after the change to its dependencies. Batching, stale closures and re-render order are not modelled. In particular `ProfessionalGalaxy.ProfessionalGalaxyView.CardClick`, `ProfessionalGalaxy.ProfessionalGalaxyView.BackClick`, `PersonalGalaxy.PersonalGalaxyView.MarkerClick`, `PersonalGalaxy.PersonalGalaxyView.BackClick`, `UniverseView.UniverseScreen.Click` and `UniverseView.UniverseScreen.GuideClick` call `setFocus(x)` and then `confirm()`. In the source, `confirm` is a closure over the focus of the previous render (actions.ts:36-40), so it records the focus from before the click. The model's `confirmFocus == focus` takes the new one. An effect reruns when React's `Object.is` test sees a new dependency. Every focus target the handlers pass is a fresh object literal, so setting one always reruns the focus effects; setting `null` over `null` does not.
- Mount-time effects (the body class, listener registration and clean-up) are not modelled.
- The `onBack`, `onSelect` and `onGuideToggle` callbacks are not modelled as calls. The back buttons' `onBack` only sets the universe view, which the shell's confirm effect for a back target already does.
- `handleBack` (App.tsx:26) is covered by that same confirm effect. The guide buttons rendered by App itself are not modelled.
- `UniverseView.UniverseScreen.OnFocusChange`: the effect reads the `gestureEnabled` prop, which is passed as a parameter.
- Fields that are declared but never written are left out: `lastGesture`, `poseDuration` and `lastSummonTime` in gesture/gesture-logic.ts.
- `PersonalGalaxy.PersonalGalaxyView.OnSummonSignal`: models the intended rule of one jump per summon signal. As written, the effect reruns after each jump (see `PersonalGalaxy.SummonEffectNeverSettles` under Findings); that rerun is not modelled.
- `PersonalGalaxy.NextMemory`: with no memories the source would read `MEMORIES[NaN]`. The model returns none instead.
- The data constants `MEMORIES` and `PROJECTS` (constants.ts) are parameters of the views. Only their ids and, for memories, their coordinates are used.
- `Smoothing.LabLandmarkSmoother.Smooth`: the lab smoother indexes its store without a length check. The model requires the input to be no longer than the store. A longer input reads past the store, and `prev.x` on the resulting `undefined` throws a TypeError (apps/gesture-lab/src/smoothing.js:23-24). That error path has no counterpart here.
- `GestureController.Pipeline.Predict`: hands are required to have 21 points, as the recogniser indexes them.
- `GestureLogic.Step`: a hand frame must have at least 21 points. The source indexes points 0 to 20 and throws a TypeError on a frame with 1 to 20 points. The model requires well-formed frames and does not model that error.
- `GestureLogic.Run`: every frame of the run must be well formed, for the same reason as `Step`.
- `Recognizer.GestureRecognizer.Process`: the imperative `process` has the same requirement as `Step`.
- `LabUi.HitAt`: before the first hand frame the lab's `cursorScreenX` and `cursorScreenY` are unset (apps/gesture-lab/src/ui.js:311-312). A keyboard gesture then reaches `document.elementFromPoint(undefined, undefined)` (ui.js:362), which throws a TypeError, so the hover reset and the cursor-visuals update are skipped. The model reads a missing cursor as "no card" and runs both steps. The exception is not modelled.
- `ProfessionalGalaxy.ProfessionalGalaxyView.OnConfirmSignal`: turns with the corrected `ClosestRotation`. As written (components/ProfessionalGalaxy.tsx:47-50) the source goes the long way once the rotation exceeds the target by more than 540 degrees, for example after 37 scroll-left signals. `ClosestRotationAsWritten` models that behaviour, and the Findings table records it.
- `ProfessionalGalaxy.ProfessionalGalaxyView.OnFocusChange`: uses the corrected `ClosestRotation`, for the same reason as `OnConfirmSignal`.
- `ProfessionalGalaxy.ProfessionalGalaxyView.CardEnter`: uses the corrected `ClosestRotation`, for the same reason as `OnConfirmSignal`.
- `ProfessionalGalaxy.ProfessionalGalaxyView.CardClick`: uses the corrected `ClosestRotation`, for the same reason as `OnConfirmSignal`.
- `ProfessionalGalaxy.ProfessionalGalaxyView.DragEnd`: its rerun of the focus effect uses the corrected `ClosestRotation`, for the same reason as `OnConfirmSignal`.
- `App.AppShell.OnMouseMove`: `Date.now()` is the `now` parameter.

## Findings

| source | as written | input that shows it | evidently intended | confidence | as-written member | corrected member |
|---|---|---|---|---|---|---|
| components/ProfessionalGalaxy.tsx:47-50 | `((target - current + 540) % 360) - 180` with JavaScript's truncating `%`, which goes negative when `target - current + 540 < 0` | current 1000, target 0: the shift is -280, so the ring goes to 720, the long way round | the angle of the target nearest the current one, within [-180, 180): 1080 | not executed | `ProfessionalGalaxy.ClosestRotationLongWay` | `ProfessionalGalaxy.ClosestRotation` |
| components/PersonalGalaxy.tsx:463-466 | the summon effect depends on `handleSummon`, which is rebuilt whenever `activeMemory` changes, so each jump re-runs the effect while `summonId` is non-zero | two or more memories with distinct ids and one summon signal: every jump changes the active memory and hence the dependency, so the map never settles. The defect is latent: nothing calls `actions.summon()` (App.tsx:139-141 sends the SUMMON gesture to `confirm`), so `summonId` stays 0 and the effect returns at once until something calls it | one jump per summon signal | not executed | `PersonalGalaxy.SummonEffectNeverSettles` | `PersonalGalaxy.PersonalGalaxyView.OnSummonSignal` |
