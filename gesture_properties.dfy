/**
 * What the recognizer promises, proved about `GestureLogic.Step` (one frame)
 * and `GestureLogic.Run` (a sequence of frames). Every lemma holds for any
 * configuration satisfying `ValidConfig`, so it holds for both `TsConfig`
 * and `LabConfig`.
 */
module GestureProperties {
  import opened Wrappers
  import opened Landmarks
  import opened GestureLogic

  // ------------------------------------------------------------ vocabulary

  /** A frame that carries a hand. */
  predicate HandFrame(landmarks: Option<seq<Point>>)
  {
    landmarks.Some? && |landmarks.value| >= HandSize
  }

  /** The history a hand frame leaves before any gesture empties it. */
  function Recorded(sqrt: real -> real, s: RecognizerState, hand: seq<Point>, t: real): seq<Sample>
    requires |hand| >= HandSize
  {
    Record(s, Read(sqrt, hand), t).history
  }

  /** The conditions under which a frame reports CONFIRM. */
  predicate ConfirmFires(cfg: Config, s: RecognizerState, r: HandReading, t: real)
  {
    s.isAwake && PinchFires(cfg, s, r, t)
  }

  /** A hand frame whose pinch distance is above the release threshold. */
  predicate ReleaseFrame(cfg: Config, sqrt: real -> real, f: Frame)
  {
    HandFrame(f.landmarks) && Released(cfg, Read(sqrt, f.landmarks.value))
  }

  /** Gestures that stamp `lastGestureTime`. */
  predicate Stamping(g: Option<GestureType>)
  {
    g == Some(Confirm) || g == Some(Summon) || g == Some(Dismiss)
  }

  /** SUMMON or DISMISS. */
  predicate ScaleGesture(g: Option<GestureType>)
  {
    g == Some(Summon) || g == Some(Dismiss)
  }

  /** Frames in non-decreasing timestamp order. */
  predicate Chronological(frames: seq<Frame>)
  {
    forall i, j :: 0 <= i < j < |frames| ==> frames[i].time <= frames[j].time
  }

  /** Every frame of a run can be processed. */
  predicate AllWellFormed(frames: seq<Frame>)
  {
    forall k :: 0 <= k < |frames| ==> WellFormed(frames[k].landmarks)
  }

  // ------------------------------------------------- squared comparisons

  /** `root` behaves as `Math.sqrt` on the non-negative reals. */
  ghost predicate IsRoot(root: real -> real)
  {
    forall x :: x >= 0.0 ==> root(x) >= 0.0 && root(x) * root(x) == x
  }

  /**
   * The classifier's squared tests agree with the source's comparisons of
   * `_distance` values.
   */
  lemma FingerTestsAgreeWithDistances(root: real -> real, hand: seq<Point>, tip: nat, pip: nat)
    requires IsRoot(root)
    requires tip < |hand| && pip < |hand| && Wrist < |hand|
    ensures Extended(hand, tip, pip) <==>
              root(SqDist(hand[tip], hand[Wrist])) > root(SqDist(hand[pip], hand[Wrist])) * ExtendSlack
    ensures Curled(hand, tip, pip) <==>
              root(SqDist(hand[tip], hand[Wrist])) < root(SqDist(hand[pip], hand[Wrist])) * CurlSlack
  {
    var a := SqDist(hand[tip], hand[Wrist]);
    var b := SqDist(hand[pip], hand[Wrist]);
    DistanceComparison(a, b, root(a), root(b), ExtendSlack);
    DistanceComparison(a, b, root(a), root(b), CurlSlack);
  }

  /**
   * The squared pinch and steadiness tests agree with the source's
   * comparisons of a distance with 0.1, 0.15 and 0.05.
   */
  lemma ThresholdTestsAgreeWithDistances(root: real -> real, cfg: Config, d: real)
    requires IsRoot(root) && ValidConfig(cfg) && d >= 0.0
    ensures root(d) < cfg.pinchThreshold <==> d < cfg.pinchThreshold * cfg.pinchThreshold
    ensures root(d) > cfg.pinchReleaseThreshold <==> d > cfg.pinchReleaseThreshold * cfg.pinchReleaseThreshold
    ensures root(d) < SteadyRadius <==> d < SteadyRadius * SteadyRadius
  {
    ThresholdComparison(d, root(d), cfg.pinchThreshold);
    ThresholdComparison(d, root(d), cfg.pinchReleaseThreshold);
    ThresholdComparison(d, root(d), SteadyRadius);
  }

  // ------------------------------------------------------------- configs

  /** Both constant sets are valid and differ only in the scale gesture's three values. */
  lemma ConfigsAgree()
    ensures ValidConfig(TsConfig) && ValidConfig(LabConfig)
    ensures LabConfig == TsConfig.(scaleThreshold := 0.02, scaleTimeWindow := 600.0, cooldown := 500.0)
  {
  }

  // -------------------------------------------------------------- stages

  /**
   * The scroll and scale stage reports LEFT or RIGHT exactly for an OPEN hand
   * in an edge band, SUMMON and DISMISS exactly when `_detectComplexScale`
   * fires strictly after the cooldown (DISMISS only outside the bands).
   */
  lemma MotionGestures(cfg: Config, s: RecognizerState, r: HandReading, t: real, base: GestureResult)
    requires base.gesture.None?
    ensures var o := MotionStage(cfg, s, r, t, base); var g := o.result.value.gesture;
      && (g == Some(ScrollLeft) <==> r.pose == Open && DetectScroll(cfg, 1.0 - r.indexTip.x) == Some(ScrollLeft))
      && (g == Some(ScrollRight) <==> r.pose == Open && DetectScroll(cfg, 1.0 - r.indexTip.x) == Some(ScrollRight))
      && (g == Some(Summon) <==>
            t - s.lastGestureTime > cfg.cooldown
            && DetectComplexScale(cfg, ScaleDelta(cfg, s.history, t), r.pose) == Some(Summon))
      && (g == Some(Dismiss) <==>
            DetectScroll(cfg, 1.0 - r.indexTip.x).None? && t - s.lastGestureTime > cfg.cooldown
            && DetectComplexScale(cfg, ScaleDelta(cfg, s.history, t), r.pose) == Some(Dismiss))
  {
  }

  /**
   * The pinch stage: CONFIRM exactly when `PinchFires`, with the progress
   * the elapsed share of the hold time while the hold runs; otherwise the
   * scroll and scale gestures on their own conditions. The latch, the pinch
   * timer, the stamp and the history move as the branch taken says; the
   * awake flag, the pose and the presence timer are untouched.
   */
  lemma PinchStageFacts(cfg: Config, s: RecognizerState, r: HandReading, t: real, base: GestureResult)
    requires ValidConfig(cfg) && base.gesture.None? && base.pinchProgress == 0.0
    ensures var o := PinchStage(cfg, s, r, t, base);
      && o.result.Some?
      && var g := o.result.value.gesture;
      && var fires := PinchFires(cfg, s, r, t);
      && var scroll := DetectScroll(cfg, 1.0 - r.indexTip.x);
      && var scale := DetectComplexScale(cfg, ScaleDelta(cfg, s.history, t), r.pose);
      && var cooled := t - s.lastGestureTime > cfg.cooldown;
      && o.result.value == base.(gesture := g, pinchProgress := o.result.value.pinchProgress)
      && g != Some(Wake)
      && (g == Some(Confirm) <==> fires)
      && (g == Some(ScrollLeft) <==> !fires && r.pose == Open && scroll == Some(ScrollLeft))
      && (g == Some(ScrollRight) <==> !fires && r.pose == Open && scroll == Some(ScrollRight))
      && (g == Some(Summon) <==> !fires && cooled && scale == Some(Summon))
      && (g == Some(Dismiss) <==> !fires && scroll.None? && cooled && scale == Some(Dismiss))
      && o.result.value.pinchProgress ==
           (if !s.isPinching && Engaged(cfg, r) && t - PinchStart(s, t) <= cfg.pinchHoldTime
            then (t - PinchStart(s, t)) / cfg.pinchHoldTime else 0.0)
      && o.next.isAwake == s.isAwake && o.next.lastHandPose == s.lastHandPose
      && o.next.poseStartTime == s.poseStartTime && o.next.presenceStartTime == s.presenceStartTime
      && o.next.isPinching == (if s.isPinching then !Released(cfg, r) else fires)
      && o.next.pinchStartTime ==
           (if s.isPinching then (if Released(cfg, r) then 0.0 else s.pinchStartTime)
            else if Engaged(cfg, r) then PinchStart(s, t) else 0.0)
      && o.next.lastGestureTime ==
           (if g == Some(Confirm) || g == Some(Summon) || g == Some(Dismiss) then t else s.lastGestureTime)
      && o.next.history == (if g == Some(Summon) || g == Some(Dismiss) then [] else s.history)
  {
    var o := PinchStage(cfg, s, r, t, base);
    if !PinchFires(cfg, s, r, t) {
      var s2 := if s.isPinching then (if Released(cfg, r) then s.(isPinching := false, pinchStartTime := 0.0) else s)
                else if Engaged(cfg, r) then s.(pinchStartTime := PinchStart(s, t)) else s.(pinchStartTime := 0.0);
      var b2 := if !s.isPinching && Engaged(cfg, r) then base.(pinchProgress := (t - PinchStart(s, t)) / cfg.pinchHoldTime)
                else base;
      assert o == MotionStage(cfg, s2, r, t, b2);
      MotionGestures(cfg, s2, r, t, b2);
    }
  }

  // ------------------------------------------------------ one frame: shape

  /**
   * A frame without a hand reports nothing, empties the history, resets the
   * presence timer and forgets the pose; the awake flag, the pinch latch,
   * the pinch timer and the gesture stamp are kept.
   */
  lemma NoHandFrame(cfg: Config, sqrt: real -> real, s: RecognizerState, landmarks: Option<seq<Point>>, t: real)
    requires ValidConfig(cfg) && NoHand(landmarks)
    ensures WellFormed(landmarks)
    ensures Step(cfg, sqrt, s, landmarks, t).result.None?
    ensures var n := Step(cfg, sqrt, s, landmarks, t).next;
      && n.history == [] && n.presenceStartTime == 0.0 && n.lastHandPose == Unknown
      && n.isAwake == s.isAwake && n.isPinching == s.isPinching
      && n.pinchStartTime == s.pinchStartTime && n.lastGestureTime == s.lastGestureTime
      && n.poseStartTime == s.poseStartTime
  {
  }

  /**
   * A frame with a hand always reports: the raw index tip as cursor, the pose
   * (never UNKNOWN, and remembered), the awake flag as it is after the frame,
   * and the scale delta over the recorded history.
   */
  lemma HandFrameReport(cfg: Config, sqrt: real -> real, s: RecognizerState, landmarks: Option<seq<Point>>, t: real)
    requires ValidConfig(cfg) && HandFrame(landmarks)
    ensures WellFormed(landmarks)
    ensures var o := Step(cfg, sqrt, s, landmarks, t); var hand := landmarks.value;
      && o.result.Some?
      && o.result.value.cursorX == hand[IndexTip].x && o.result.value.cursorY == hand[IndexTip].y
      && o.result.value.debugPose == PoseOf(hand) && o.next.lastHandPose == PoseOf(hand)
      && o.result.value.awake == o.next.isAwake
      && o.result.value.zDelta == ScaleDelta(cfg, Recorded(sqrt, s, hand, t), t)
      && o.next.poseStartTime == (if PoseOf(hand) != s.lastHandPose then t else s.poseStartTime)
  {
    HandFrameStep(cfg, sqrt, s, landmarks, t);
    if s.isAwake {
      var r := Read(sqrt, landmarks.value);
      PinchStageFacts(cfg, Record(s, r, t), r, t, BaseResult(cfg, s, r, t));
    }
  }

  // ------------------------------------------------------------- history

  /** `Recent` keeps exactly the samples younger than the window. */
  lemma {:induction false} RecentIsFilter(h: seq<Sample>, now: real, w: real)
    ensures forall x :: x in Recent(h, now, w) <==> x in h && now - x.time < w
    decreases |h|
  {
    if h != [] {
      var init := h[..|h| - 1];
      RecentIsFilter(init, now, w);
      assert h == init + [h[|h| - 1]];
    }
  }

  /** `Recent` keeps the samples in their order. */
  lemma {:induction false} RecentSorted(h: seq<Sample>, now: real, w: real)
    requires SortedByTime(h)
    ensures SortedByTime(Recent(h, now, w))
    decreases |h|
  {
    if h != [] {
      var init := h[..|h| - 1];
      var last := h[|h| - 1];
      assert SortedByTime(init);
      RecentSorted(init, now, w);
      var rest := Recent(init, now, w);
      forall i | 0 <= i < |rest|
        ensures rest[i].time <= last.time
      {
        assert rest[i] in init;
        var j :| 0 <= j < |init| && init[j] == rest[i];
        assert h[j] == init[j];
      }
    }
  }

  /** The history a hand frame leaves, unless SUMMON or DISMISS emptied it. */
  lemma StepHistory(cfg: Config, sqrt: real -> real, s: RecognizerState, landmarks: Option<seq<Point>>, t: real)
    requires ValidConfig(cfg) && HandFrame(landmarks)
    ensures WellFormed(landmarks)
    ensures var o := Step(cfg, sqrt, s, landmarks, t);
      o.next.history == if ScaleGesture(GestureOf(o)) then [] else Recorded(sqrt, s, landmarks.value, t)
  {
    HandFrameStep(cfg, sqrt, s, landmarks, t);
    if s.isAwake {
      var r := Read(sqrt, landmarks.value);
      PinchStageFacts(cfg, Record(s, r, t), r, t, BaseResult(cfg, s, r, t));
    }
  }

  /**
   * After a hand frame either SUMMON or DISMISS left the history empty, or
   * the history is this frame's sample after every earlier sample younger
   * than a second; it stays in time order when the earlier samples were in
   * order and no later than this frame.
   */
  lemma HistoryAfterHandFrame(cfg: Config, sqrt: real -> real, s: RecognizerState, landmarks: Option<seq<Point>>, t: real)
    requires ValidConfig(cfg) && HandFrame(landmarks)
    ensures WellFormed(landmarks)
    ensures var o := Step(cfg, sqrt, s, landmarks, t); var e := SampleOf(Read(sqrt, landmarks.value), t);
      var h := o.next.history;
      if ScaleGesture(GestureOf(o)) then h == []
      else
        && |h| > 0 && h[|h| - 1] == e
        && e.x == landmarks.value[Wrist].x && e.y == landmarks.value[Wrist].y && e.time == t
        && (forall i :: 0 <= i < |h| ==> t - h[i].time < MaxHistoryTime)
        && (forall x :: x in h <==> x == e || (x in s.history && t - x.time < MaxHistoryTime))
        && (SortedByTime(s.history) && (forall x :: x in s.history ==> x.time <= t) ==> SortedByTime(h))
  {
    StepHistory(cfg, sqrt, s, landmarks, t);
    RecordedHistory(sqrt, s, landmarks.value, t);
  }

  /**
   * Recording a frame appends its sample and drops every sample a second
   * old or older, keeping the samples in time order.
   */
  lemma RecordedHistory(sqrt: real -> real, s: RecognizerState, hand: seq<Point>, t: real)
    requires |hand| >= HandSize
    ensures var e := SampleOf(Read(sqrt, hand), t); var h := Recorded(sqrt, s, hand, t);
      && |h| > 0 && h[|h| - 1] == e
      && e.x == hand[Wrist].x && e.y == hand[Wrist].y && e.time == t
      && (forall i :: 0 <= i < |h| ==> t - h[i].time < MaxHistoryTime)
      && (forall x :: x in h <==> x == e || (x in s.history && t - x.time < MaxHistoryTime))
      && (SortedByTime(s.history) && (forall x :: x in s.history ==> x.time <= t) ==> SortedByTime(h))
  {
    var e := SampleOf(Read(sqrt, hand), t);
    var pushed := s.history + [e];
    RecentIsFilter(pushed, t, MaxHistoryTime);
    if SortedByTime(s.history) && (forall x :: x in s.history ==> x.time <= t) {
      forall i, j | 0 <= i < j < |pushed|
        ensures pushed[i].time <= pushed[j].time
      {
        if j == |s.history| {
          assert s.history[i] in s.history;
        }
      }
      RecentSorted(pushed, t, MaxHistoryTime);
    }
  }

  /** With fewer than five samples the hand is never steady and the scale gestures never fire. */
  lemma ShortHistoryIsInert(cfg: Config, h: seq<Sample>, now: real, pose: HandPose)
    requires ValidConfig(cfg) && |h| < MinSamples
    ensures !IsSteady(h)
    ensures ScaleDelta(cfg, h, now) == 0.0
    ensures DetectComplexScale(cfg, ScaleDelta(cfg, h, now), pose).None?
  {
  }

  // ---------------------------------------------------------------- wake

  /**
   * Asleep, a frame reports at most WAKE, and WAKE exactly when the hand is
   * OPEN, steady, and present strictly longer than `wakeHoldTime`; the
   * presence timer is 0 again unless it is still running; the pinch fields
   * and the gesture stamp are untouched.
   */
  lemma AsleepOnlyWakes(cfg: Config, sqrt: real -> real, s: RecognizerState, landmarks: Option<seq<Point>>, t: real)
    requires ValidConfig(cfg) && WellFormed(landmarks) && !s.isAwake
    ensures var o := Step(cfg, sqrt, s, landmarks, t);
      var ready := HandFrame(landmarks) && PoseOf(landmarks.value) == Open
                   && IsSteady(Recorded(sqrt, s, landmarks.value, t));
      var start := if s.presenceStartTime == 0.0 then t else s.presenceStartTime;
      && (GestureOf(o).None? || GestureOf(o) == Some(Wake))
      && (GestureOf(o) == Some(Wake) <==> ready && t - start > cfg.wakeHoldTime)
      && o.next.presenceStartTime == (if ready && t - start <= cfg.wakeHoldTime then start else 0.0)
      && o.next.isPinching == s.isPinching && o.next.pinchStartTime == s.pinchStartTime
      && o.next.lastGestureTime == s.lastGestureTime
  {
  }

  /**
   * The awake flag is set exactly by WAKE and is never cleared, and an awake
   * recognizer never reports WAKE again.
   */
  lemma AwakeFlag(cfg: Config, sqrt: real -> real, s: RecognizerState, landmarks: Option<seq<Point>>, t: real)
    requires ValidConfig(cfg) && WellFormed(landmarks)
    ensures var o := Step(cfg, sqrt, s, landmarks, t);
      && (o.next.isAwake <==> s.isAwake || GestureOf(o) == Some(Wake))
      && (s.isAwake ==> GestureOf(o) != Some(Wake))
  {
    if HandFrame(landmarks) {
      HandFrameStep(cfg, sqrt, s, landmarks, t);
      if s.isAwake {
        var r := Read(sqrt, landmarks.value);
        PinchStageFacts(cfg, Record(s, r, t), r, t, BaseResult(cfg, s, r, t));
      }
    }
  }

  // --------------------------------------------------------------- pinch

  /**
   * CONFIRM is reported exactly when the recognizer is awake, the latch is
   * open, the pinch is below the engage threshold and has been held longer
   * than `pinchHoldTime`. It latches, stamps `lastGestureTime`, and skips
   * the scroll and scale tests, so the history is the recorded one.
   */
  lemma ConfirmConditions(cfg: Config, sqrt: real -> real, s: RecognizerState, landmarks: Option<seq<Point>>, t: real)
    requires ValidConfig(cfg) && HandFrame(landmarks)
    ensures WellFormed(landmarks)
    ensures var o := Step(cfg, sqrt, s, landmarks, t);
      GestureOf(o) == Some(Confirm) <==> ConfirmFires(cfg, s, Read(sqrt, landmarks.value), t)
    ensures var o := Step(cfg, sqrt, s, landmarks, t);
      GestureOf(o) == Some(Confirm) ==>
        && o.next.isPinching && o.next.lastGestureTime == t && o.next.pinchStartTime == PinchStart(s, t)
        && o.next.history == Recorded(sqrt, s, landmarks.value, t)
        && o.result.value.pinchProgress == 0.0
  {
    HandFrameStep(cfg, sqrt, s, landmarks, t);
    if s.isAwake {
      var r := Read(sqrt, landmarks.value);
      PinchStageFacts(cfg, Record(s, r, t), r, t, BaseResult(cfg, s, r, t));
    }
  }

  /**
   * The latch: awake and latched, a hand frame releases it exactly above the
   * release threshold; awake and open, it closes exactly when CONFIRM fires;
   * asleep or without a hand it keeps its value.
   */
  lemma LatchTransitions(cfg: Config, sqrt: real -> real, s: RecognizerState, f: Frame)
    requires ValidConfig(cfg) && WellFormed(f.landmarks)
    ensures var o := Step(cfg, sqrt, s, f.landmarks, f.time);
      if HandFrame(f.landmarks) && s.isAwake then
        if s.isPinching then o.next.isPinching <==> !ReleaseFrame(cfg, sqrt, f)
        else o.next.isPinching <==> ConfirmFires(cfg, s, Read(sqrt, f.landmarks.value), f.time)
      else o.next.isPinching == s.isPinching
  {
    if HandFrame(f.landmarks) {
      HandFrameStep(cfg, sqrt, s, f.landmarks, f.time);
      if s.isAwake {
        var r := Read(sqrt, f.landmarks.value);
        PinchStageFacts(cfg, Record(s, r, f.time), r, f.time, BaseResult(cfg, s, r, f.time));
      }
    }
  }

  /**
   * A hand frame is `HandStep` on its reading; awake, that is the pinch
   * stage run on the recorded state.
   */
  lemma HandFrameStep(cfg: Config, sqrt: real -> real, s: RecognizerState, landmarks: Option<seq<Point>>, t: real)
    requires ValidConfig(cfg) && HandFrame(landmarks)
    ensures WellFormed(landmarks)
    ensures var r := Read(sqrt, landmarks.value);
      && Step(cfg, sqrt, s, landmarks, t) == HandStep(cfg, s, r, t)
      && (s.isAwake ==> HandStep(cfg, s, r, t) == PinchStage(cfg, Record(s, r, t), r, t, BaseResult(cfg, s, r, t)))
  {
  }

  /**
   * The pinch timer never lies in the future and is never negative: the
   * invariant under which the progress stays within [0, 1].
   */
  predicate Coherent(s: RecognizerState, t: real)
  {
    0.0 <= s.pinchStartTime <= t
  }

  /**
   * With a coherent timer the progress is within [0, 1], and it is non-zero
   * only on an awake, unlatched hand frame below the engage threshold that
   * has not fired, where it is the elapsed share of `pinchHoldTime`.
   */
  lemma PinchProgress(cfg: Config, sqrt: real -> real, s: RecognizerState, landmarks: Option<seq<Point>>, t: real)
    requires ValidConfig(cfg) && WellFormed(landmarks) && Coherent(s, t)
    ensures var o := Step(cfg, sqrt, s, landmarks, t);
      o.result.Some? ==>
        && 0.0 <= o.result.value.pinchProgress <= 1.0
        && (o.result.value.pinchProgress != 0.0 ==>
              && HandFrame(landmarks) && s.isAwake && !s.isPinching
              && Read(sqrt, landmarks.value).pinchSq < cfg.pinchThreshold * cfg.pinchThreshold
              && GestureOf(o) != Some(Confirm)
              && o.result.value.pinchProgress == (t - PinchStart(s, t)) / cfg.pinchHoldTime)
  {
    if HandFrame(landmarks) && s.isAwake {
      var r := Read(sqrt, landmarks.value);
      assert Step(cfg, sqrt, s, landmarks, t) == HandStep(cfg, s, r, t);
      AwakeProgress(cfg, s, r, t);
    }
  }

  /** `PinchProgress` for one awake hand reading. */
  lemma AwakeProgress(cfg: Config, s: RecognizerState, r: HandReading, t: real)
    requires ValidConfig(cfg) && s.isAwake && Coherent(s, t)
    ensures var o := HandStep(cfg, s, r, t);
      && o.result.Some?
      && 0.0 <= o.result.value.pinchProgress <= 1.0
      && (o.result.value.pinchProgress != 0.0 ==>
            && !s.isPinching && r.pinchSq < cfg.pinchThreshold * cfg.pinchThreshold
            && o.result.value.gesture != Some(Confirm)
            && o.result.value.pinchProgress == (t - PinchStart(s, t)) / cfg.pinchHoldTime)
  {
    var s1 := Record(s, r, t);
    assert HandStep(cfg, s, r, t) == PinchStage(cfg, s1, r, t, BaseResult(cfg, s, r, t));
    PinchStageFacts(cfg, s1, r, t, BaseResult(cfg, s, r, t));
    assert s1.isPinching == s.isPinching && PinchStart(s1, t) == PinchStart(s, t);
    var elapsed := t - PinchStart(s, t);
    if !s.isPinching && r.pinchSq < cfg.pinchThreshold * cfg.pinchThreshold && elapsed <= cfg.pinchHoldTime {
      DivideWithin(elapsed, cfg.pinchHoldTime);
    }
  }

  lemma DivideWithin(x: real, d: real)
    requires 0.0 <= x <= d && d > 0.0
    ensures 0.0 <= x / d <= 1.0
  {
  }

  /** A step at `t` keeps the timer coherent for any later frame. */
  lemma CoherentStep(cfg: Config, sqrt: real -> real, s: RecognizerState, landmarks: Option<seq<Point>>, t: real, later: real)
    requires ValidConfig(cfg) && WellFormed(landmarks) && Coherent(s, t) && t <= later
    ensures Coherent(Step(cfg, sqrt, s, landmarks, t).next, later)
  {
    if HandFrame(landmarks) {
      HandFrameStep(cfg, sqrt, s, landmarks, t);
      if s.isAwake {
        var r := Read(sqrt, landmarks.value);
        PinchStageFacts(cfg, Record(s, r, t), r, t, BaseResult(cfg, s, r, t));
      }
    }
  }

  // ------------------------------------------------------ scroll and scale

  /**
   * LEFT exactly when the awake hand is OPEN, CONFIRM did not fire and the
   * mirrored cursor is in the left band; RIGHT likewise for the right band.
   * Scrolling has no cooldown and touches neither the stamp nor the history.
   */
  lemma ScrollConditions(cfg: Config, sqrt: real -> real, s: RecognizerState, landmarks: Option<seq<Point>>, t: real)
    requires ValidConfig(cfg) && HandFrame(landmarks)
    ensures WellFormed(landmarks)
    ensures var o := Step(cfg, sqrt, s, landmarks, t); var hand := landmarks.value;
      var eligible := s.isAwake && !ConfirmFires(cfg, s, Read(sqrt, hand), t) && PoseOf(hand) == Open;
      var cursorX := 1.0 - hand[IndexTip].x;
      && (GestureOf(o) == Some(ScrollLeft) <==> eligible && cursorX < cfg.scrollThresholdX)
      && (GestureOf(o) == Some(ScrollRight) <==>
            eligible && cursorX >= cfg.scrollThresholdX && cursorX > 1.0 - cfg.scrollThresholdX)
      && (GestureOf(o) == Some(ScrollLeft) || GestureOf(o) == Some(ScrollRight) ==>
            o.next.lastGestureTime == s.lastGestureTime && o.next.history == Recorded(sqrt, s, hand, t))
  {
    HandFrameStep(cfg, sqrt, s, landmarks, t);
    if s.isAwake {
      var r := Read(sqrt, landmarks.value);
      PinchStageFacts(cfg, Record(s, r, t), r, t, BaseResult(cfg, s, r, t));
    }
  }

  /**
   * SUMMON exactly when the awake, CLOSED hand shrank by more than the
   * threshold strictly after the cooldown and CONFIRM did not fire; DISMISS
   * likewise for an OPEN hand that grew, outside the scroll bands. Either
   * stamps `lastGestureTime` and empties the history.
   */
  lemma ScaleConditions(cfg: Config, sqrt: real -> real, s: RecognizerState, landmarks: Option<seq<Point>>, t: real)
    requires ValidConfig(cfg) && HandFrame(landmarks)
    ensures WellFormed(landmarks)
    ensures var o := Step(cfg, sqrt, s, landmarks, t); var hand := landmarks.value;
      var eligible := s.isAwake && !ConfirmFires(cfg, s, Read(sqrt, hand), t) && t - s.lastGestureTime > cfg.cooldown;
      var delta := ScaleDelta(cfg, Recorded(sqrt, s, hand, t), t);
      && (GestureOf(o) == Some(Summon) <==> eligible && delta < -cfg.scaleThreshold && PoseOf(hand) == Closed)
      && (GestureOf(o) == Some(Dismiss) <==>
            eligible && DetectScroll(cfg, 1.0 - hand[IndexTip].x).None?
            && delta > cfg.scaleThreshold && PoseOf(hand) == Open)
      && (ScaleGesture(GestureOf(o)) ==> o.next.lastGestureTime == t && o.next.history == [])
  {
    HandFrameStep(cfg, sqrt, s, landmarks, t);
    if s.isAwake {
      var r := Read(sqrt, landmarks.value);
      PinchStageFacts(cfg, Record(s, r, t), r, t, BaseResult(cfg, s, r, t));
    }
  }

  /** `lastGestureTime` moves to the frame's time exactly on CONFIRM, SUMMON and DISMISS. */
  lemma GestureStamp(cfg: Config, sqrt: real -> real, s: RecognizerState, landmarks: Option<seq<Point>>, t: real)
    requires ValidConfig(cfg) && WellFormed(landmarks)
    ensures var o := Step(cfg, sqrt, s, landmarks, t);
      o.next.lastGestureTime == if Stamping(GestureOf(o)) then t else s.lastGestureTime
  {
    if HandFrame(landmarks) {
      HandFrameStep(cfg, sqrt, s, landmarks, t);
      if s.isAwake {
        var r := Read(sqrt, landmarks.value);
        PinchStageFacts(cfg, Record(s, r, t), r, t, BaseResult(cfg, s, r, t));
      }
    }
  }

  // ---------------------------------------------------------- many frames

  /** Frame `k` of a run is processed from the state the previous frames left. */
  lemma {:induction false} RunStep(cfg: Config, sqrt: real -> real, s: RecognizerState, frames: seq<Frame>, k: nat)
    requires ValidConfig(cfg) && AllWellFormed(frames) && k < |frames|
    ensures Run(cfg, sqrt, s, frames)[k]
         == Step(cfg, sqrt, Before(s, Run(cfg, sqrt, s, frames), k), frames[k].landmarks, frames[k].time)
    decreases k
  {
    if k > 0 {
      var o := Step(cfg, sqrt, s, frames[0].landmarks, frames[0].time);
      var tail := frames[1..];
      assert AllWellFormed(tail) by {
        forall m | 0 <= m < |tail|
          ensures WellFormed(tail[m].landmarks)
        {
          assert tail[m] == frames[m + 1];
        }
      }
      RunStep(cfg, sqrt, o.next, tail, k - 1);
      var outs := Run(cfg, sqrt, s, frames);
      var rest := Run(cfg, sqrt, o.next, tail);
      assert outs == [o] + rest;
      assert outs[k] == rest[k - 1];
      assert Before(s, outs, k) == Before(o.next, rest, k - 1);
      assert tail[k - 1] == frames[k];
    }
  }

  /** Once awake, the recognizer stays awake and never reports WAKE again. */
  lemma {:induction false} StaysAwake(cfg: Config, sqrt: real -> real, s: RecognizerState, frames: seq<Frame>, m: nat, k: nat)
    requires ValidConfig(cfg) && AllWellFormed(frames) && m <= k <= |frames|
    requires Before(s, Run(cfg, sqrt, s, frames), m).isAwake
    ensures Before(s, Run(cfg, sqrt, s, frames), k).isAwake
    ensures k < |frames| ==> GestureOf(Run(cfg, sqrt, s, frames)[k]) != Some(Wake)
    decreases k - m
  {
    var outs := Run(cfg, sqrt, s, frames);
    if k > m {
      StaysAwake(cfg, sqrt, s, frames, m, k - 1);
      RunStep(cfg, sqrt, s, frames, k - 1);
      AwakeFlag(cfg, sqrt, Before(s, outs, k - 1), frames[k - 1].landmarks, frames[k - 1].time);
    }
    if k < |frames| {
      RunStep(cfg, sqrt, s, frames, k);
      AwakeFlag(cfg, sqrt, Before(s, outs, k), frames[k].landmarks, frames[k].time);
    }
  }

  /** A run reports WAKE at most once. */
  lemma WakeAtMostOnce(cfg: Config, sqrt: real -> real, s: RecognizerState, frames: seq<Frame>, i: nat, j: nat)
    requires ValidConfig(cfg) && AllWellFormed(frames) && i < j < |frames|
    requires GestureOf(Run(cfg, sqrt, s, frames)[i]) == Some(Wake)
    ensures GestureOf(Run(cfg, sqrt, s, frames)[j]) != Some(Wake)
  {
    WakeAwakens(cfg, sqrt, s, frames, i);
    StaysAwake(cfg, sqrt, s, frames, i + 1, j);
  }

  /** The frame that reports WAKE leaves the recognizer awake. */
  lemma WakeAwakens(cfg: Config, sqrt: real -> real, s: RecognizerState, frames: seq<Frame>, i: nat)
    requires ValidConfig(cfg) && AllWellFormed(frames) && i < |frames|
    requires GestureOf(Run(cfg, sqrt, s, frames)[i]) == Some(Wake)
    ensures Before(s, Run(cfg, sqrt, s, frames), i + 1).isAwake
  {
    var outs := Run(cfg, sqrt, s, frames);
    var o := outs[i];
    RunStep(cfg, sqrt, s, frames, i);
    AwakeFlag(cfg, sqrt, Before(s, outs, i), frames[i].landmarks, frames[i].time);
    assert Before(s, outs, i + 1) == o.next;
  }

  /**
   * Starting asleep, until a frame reports WAKE the recognizer is asleep and
   * every frame reports nothing or WAKE.
   */
  lemma {:induction false} NothingBeforeWake(cfg: Config, sqrt: real -> real, s: RecognizerState, frames: seq<Frame>, k: nat)
    requires ValidConfig(cfg) && AllWellFormed(frames) && k < |frames| && !s.isAwake
    requires forall i :: 0 <= i < k ==> GestureOf(Run(cfg, sqrt, s, frames)[i]) != Some(Wake)
    ensures !Before(s, Run(cfg, sqrt, s, frames), k).isAwake
    ensures GestureOf(Run(cfg, sqrt, s, frames)[k]).None? || GestureOf(Run(cfg, sqrt, s, frames)[k]) == Some(Wake)
  {
    var outs := Run(cfg, sqrt, s, frames);
    if k > 0 {
      NothingBeforeWake(cfg, sqrt, s, frames, k - 1);
      RunStep(cfg, sqrt, s, frames, k - 1);
      AwakeFlag(cfg, sqrt, Before(s, outs, k - 1), frames[k - 1].landmarks, frames[k - 1].time);
    }
    RunStep(cfg, sqrt, s, frames, k);
    AsleepOnlyWakes(cfg, sqrt, Before(s, outs, k), frames[k].landmarks, frames[k].time);
  }

  /** From a latched state, a later CONFIRM needs a release frame in between. */
  lemma {:induction false} LatchedUntilRelease(cfg: Config, sqrt: real -> real, s: RecognizerState, frames: seq<Frame>, m: nat, j: nat)
    requires ValidConfig(cfg) && AllWellFormed(frames) && m <= j < |frames|
    requires Before(s, Run(cfg, sqrt, s, frames), m).isPinching
    requires GestureOf(Run(cfg, sqrt, s, frames)[j]) == Some(Confirm)
    ensures exists k :: m <= k < j && ReleaseFrame(cfg, sqrt, frames[k])
    decreases j - m
  {
    var outs := Run(cfg, sqrt, s, frames);
    var before := Before(s, outs, m);
    RunStep(cfg, sqrt, s, frames, m);
    LatchTransitions(cfg, sqrt, before, frames[m]);
    if HandFrame(frames[m].landmarks) {
      ConfirmConditions(cfg, sqrt, before, frames[m].landmarks, frames[m].time);
    } else {
      NoHandFrame(cfg, sqrt, before, frames[m].landmarks, frames[m].time);
    }
    assert GestureOf(outs[m]) != Some(Confirm);
    assert m < j;
    if !ReleaseFrame(cfg, sqrt, frames[m]) {
      assert outs[m].next.isPinching;
      LatchedUntilRelease(cfg, sqrt, s, frames, m + 1, j);
    }
  }

  /**
   * Between two CONFIRMs of a run there is a hand frame whose pinch opened
   * beyond the release threshold.
   */
  lemma ConfirmsSeparatedByRelease(cfg: Config, sqrt: real -> real, s: RecognizerState, frames: seq<Frame>, i: nat, j: nat)
    requires ValidConfig(cfg) && AllWellFormed(frames) && i < j < |frames|
    requires GestureOf(Run(cfg, sqrt, s, frames)[i]) == Some(Confirm)
    requires GestureOf(Run(cfg, sqrt, s, frames)[j]) == Some(Confirm)
    ensures exists k :: i < k < j && ReleaseFrame(cfg, sqrt, frames[k])
  {
    var outs := Run(cfg, sqrt, s, frames);
    var before := Before(s, outs, i);
    RunStep(cfg, sqrt, s, frames, i);
    if HandFrame(frames[i].landmarks) {
      ConfirmConditions(cfg, sqrt, before, frames[i].landmarks, frames[i].time);
    } else {
      NoHandFrame(cfg, sqrt, before, frames[i].landmarks, frames[i].time);
    }
    LatchedUntilRelease(cfg, sqrt, s, frames, i + 1, j);
  }

  /** With non-decreasing timestamps the pinch timer stays coherent along a run. */
  lemma {:induction false} CoherentAlongRun(cfg: Config, sqrt: real -> real, s: RecognizerState, frames: seq<Frame>, k: nat)
    requires ValidConfig(cfg) && AllWellFormed(frames) && Chronological(frames) && k < |frames|
    requires Coherent(s, frames[0].time)
    ensures Coherent(Before(s, Run(cfg, sqrt, s, frames), k), frames[k].time)
  {
    if k > 0 {
      var outs := Run(cfg, sqrt, s, frames);
      CoherentAlongRun(cfg, sqrt, s, frames, k - 1);
      RunStep(cfg, sqrt, s, frames, k - 1);
      CoherentStep(cfg, sqrt, Before(s, outs, k - 1), frames[k - 1].landmarks, frames[k - 1].time, frames[k].time);
    }
  }

  /** With non-decreasing timestamps every reported progress is within [0, 1]. */
  lemma ProgressInUnitAlongRun(cfg: Config, sqrt: real -> real, s: RecognizerState, frames: seq<Frame>, k: nat)
    requires ValidConfig(cfg) && AllWellFormed(frames) && Chronological(frames) && k < |frames|
    requires Coherent(s, frames[0].time)
    ensures var o := Run(cfg, sqrt, s, frames)[k];
      o.result.Some? ==> 0.0 <= o.result.value.pinchProgress <= 1.0
  {
    var outs := Run(cfg, sqrt, s, frames);
    CoherentAlongRun(cfg, sqrt, s, frames, k);
    RunStep(cfg, sqrt, s, frames, k);
    PinchProgress(cfg, sqrt, Before(s, outs, k), frames[k].landmarks, frames[k].time);
  }

  /** After a stamping gesture, the stamp is never earlier than that frame. */
  lemma {:induction false} StampNotBefore(cfg: Config, sqrt: real -> real, s: RecognizerState, frames: seq<Frame>, i: nat, k: nat)
    requires ValidConfig(cfg) && AllWellFormed(frames) && Chronological(frames) && i < k <= |frames|
    requires Stamping(GestureOf(Run(cfg, sqrt, s, frames)[i]))
    ensures Before(s, Run(cfg, sqrt, s, frames), k).lastGestureTime >= frames[i].time
  {
    RunStamp(cfg, sqrt, s, frames, k - 1);
    if k - 1 > i {
      StampNotBefore(cfg, sqrt, s, frames, i, k - 1);
      assert frames[i].time <= frames[k - 1].time;
    }
  }

  /** Frame `k` of a run moves the stamp to its time exactly on CONFIRM, SUMMON and DISMISS. */
  lemma RunStamp(cfg: Config, sqrt: real -> real, s: RecognizerState, frames: seq<Frame>, k: nat)
    requires ValidConfig(cfg) && AllWellFormed(frames) && k < |frames|
    ensures var outs := Run(cfg, sqrt, s, frames);
      Before(s, outs, k + 1).lastGestureTime
        == if Stamping(GestureOf(outs[k])) then frames[k].time else Before(s, outs, k).lastGestureTime
  {
    var outs := Run(cfg, sqrt, s, frames);
    RunStep(cfg, sqrt, s, frames, k);
    GestureStamp(cfg, sqrt, Before(s, outs, k), frames[k].landmarks, frames[k].time);
    assert Before(s, outs, k + 1) == outs[k].next;
  }

  /**
   * No SUMMON or DISMISS within `cooldown` (inclusive) of an earlier CONFIRM,
   * SUMMON or DISMISS.
   */
  lemma NoScaleGestureWithinCooldown(cfg: Config, sqrt: real -> real, s: RecognizerState, frames: seq<Frame>, i: nat, j: nat)
    requires ValidConfig(cfg) && AllWellFormed(frames) && Chronological(frames) && i < j < |frames|
    requires Stamping(GestureOf(Run(cfg, sqrt, s, frames)[i]))
    requires frames[j].time - frames[i].time <= cfg.cooldown
    ensures !ScaleGesture(GestureOf(Run(cfg, sqrt, s, frames)[j]))
  {
    var outs := Run(cfg, sqrt, s, frames);
    StampNotBefore(cfg, sqrt, s, frames, i, j);
    RunStep(cfg, sqrt, s, frames, j);
    if HandFrame(frames[j].landmarks) {
      ScaleConditions(cfg, sqrt, Before(s, outs, j), frames[j].landmarks, frames[j].time);
    } else {
      NoHandFrame(cfg, sqrt, Before(s, outs, j), frames[j].landmarks, frames[j].time);
    }
  }
}
