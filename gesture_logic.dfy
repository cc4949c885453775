/**
 * The gesture recognizer's per-frame transition, as a function of the
 * recognizer's state, one frame of landmarks and the caller's timestamp
 * (gesture/gesture-logic.ts; apps/gesture-lab/src/gesture-logic.js is the
 * same machine with the constants of `LabConfig`).
 *
 * The class in module Recognizer runs the source's imperative `process`
 * and is proved to agree with `Step`; the properties of the machine are
 * proved about `Step` and `Run` in module GestureProperties.
 */
module GestureLogic {
  import opened Wrappers
  import opened Landmarks

  datatype GestureType = Wake | Confirm | ScrollLeft | ScrollRight | Summon | Dismiss

  datatype HandPose = Open | Closed | Neutral | Unknown

  /** The tunable thresholds (`config`); distances are normalised, times in ms. */
  datatype Config = Config(
    wakeHoldTime: real,
    pinchThreshold: real,
    pinchReleaseThreshold: real,
    pinchHoldTime: real,
    scrollThresholdX: real,
    scaleThreshold: real,
    scaleTimeWindow: real,
    cooldown: real)

  /** The constants of gesture/gesture-logic.ts. */
  const TsConfig := Config(500.0, 0.1, 0.15, 400.0, 0.33, 0.04, 900.0, 800.0)

  /** The constants of apps/gesture-lab/src/gesture-logic.js. */
  const LabConfig := Config(500.0, 0.1, 0.15, 400.0, 0.33, 0.02, 600.0, 500.0)

  /** `maxHistoryTime`: history keeps the samples of the last second. */
  const MaxHistoryTime: real := 1000.0

  /** Slack factors of the pose classifier and the steadiness radius. */
  const ExtendSlack: real := 1.1
  const CurlSlack: real := 1.2
  const SteadyRadius: real := 0.05

  /** Samples the steadiness test and the scale delta need. */
  const MinSamples := 5

  /** What the transition relies on: a positive hold time and non-negative distances. */
  predicate ValidConfig(c: Config)
  {
    && c.pinchHoldTime > 0.0
    && 0.0 <= c.pinchThreshold <= c.pinchReleaseThreshold
    && c.scaleThreshold >= 0.0
  }

  /** One history entry: the wrist position, the hand scale, the time and the pose. */
  datatype Sample = Sample(x: real, y: real, z: real, scale: real, time: real, pose: HandPose)

  /** Every field `process` reads or writes (`state`, `history` and the timers). */
  datatype RecognizerState = RecognizerState(
    isAwake: bool,
    lastGestureTime: real,
    lastHandPose: HandPose,
    isPinching: bool,
    history: seq<Sample>,
    presenceStartTime: real,
    pinchStartTime: real,
    poseStartTime: real)

  /** The state the constructor builds. */
  const Initial := RecognizerState(false, 0.0, Unknown, false, [], 0.0, 0.0, 0.0)

  /** `GestureResult`; `awake` is `state == 'AWAKE'`, the cursor is the raw index tip. */
  datatype GestureResult = GestureResult(
    gesture: Option<GestureType>,
    cursorX: real,
    cursorY: real,
    awake: bool,
    pinchProgress: real,
    debugPose: HandPose,
    zDelta: real)

  /** What one call of `process` returns and the state it leaves. */
  datatype Outcome = Outcome(next: RecognizerState, result: Option<GestureResult>)

  /** One frame: landmarks (`null` is `None`) and the caller's timestamp. */
  datatype Frame = Frame(landmarks: Option<seq<Point>>, time: real)

  /** `!landmarks || landmarks.length === 0`. */
  predicate NoHand(landmarks: Option<seq<Point>>)
  {
    landmarks.None? || |landmarks.value| == 0
  }

  /**
   * A frame `process` can take without reading past the array: no hand, or
   * at least the 21 points it indexes.
   */
  predicate WellFormed(landmarks: Option<seq<Point>>)
  {
    NoHand(landmarks) || |landmarks.value| >= HandSize
  }

  // ---------------------------------------------------------------- pose

  const Tips: seq<nat> := [IndexTip, MiddleTip, RingTip, PinkyTip]
  const Pips: seq<nat> := [IndexPip, MiddlePip, RingPip, PinkyPip]

  /** The fingertip is farther from the wrist than 1.1 times its PIP joint. */
  predicate Extended(hand: seq<Point>, tip: nat, pip: nat)
    requires tip < |hand| && pip < |hand| && Wrist < |hand|
  {
    SqDist(hand[tip], hand[Wrist]) > ExtendSlack * ExtendSlack * SqDist(hand[pip], hand[Wrist])
  }

  /** The fingertip is nearer to the wrist than 1.2 times its PIP joint. */
  predicate Curled(hand: seq<Point>, tip: nat, pip: nat)
    requires tip < |hand| && pip < |hand| && Wrist < |hand|
  {
    SqDist(hand[tip], hand[Wrist]) < CurlSlack * CurlSlack * SqDist(hand[pip], hand[Wrist])
  }

  /** How many of the first `n` fingers (index, middle, ring, pinky) are extended. */
  function CountExtended(hand: seq<Point>, n: nat): (c: nat)
    requires |hand| >= HandSize && n <= 4
    ensures c <= n
  {
    if n == 0 then 0
    else CountExtended(hand, n - 1) + (if Extended(hand, Tips[n - 1], Pips[n - 1]) then 1 else 0)
  }

  /** How many of the four fingers are curled. */
  function CountCurled(hand: seq<Point>): (c: nat)
    requires |hand| >= HandSize
    ensures c <= 4
  {
    (if Curled(hand, IndexTip, IndexPip) then 1 else 0)
    + (if Curled(hand, MiddleTip, MiddlePip) then 1 else 0)
    + (if Curled(hand, RingTip, RingPip) then 1 else 0)
    + (if Curled(hand, PinkyTip, PinkyPip) then 1 else 0)
  }

  /**
   * `_getHandPose`. Three or more extended fingers is OPEN, whatever the curl
   * count; otherwise three or more curled, or at most one extended, is CLOSED;
   * NEUTRAL is left for exactly two extended and at most two curled. A hand is
   * never UNKNOWN.
   */
  function PoseOf(hand: seq<Point>): (p: HandPose)
    requires |hand| >= HandSize
    ensures p != Unknown
    ensures p == Open <==> CountExtended(hand, 4) >= 3
    ensures p == Closed <==> CountExtended(hand, 4) < 3 && (CountCurled(hand) >= 3 || CountExtended(hand, 4) <= 1)
    ensures p == Neutral <==> CountExtended(hand, 4) == 2 && CountCurled(hand) < 3
  {
    var extended := CountExtended(hand, 4);
    var curled := CountCurled(hand);
    if extended >= 3 then Open
    else if curled >= 3 then Closed
    else if extended <= 1 then Closed
    else Neutral
  }

  // ------------------------------------------------------------- history

  /**
   * `history.filter(h => now - h.time < window)`: the samples younger than
   * `window`, in their original order.
   */
  function Recent(h: seq<Sample>, now: real, window: real): (r: seq<Sample>)
    ensures |r| <= |h|
    ensures forall i :: 0 <= i < |r| ==> now - r[i].time < window && r[i] in h
    ensures |h| > 0 && now - h[|h| - 1].time < window ==> |r| > 0 && r[|r| - 1] == h[|h| - 1]
    decreases |h|
  {
    if h == [] then []
    else
      var rest := Recent(h[..|h| - 1], now, window);
      var last := h[|h| - 1];
      assert forall i :: 0 <= i < |rest| ==> rest[i] in h;
      if now - last.time < window then rest + [last] else rest
  }

  /** Samples in time order. */
  predicate SortedByTime(h: seq<Sample>)
  {
    forall i, j :: 0 <= i < j < |h| ==> h[i].time <= h[j].time
  }

  /** Where the wrist was when the sample was taken. */
  function Position(a: Sample): Point
  {
    Point(a.x, a.y, a.z)
  }

  /**
   * `_isSteady`: at least five samples, and the wrist moved less than 0.05
   * between the oldest and the newest of the last five.
   */
  predicate IsSteady(h: seq<Sample>)
  {
    |h| >= MinSamples && SqDist(Position(h[|h| - 1]), Position(h[|h| - MinSamples])) < SteadyRadius * SteadyRadius
  }

  /**
   * `_getScaleDelta`: the newest minus the oldest scale among the samples
   * inside the scale window, or 0 with fewer than five samples in all or
   * fewer than two in the window.
   */
  function ScaleDelta(cfg: Config, h: seq<Sample>, now: real): real
  {
    if |h| < MinSamples then 0.0
    else
      var window := Recent(h, now, cfg.scaleTimeWindow);
      if |window| < 2 then 0.0 else window[|window| - 1].scale - window[0].scale
  }

  /**
   * `_detectScroll` on the mirrored cursor. LEFT exactly below the threshold;
   * RIGHT exactly above one minus it, once LEFT is ruled out, which for a
   * threshold under one half means exactly above one minus it.
   */
  function DetectScroll(cfg: Config, cursorX: real): (g: Option<GestureType>)
    ensures g == Some(ScrollLeft) <==> cursorX < cfg.scrollThresholdX
    ensures g == Some(ScrollRight) <==> cursorX >= cfg.scrollThresholdX && cursorX > 1.0 - cfg.scrollThresholdX
    ensures cfg.scrollThresholdX < 0.5 ==> (g == Some(ScrollRight) <==> cursorX > 1.0 - cfg.scrollThresholdX)
    ensures g.None? || g.value == ScrollLeft || g.value == ScrollRight
  {
    if cursorX < cfg.scrollThresholdX then Some(ScrollLeft)
    else if cursorX > 1.0 - cfg.scrollThresholdX then Some(ScrollRight)
    else None
  }

  /**
   * `_detectComplexScale`: SUMMON when the hand shrank by more than the
   * threshold while CLOSED, DISMISS when it grew by more than the threshold
   * while OPEN, nothing otherwise.
   */
  function DetectComplexScale(cfg: Config, delta: real, pose: HandPose): (g: Option<GestureType>)
    ensures g == Some(Summon) <==> delta < -cfg.scaleThreshold && pose == Closed
    ensures g == Some(Dismiss) <==> delta > cfg.scaleThreshold && pose == Open
    ensures g.None? || g.value == Summon || g.value == Dismiss
  {
    if delta < -cfg.scaleThreshold && pose == Closed then Some(Summon)
    else if delta > cfg.scaleThreshold && pose == Open then Some(Dismiss)
    else None
  }

  // -------------------------------------------------------------- frames

  /** What `process` reads off one hand. */
  datatype HandReading = HandReading(wrist: Point, indexTip: Point, pinchSq: real, scale: real, pose: HandPose)

  /**
   * The readings of a hand; `sqrt` stands for `Math.sqrt`, used only for the
   * hand scale (`_getHandScale`, the wrist to middle-knuckle distance).
   */
  function Read(sqrt: real -> real, hand: seq<Point>): HandReading
    requires |hand| >= HandSize
  {
    HandReading(
      hand[Wrist], hand[IndexTip],
      SqDist(hand[ThumbTip], hand[IndexTip]),
      sqrt(SqDist(hand[Wrist], hand[MiddleMcp])),
      PoseOf(hand))
  }

  /** The history entry of this frame. */
  function SampleOf(r: HandReading, t: real): Sample
  {
    Sample(r.wrist.x, r.wrist.y, r.wrist.z, r.scale, t, r.pose)
  }

  /** `process(landmarks, timestamp)`. */
  function Step(cfg: Config, sqrt: real -> real, s: RecognizerState, landmarks: Option<seq<Point>>, t: real): Outcome
    requires ValidConfig(cfg) && WellFormed(landmarks)
  {
    if NoHand(landmarks) then
      Outcome(s.(history := [], presenceStartTime := 0.0, lastHandPose := Unknown), None)
    else
      HandStep(cfg, s, Read(sqrt, landmarks.value), t)
  }

  /**
   * The state after a hand frame is recorded: the sample pushed and the
   * history cut to the last second, the pose remembered and its start time
   * moved when it changed.
   */
  function Record(s: RecognizerState, r: HandReading, t: real): RecognizerState
  {
    s.(
      history := Recent(s.history + [SampleOf(r, t)], t, MaxHistoryTime),
      lastHandPose := r.pose,
      poseStartTime := if r.pose != s.lastHandPose then t else s.poseStartTime)
  }

  /** The result a hand frame starts from: no gesture, no progress. */
  function BaseResult(cfg: Config, s: RecognizerState, r: HandReading, t: real): GestureResult
  {
    GestureResult(None, r.indexTip.x, r.indexTip.y, s.isAwake, 0.0, r.pose,
                  ScaleDelta(cfg, Record(s, r, t).history, t))
  }

  /** A frame with a hand: record it, then run the stages in priority order. */
  function HandStep(cfg: Config, s: RecognizerState, r: HandReading, t: real): Outcome
    requires ValidConfig(cfg)
  {
    if !s.isAwake then WakeStage(cfg, Record(s, r, t), r.pose, t, BaseResult(cfg, s, r, t))
    else PinchStage(cfg, Record(s, r, t), r, t, BaseResult(cfg, s, r, t))
  }

  /**
   * While asleep only WAKE is considered: an OPEN, steady hand starts (or
   * continues) the presence timer and wakes the recognizer once held strictly
   * longer than `wakeHoldTime`; any other frame resets the timer.
   */
  function WakeStage(cfg: Config, s: RecognizerState, pose: HandPose, t: real, base: GestureResult): (o: Outcome)
    requires base.gesture.None?
    ensures o.result.Some?
    ensures o.result.value.gesture.None? || o.result.value.gesture == Some(Wake)
    ensures o.result.value.gesture == Some(Wake) <==>
              pose == Open && IsSteady(s.history)
              && t - (if s.presenceStartTime == 0.0 then t else s.presenceStartTime) > cfg.wakeHoldTime
    ensures o.next.isAwake <==> o.result.value.gesture == Some(Wake) || s.isAwake
    ensures !(pose == Open && IsSteady(s.history)) ==> o.next.presenceStartTime == 0.0
    ensures o.next == s.(isAwake := o.next.isAwake, presenceStartTime := o.next.presenceStartTime)
  {
    if pose == Open && IsSteady(s.history) then
      var start := if s.presenceStartTime == 0.0 then t else s.presenceStartTime;
      if t - start > cfg.wakeHoldTime then
        Outcome(s.(isAwake := true, presenceStartTime := 0.0), Some(base.(gesture := Some(Wake), awake := true)))
      else
        Outcome(s.(presenceStartTime := start), Some(base))
    else
      Outcome(s.(presenceStartTime := 0.0), Some(base))
  }

  /** When the pinch timer counts from during a frame at `t`: 0 means "not started". */
  function PinchStart(s: RecognizerState, t: real): real
  {
    if s.pinchStartTime == 0.0 then t else s.pinchStartTime
  }

  /** The pinch is below the engage threshold (compared on squares). */
  predicate Engaged(cfg: Config, r: HandReading)
  {
    r.pinchSq < cfg.pinchThreshold * cfg.pinchThreshold
  }

  /** The pinch is above the release threshold (compared on squares). */
  predicate Released(cfg: Config, r: HandReading)
  {
    r.pinchSq > cfg.pinchReleaseThreshold * cfg.pinchReleaseThreshold
  }

  /** The pinch stage reports CONFIRM: unlatched, engaged, and held longer than `pinchHoldTime`. */
  predicate PinchFires(cfg: Config, s: RecognizerState, r: HandReading, t: real)
  {
    !s.isPinching && Engaged(cfg, r) && t - PinchStart(s, t) > cfg.pinchHoldTime
  }

  /**
   * The pinch micro-machine: a latched pinch is released only above the
   * release threshold; an unlatched pinch below the engage threshold runs the
   * hold timer and fires CONFIRM (latching, stamping `lastGestureTime` and
   * skipping the later stages) once held longer than `pinchHoldTime`.
   */
  function PinchStage(cfg: Config, s: RecognizerState, r: HandReading, t: real, base: GestureResult): Outcome
    requires ValidConfig(cfg) && base.gesture.None?
  {
    if s.isPinching then
      var s2 := if Released(cfg, r) then s.(isPinching := false, pinchStartTime := 0.0) else s;
      MotionStage(cfg, s2, r, t, base)
    else if Engaged(cfg, r) then
      var start := PinchStart(s, t);
      var elapsed := t - start;
      if elapsed > cfg.pinchHoldTime then
        Outcome(s.(pinchStartTime := start, lastGestureTime := t, isPinching := true),
                Some(base.(gesture := Some(Confirm))))
      else
        MotionStage(cfg, s.(pinchStartTime := start), r, t, base.(pinchProgress := elapsed / cfg.pinchHoldTime))
    else
      MotionStage(cfg, s.(pinchStartTime := 0.0), r, t, base.(pinchProgress := 0.0))
  }

  /**
   * Edge scroll for an OPEN hand (no cooldown, `lastGestureTime` untouched),
   * then, strictly after the cooldown, the scale gestures, which stamp
   * `lastGestureTime` and empty the history.
   */
  function MotionStage(cfg: Config, s: RecognizerState, r: HandReading, t: real, base: GestureResult): (o: Outcome)
    requires base.gesture.None?
    ensures o.result.Some?
    ensures o.result.value == base.(gesture := o.result.value.gesture)
    ensures o.result.value.gesture != Some(Wake) && o.result.value.gesture != Some(Confirm)
    ensures o.result.value.gesture == Some(ScrollLeft) || o.result.value.gesture == Some(ScrollRight) ==>
              r.pose == Open && o.next == s
    ensures o.result.value.gesture == Some(Summon) || o.result.value.gesture == Some(Dismiss) ==>
              t - s.lastGestureTime > cfg.cooldown && o.next == s.(lastGestureTime := t, history := [])
    ensures o.result.value.gesture.None? ==> o.next == s
  {
    var scroll := if r.pose == Open then DetectScroll(cfg, 1.0 - r.indexTip.x) else None;
    if scroll.Some? then
      Outcome(s, Some(base.(gesture := scroll)))
    else if t - s.lastGestureTime > cfg.cooldown then
      var scale := DetectComplexScale(cfg, ScaleDelta(cfg, s.history, t), r.pose);
      if scale.Some? then
        Outcome(s.(lastGestureTime := t, history := []), Some(base.(gesture := scale)))
      else
        Outcome(s, Some(base))
    else
      Outcome(s, Some(base))
  }

  /** The outcomes of feeding `frames` one after another, starting from `s`. */
  function Run(cfg: Config, sqrt: real -> real, s: RecognizerState, frames: seq<Frame>): (outs: seq<Outcome>)
    requires ValidConfig(cfg)
    requires forall k :: 0 <= k < |frames| ==> WellFormed(frames[k].landmarks)
    ensures |outs| == |frames|
    decreases |frames|
  {
    if frames == [] then []
    else
      var o := Step(cfg, sqrt, s, frames[0].landmarks, frames[0].time);
      [o] + Run(cfg, sqrt, o.next, frames[1..])
  }

  /** The state in which frame `k` of a run is processed. */
  function Before(s: RecognizerState, outs: seq<Outcome>, k: nat): RecognizerState
    requires k <= |outs|
  {
    if k == 0 then s else outs[k - 1].next
  }

  /** The gesture a step reports, if any. */
  function GestureOf(o: Outcome): Option<GestureType>
  {
    if o.result.Some? then o.result.value.gesture else None
  }
}
