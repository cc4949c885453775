/**
 * `GestureRecognizer` as the source writes it: an object whose `process`
 * updates its fields step by step with early returns. Each call is proved to
 * do exactly what `GestureLogic.Step` says.
 */
module Recognizer {
  import opened Wrappers
  import opened Landmarks
  import opened GestureLogic

  class GestureRecognizer {
    const config: Config
    /** The host's `Math.sqrt`, used for the hand scale. */
    const sqrt: real -> real

    var isAwake: bool
    var lastGestureTime: real
    var lastHandPose: HandPose
    var isPinching: bool
    var history: seq<Sample>
    var presenceStartTime: real
    var pinchStartTime: real
    var poseStartTime: real

    /** The fields as one value. */
    ghost function State(): RecognizerState
      reads this
    {
      RecognizerState(isAwake, lastGestureTime, lastHandPose, isPinching, history,
                      presenceStartTime, pinchStartTime, poseStartTime)
    }

    /** Asleep, no gesture yet, pose UNKNOWN, empty history, all timers at 0. */
    constructor (config: Config, sqrt: real -> real)
      ensures this.config == config && this.sqrt == sqrt
      ensures State() == Initial
    {
      this.config := config;
      this.sqrt := sqrt;
      isAwake := false;
      lastGestureTime := 0.0;
      lastHandPose := Unknown;
      isPinching := false;
      history := [];
      presenceStartTime := 0.0;
      pinchStartTime := 0.0;
      poseStartTime := 0.0;
    }

    /** `_getHandPose`: count extended fingers in a loop, curled ones one by one. */
    method GetHandPose(hand: seq<Point>) returns (pose: HandPose)
      requires |hand| >= HandSize
      ensures pose == PoseOf(hand)
    {
      var tips := [IndexTip, MiddleTip, RingTip, PinkyTip];
      var pips := [IndexPip, MiddlePip, RingPip, PinkyPip];
      var wrist := hand[Wrist];
      var extendedCount := 0;
      for i := 0 to 4
        invariant extendedCount == CountExtended(hand, i)
      {
        if SqDist(hand[tips[i]], wrist) > ExtendSlack * ExtendSlack * SqDist(hand[pips[i]], wrist) {
          extendedCount := extendedCount + 1;
        }
      }
      var curledCount := 0;
      if SqDist(hand[IndexTip], wrist) < CurlSlack * CurlSlack * SqDist(hand[IndexPip], wrist) { curledCount := curledCount + 1; }
      if SqDist(hand[MiddleTip], wrist) < CurlSlack * CurlSlack * SqDist(hand[MiddlePip], wrist) { curledCount := curledCount + 1; }
      if SqDist(hand[RingTip], wrist) < CurlSlack * CurlSlack * SqDist(hand[RingPip], wrist) { curledCount := curledCount + 1; }
      if SqDist(hand[PinkyTip], wrist) < CurlSlack * CurlSlack * SqDist(hand[PinkyPip], wrist) { curledCount := curledCount + 1; }
      assert curledCount == CountCurled(hand);

      if extendedCount >= 3 { return Open; }
      if curledCount >= 3 { return Closed; }
      if extendedCount <= 1 { return Closed; }
      return Neutral;
    }

    /** `process(landmarks, timestamp)`. */
    method Process(landmarks: Option<seq<Point>>, timestamp: real) returns (r: Option<GestureResult>)
      requires ValidConfig(config) && WellFormed(landmarks)
      modifies this
      ensures r == Step(config, sqrt, old(State()), landmarks, timestamp).result
      ensures State() == Step(config, sqrt, old(State()), landmarks, timestamp).next
    {
      if landmarks.None? || |landmarks.value| == 0 {
        history := [];
        presenceStartTime := 0.0;
        lastHandPose := Unknown;
        return None;
      }

      var hand := landmarks.value;
      var palm := hand[Wrist];
      var indexTip := hand[IndexTip];
      var thumbTip := hand[ThumbTip];
      var currentScale := sqrt(SqDist(hand[Wrist], hand[MiddleMcp]));
      var currentPose := GetHandPose(hand);
      var reading := HandReading(palm, indexTip, SqDist(thumbTip, indexTip), currentScale, currentPose);
      assert reading == Read(sqrt, hand);

      history := Recent(history + [Sample(palm.x, palm.y, palm.z, currentScale, timestamp, currentPose)],
                        timestamp, MaxHistoryTime);
      var result := GestureResult(None, indexTip.x, indexTip.y, isAwake, 0.0, currentPose,
                                  ScaleDelta(config, history, timestamp));
      if currentPose != lastHandPose {
        lastHandPose := currentPose;
        poseStartTime := timestamp;
      }

      if !isAwake {
        r := AwaitWake(currentPose, timestamp, result);
      } else {
        r := TrackPinch(reading, timestamp, result);
      }
    }

    /** The sleeping branch of `process`: only WAKE is looked for. */
    method AwaitWake(pose: HandPose, timestamp: real, result: GestureResult) returns (r: Option<GestureResult>)
      requires result.gesture.None?
      modifies this
      ensures r == WakeStage(config, old(State()), pose, timestamp, result).result
      ensures State() == WakeStage(config, old(State()), pose, timestamp, result).next
    {
      r := Some(result);
      if pose == Open && IsSteady(history) {
        if presenceStartTime == 0.0 {
          presenceStartTime := timestamp;
        }
        if timestamp - presenceStartTime > config.wakeHoldTime {
          isAwake := true;
          r := Some(result.(gesture := Some(Wake), awake := true));
          presenceStartTime := 0.0;
        }
      } else {
        presenceStartTime := 0.0;
      }
    }

    /** The pinch part of the awake branch of `process`. */
    method TrackPinch(reading: HandReading, timestamp: real, result: GestureResult) returns (r: Option<GestureResult>)
      requires ValidConfig(config) && result.gesture.None?
      modifies this
      ensures r == PinchStage(config, old(State()), reading, timestamp, result).result
      ensures State() == PinchStage(config, old(State()), reading, timestamp, result).next
    {
      ghost var s0 := State();
      var pinchDist := reading.pinchSq;
      var progress := result;
      if isPinching {
        if pinchDist > config.pinchReleaseThreshold * config.pinchReleaseThreshold {
          isPinching := false;
          pinchStartTime := 0.0;
        }
      } else {
        if pinchDist < config.pinchThreshold * config.pinchThreshold {
          if pinchStartTime == 0.0 {
            pinchStartTime := timestamp;
          }
          var elapsed := timestamp - pinchStartTime;
          if elapsed > config.pinchHoldTime {
            lastGestureTime := timestamp;
            isPinching := true;
            return Some(result.(gesture := Some(Confirm)));
          }
          progress := result.(pinchProgress := elapsed / config.pinchHoldTime);
        } else {
          pinchStartTime := 0.0;
          progress := result.(pinchProgress := 0.0);
        }
      }
      assert PinchStage(config, s0, reading, timestamp, result)
          == MotionStage(config, State(), reading, timestamp, progress);
      r := TrackMotion(reading, timestamp, progress);
    }

    /** Edge scroll, then the scale gestures after the cooldown. */
    method TrackMotion(reading: HandReading, timestamp: real, result: GestureResult) returns (r: Option<GestureResult>)
      requires result.gesture.None?
      modifies this
      ensures r == MotionStage(config, old(State()), reading, timestamp, result).result
      ensures State() == MotionStage(config, old(State()), reading, timestamp, result).next
    {
      if reading.pose == Open {
        var scroll := DetectScroll(config, 1.0 - reading.indexTip.x);
        if scroll.Some? {
          return Some(result.(gesture := scroll));
        }
      }
      if timestamp - lastGestureTime > config.cooldown {
        var scaleGesture := DetectComplexScale(config, ScaleDelta(config, history, timestamp), reading.pose);
        if scaleGesture.Some? {
          lastGestureTime := timestamp;
          history := [];
          return Some(result.(gesture := scaleGesture));
        }
      }
      return Some(result);
    }
  }
}
