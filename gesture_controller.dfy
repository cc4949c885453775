/**
 * The per-frame pipeline of components/GestureController.tsx: the first
 * detected hand is smoothed, then recognised with the same timestamp, and a
 * reported cursor is projected onto the window, mirrored, shifted by the
 * handedness offset and scaled by the gain about the centre.
 */
module GestureController {
  import opened Wrappers
  import opened Landmarks
  import opened GestureLogic
  import opened Smoothing
  import opened Recognizer
  import opened GestureProperties

  const Gain: real := 1.12
  const CenterY: real := 0.2

  /** `handOffset` from the handedness label. */
  function HandOffset(handedness: Option<string>): (off: real)
    ensures handedness == Some("Right") ==> off == 0.04
    ensures handedness == Some("Left") ==> off == -0.04
    ensures handedness != Some("Right") && handedness != Some("Left") ==> off == 0.0
  {
    if handedness == Some("Right") then 0.04
    else if handedness == Some("Left") then -0.04
    else 0.0
  }

  /** The horizontal pixel of a raw index-tip `x`, mirrored. */
  function ScreenX(x: real, offset: real, width: real): real
  {
    (((1.0 - x + offset) - 0.5) * Gain + 0.5) * width
  }

  /** The vertical pixel of a raw index-tip `y`. */
  function ScreenY(y: real, height: real): real
  {
    ((y - CenterY) * Gain + 0.5) * height
  }

  /** The raw `x` a horizontal pixel came from. */
  function RawX(sx: real, offset: real, width: real): real
    requires width > 0.0
  {
    1.0 + offset - ((sx / width - 0.5) / Gain + 0.5)
  }

  /** The raw `y` a vertical pixel came from. */
  function RawY(sy: real, height: real): real
    requires height > 0.0
  {
    (sy / height - 0.5) / Gain + CenterY
  }

  /** The projection is invertible: the raw coordinates come back from the pixels. */
  lemma ProjectionRoundTrip(x: real, y: real, offset: real, width: real, height: real)
    requires width > 0.0 && height > 0.0
    ensures RawX(ScreenX(x, offset, width), offset, width) == x
    ensures RawY(ScreenY(y, height), height) == y
  {
    var u := ((1.0 - x + offset) - 0.5) * Gain + 0.5;
    assert ScreenX(x, offset, width) / width == u;
    var v := (y - CenterY) * Gain + 0.5;
    assert ScreenY(y, height) / height == v;
  }

  /** Mirroring: moving the hand right moves the cursor left, and the reverse on the other axis. */
  lemma ProjectionMonotone(x1: real, x2: real, y1: real, y2: real, offset: real, width: real, height: real)
    requires width > 0.0 && height > 0.0
    ensures x1 < x2 ==> ScreenX(x1, offset, width) > ScreenX(x2, offset, width)
    ensures y1 < y2 ==> ScreenY(y1, height) < ScreenY(y2, height)
  {
    if x1 < x2 {
      assert ScreenX(x1, offset, width) - ScreenX(x2, offset, width) == (x2 - x1) * Gain * width;
      Positive((x2 - x1) * Gain, width);
    }
    if y1 < y2 {
      assert ScreenY(y2, height) - ScreenY(y1, height) == (y2 - y1) * Gain * height;
      Positive((y2 - y1) * Gain, height);
    }
  }

  lemma Positive(a: real, b: real)
    requires a > 0.0 && b > 0.0
    ensures a * b > 0.0
  {
  }

  /** The centre of the window is at raw `x = 0.5 + offset` and raw `y = 0.2`. */
  lemma ProjectionCentre(offset: real, width: real, height: real)
    ensures ScreenX(0.5 + offset, offset, width) == width / 2.0
    ensures ScreenY(CenterY, height) == height / 2.0
  {
  }

  /** Nothing is clamped: the right and bottom edges of the camera image land beyond the window. */
  lemma ProjectionOvershoots(handedness: Option<string>, width: real, height: real)
    requires width > 0.0 && height > 0.0
    ensures ScreenX(0.0, HandOffset(handedness), width) > width
    ensures ScreenY(1.0, height) > height
  {
    var off := HandOffset(handedness);
    assert ScreenX(0.0, off, width) == (1.06 + off * Gain) * width;
    Positive(0.06 + off * Gain, width);
    assert ScreenY(1.0, height) == 1.396 * height;
    Positive(0.396, height);
  }

  datatype Cursor = Cursor(x: real, y: real)

  /**
   * What one detection frame sends out: whether `onCursor` is called and
   * with what (`null` is `None`), and the gesture passed to `onGesture`, if any.
   */
  datatype Emission = Emission(cursorCalled: bool, cursor: Option<Cursor>, gesture: Option<GestureType>)

  /** The controller's smoother (factor 0.2) and recogniser (the default config). */
  class Pipeline {
    const smoother: LandmarkSmoother
    const recognizer: GestureRecognizer

    /** Two distinct objects, with the recogniser on a usable config. */
    predicate Valid()
    {
      smoother != recognizer as object && ValidConfig(recognizer.config)
    }

    constructor (sqrt: real -> real)
      ensures Valid()
      ensures fresh(smoother) && fresh(recognizer)
      ensures smoother.alpha == TsDefaultAlpha && smoother.smoothed.None?
      ensures recognizer.config == TsConfig && recognizer.sqrt == sqrt && recognizer.State() == Initial
    {
      smoother := new LandmarkSmoother(TsDefaultAlpha);
      recognizer := new GestureRecognizer(TsConfig, sqrt);
    }

    /**
     * One detection result in `predict` at time `now`: with no hand the
     * cursor is withdrawn and nothing is recognised; otherwise the smoothed
     * hand goes to the recogniser at the same `now`, the reported cursor is
     * projected, and a gesture is passed on only when there is one. The
     * recogniser always reports on a hand of 21 points, so the source's
     * guard on a missing report never skips the cursor here.
     */
    method Predict(hand: Option<seq<Point>>, handedness: Option<string>, now: real, width: real, height: real)
      returns (e: Emission)
      requires Valid()
      requires hand.Some? ==> |hand.value| >= HandSize
      modifies smoother, recognizer
      ensures hand.None? ==>
                e == Emission(true, None, None)
                && smoother.smoothed == old(smoother.smoothed) && recognizer.State() == old(recognizer.State())
      ensures hand.Some? ==>
                var smoothed := SmoothStep(smoother.alpha, old(smoother.smoothed), hand.value);
                var out := Step(recognizer.config, recognizer.sqrt, old(recognizer.State()), Some(smoothed), now);
                && |smoothed| == |hand.value|
                && smoother.smoothed == Some(smoothed)
                && recognizer.State() == out.next
                && out.result.Some?
                && e == Emission(true,
                                 Some(Cursor(ScreenX(smoothed[IndexTip].x, HandOffset(handedness), width),
                                             ScreenY(smoothed[IndexTip].y, height))),
                                 out.result.value.gesture)
    {
      if hand.None? {
        return Emission(true, None, None);
      }
      SmoothKeepsLength(smoother.alpha, smoother.smoothed, hand.value);
      ghost var s0 := recognizer.State();
      var smoothed := smoother.Smooth(hand.value);
      var result := recognizer.Process(Some(smoothed), now);
      HandFrameReport(recognizer.config, recognizer.sqrt, s0, Some(smoothed), now);
      var g := result.value;
      var offset := HandOffset(handedness);
      var cursor := Cursor(ScreenX(g.cursorX, offset, width), ScreenY(g.cursorY, height));
      return Emission(true, Some(cursor), g.gesture);
    }
  }
}
