/**
 * The landmark smoothers: an exponential moving average per point and per
 * coordinate, with a one-array memory (gesture/smoothing.ts), and the lab's
 * older variant written as a linear interpolation
 * (apps/gesture-lab/src/smoothing.js).
 */
module Smoothing {
  import opened Wrappers
  import opened Landmarks

  /** The default factors of the two constructors. */
  const TsDefaultAlpha: real := 0.2
  const LabDefaultAlpha: real := 0.5

  // ------------------------------------------------------------- the update

  /** One coordinate moved the `alpha` share of the way from `prev` to `cur`. */
  function Ema(alpha: real, prev: real, cur: real): real
  {
    prev + alpha * (cur - prev)
  }

  function EmaPoint(alpha: real, prev: Point, cur: Point): Point
  {
    Point(Ema(alpha, prev.x, cur.x), Ema(alpha, prev.y, cur.y), Ema(alpha, prev.z, cur.z))
  }

  /** `smoothed.map((prev, i) => ...)`: point `i` depends only on point `i` of each array. */
  function EmaAll(alpha: real, prev: seq<Point>, cur: seq<Point>): (r: seq<Point>)
    requires |prev| == |cur|
    ensures |r| == |prev|
    ensures forall i :: 0 <= i < |r| ==> r[i] == EmaPoint(alpha, prev[i], cur[i])
  {
    seq(|prev|, i requires 0 <= i < |prev| => EmaPoint(alpha, prev[i], cur[i]))
  }

  /**
   * What `LandmarkSmoother.smooth` returns and stores: a copy of the input on
   * the first call or when the number of points changed, else the average.
   */
  function SmoothStep(alpha: real, stored: Option<seq<Point>>, landmarks: seq<Point>): seq<Point>
  {
    if stored.None? || |stored.value| != |landmarks| then landmarks
    else EmaAll(alpha, stored.value, landmarks)
  }

  /** `LandmarkSmoother` of gesture/smoothing.ts. */
  class LandmarkSmoother {
    const alpha: real
    var smoothed: Option<seq<Point>>

    constructor (alpha: real)
      ensures this.alpha == alpha && smoothed.None?
    {
      this.alpha := alpha;
      smoothed := None;
    }

    /** `smooth(landmarks)`: the new array is returned and remembered. */
    method Smooth(landmarks: seq<Point>) returns (r: seq<Point>)
      modifies this
      ensures r == SmoothStep(alpha, old(smoothed), landmarks)
      ensures smoothed == Some(r)
    {
      if smoothed.None? || |smoothed.value| != |landmarks| {
        smoothed := Some(landmarks);
        return landmarks;
      }
      smoothed := Some(EmaAll(alpha, smoothed.value, landmarks));
      return smoothed.value;
    }
  }

  // ------------------------------------------------------- the lab variant

  /** `_lerp(start, end, amt)`. */
  function Lerp(start: real, end: real, amt: real): real
  {
    (1.0 - amt) * start + amt * end
  }

  function LerpPoint(alpha: real, prev: Point, cur: Point): Point
  {
    Point(Lerp(prev.x, cur.x, alpha), Lerp(prev.y, cur.y, alpha), Lerp(prev.z, cur.z, alpha))
  }

  /**
   * What the lab's `smooth(landmarks)` returns: nothing for no input, the
   * input itself on the first call, else each point interpolated with the
   * stored point of the same index. The source reads `prevLandmarks[index]`
   * without a length check, so the input may not be longer than the store.
   */
  function LabSmoothStep(alpha: real, prev: Option<seq<Point>>, landmarks: Option<seq<Point>>): Option<seq<Point>>
    requires landmarks.Some? && prev.Some? ==> |landmarks.value| <= |prev.value|
  {
    if landmarks.None? then None
    else if prev.None? then landmarks
    else
      var cur := landmarks.value;
      Some(seq(|cur|, i requires 0 <= i < |cur| => LerpPoint(alpha, prev.value[i], cur[i])))
  }

  /** `LandmarkSmoother` of apps/gesture-lab/src/smoothing.js. */
  class LabLandmarkSmoother {
    const alpha: real
    var prevLandmarks: Option<seq<Point>>

    constructor (alpha: real)
      ensures this.alpha == alpha && prevLandmarks.None?
    {
      this.alpha := alpha;
      prevLandmarks := None;
    }

    /** `smooth(landmarks)`: a missing input leaves the memory alone. */
    method Smooth(landmarks: Option<seq<Point>>) returns (r: Option<seq<Point>>)
      requires landmarks.Some? && prevLandmarks.Some? ==> |landmarks.value| <= |prevLandmarks.value|
      modifies this
      ensures r == LabSmoothStep(alpha, old(prevLandmarks), landmarks)
      ensures prevLandmarks == if landmarks.None? then old(prevLandmarks) else r
    {
      if landmarks.None? {
        return None;
      }
      if prevLandmarks.None? {
        prevLandmarks := landmarks;
        return landmarks;
      }
      var prev := prevLandmarks.value;
      var cur := landmarks.value;
      var smoothed := seq(|cur|, i requires 0 <= i < |cur| => LerpPoint(alpha, prev[i], cur[i]));
      prevLandmarks := Some(smoothed);
      return Some(smoothed);
    }
  }

  // ------------------------------------------------------------ properties

  /** The output always has as many points as the input. */
  lemma SmoothKeepsLength(alpha: real, stored: Option<seq<Point>>, landmarks: seq<Point>)
    ensures |SmoothStep(alpha, stored, landmarks)| == |landmarks|
  {
  }

  /** Without a stored array of the same length the input comes back unchanged. */
  lemma SmoothBootstraps(alpha: real, stored: Option<seq<Point>>, landmarks: seq<Point>)
    requires stored.None? || |stored.value| != |landmarks|
    ensures SmoothStep(alpha, stored, landmarks) == landmarks
  {
  }

  /** The interpolation of the lab is the same average, written differently. */
  lemma LerpIsEma(start: real, end: real, amt: real)
    ensures Lerp(start, end, amt) == Ema(amt, start, end)
  {
  }

  /**
   * For a stored array of the input's length the two smoothers agree; the lab
   * one also passes a missing input through and returns the first input as is.
   */
  lemma LabAgreesWithTs(alpha: real, prev: Option<seq<Point>>, landmarks: Option<seq<Point>>)
    requires landmarks.Some? && prev.Some? ==> |landmarks.value| <= |prev.value|
    ensures landmarks.None? ==> LabSmoothStep(alpha, prev, landmarks).None?
    ensures landmarks.Some? && prev.None? ==>
              LabSmoothStep(alpha, prev, landmarks) == landmarks
              && SmoothStep(alpha, prev, landmarks.value) == landmarks.value
    ensures landmarks.Some? && prev.Some? ==>
              LabSmoothStep(alpha, prev, landmarks).Some?
              && |LabSmoothStep(alpha, prev, landmarks).value| == |landmarks.value|
    ensures landmarks.Some? && prev.Some? && |prev.value| == |landmarks.value| ==>
              LabSmoothStep(alpha, prev, landmarks) == Some(SmoothStep(alpha, prev, landmarks.value))
  {
    if landmarks.Some? && prev.Some? && |prev.value| == |landmarks.value| {
      var lab := LabSmoothStep(alpha, prev, landmarks).value;
      var ts := SmoothStep(alpha, prev, landmarks.value);
      forall i | 0 <= i < |lab|
        ensures lab[i] == ts[i]
      {
        var p := prev.value[i];
        var c := landmarks.value[i];
        LerpIsEma(p.x, c.x, alpha);
        LerpIsEma(p.y, c.y, alpha);
        LerpIsEma(p.z, c.z, alpha);
      }
      assert lab == ts;
    }
  }

  /** `min(prev, cur) <= Ema <= max(prev, cur)` for a factor in [0, 1]. */
  lemma EmaBetween(alpha: real, prev: real, cur: real)
    requires 0.0 <= alpha <= 1.0
    ensures prev <= cur ==> prev <= Ema(alpha, prev, cur) <= cur
    ensures cur <= prev ==> cur <= Ema(alpha, prev, cur) <= prev
  {
    var d := cur - prev;
    assert cur - Ema(alpha, prev, cur) == (1.0 - alpha) * d;
    if d >= 0.0 {
      MulNonneg(alpha, d);
      MulNonneg(1.0 - alpha, d);
    } else {
      MulNonneg(alpha, -d);
      MulNonneg(1.0 - alpha, -d);
    }
  }

  lemma MulNonneg(a: real, b: real)
    requires a >= 0.0 && b >= 0.0
    ensures a * b >= 0.0
  {
  }

  /** Each coordinate of a smoothed point lies between the stored and the new one. */
  predicate Between(lo: real, v: real, hi: real)
  {
    (lo <= v <= hi) || (hi <= v <= lo)
  }

  lemma SmoothIsConvex(alpha: real, prev: seq<Point>, cur: seq<Point>)
    requires 0.0 <= alpha <= 1.0 && |prev| == |cur|
    ensures var r := SmoothStep(alpha, Some(prev), cur);
      forall i :: 0 <= i < |r| ==>
        Between(prev[i].x, r[i].x, cur[i].x) && Between(prev[i].y, r[i].y, cur[i].y)
        && Between(prev[i].z, r[i].z, cur[i].z)
  {
    var r := SmoothStep(alpha, Some(prev), cur);
    forall i | 0 <= i < |r|
      ensures Between(prev[i].x, r[i].x, cur[i].x) && Between(prev[i].y, r[i].y, cur[i].y)
      ensures Between(prev[i].z, r[i].z, cur[i].z)
    {
      assert r[i] == EmaPoint(alpha, prev[i], cur[i]);
      EmaBetween(alpha, prev[i].x, cur[i].x);
      EmaBetween(alpha, prev[i].y, cur[i].y);
      EmaBetween(alpha, prev[i].z, cur[i].z);
    }
  }

  /** Feeding the stored array back returns it unchanged. */
  lemma SmoothFixedPoint(alpha: real, prev: seq<Point>)
    ensures SmoothStep(alpha, Some(prev), prev) == prev
  {
    var r := SmoothStep(alpha, Some(prev), prev);
    assert |r| == |prev|;
    forall i | 0 <= i < |prev|
      ensures r[i] == prev[i]
    {
    }
  }

  /** The gap to the input shrinks by the factor `1 - alpha`, coordinate by coordinate. */
  lemma SmoothContracts(alpha: real, prev: seq<Point>, cur: seq<Point>)
    requires |prev| == |cur|
    ensures var r := SmoothStep(alpha, Some(prev), cur);
      forall i :: 0 <= i < |r| ==> Scaled(r[i], cur[i], prev[i], 1.0 - alpha)
  {
  }

  function Pow(b: real, n: nat): real
  {
    if n == 0 then 1.0 else b * Pow(b, n - 1)
  }

  /** The stored array after `n` further calls with the same input. */
  function Repeat(alpha: real, prev: seq<Point>, cur: seq<Point>, n: nat): (r: seq<Point>)
    requires |prev| == |cur|
    ensures |r| == |cur|
  {
    if n == 0 then prev else SmoothStep(alpha, Some(Repeat(alpha, prev, cur, n - 1)), cur)
  }

  /**
   * Under a constant input the gap after `n` calls is `(1 - alpha)^n` times
   * the first gap: the output converges geometrically for `alpha` in (0, 1].
   */
  lemma SmoothConverges(alpha: real, prev: seq<Point>, cur: seq<Point>, n: nat)
    requires |prev| == |cur|
    ensures var r := Repeat(alpha, prev, cur, n);
      forall i :: 0 <= i < |r| ==> Scaled(r[i], cur[i], prev[i], Pow(1.0 - alpha, n))
  {
    var r := Repeat(alpha, prev, cur, n);
    forall i | 0 <= i < |r|
      ensures Scaled(r[i], cur[i], prev[i], Pow(1.0 - alpha, n))
    {
      PointConverges(alpha, prev, cur, n, i);
    }
  }

  /** `SmoothConverges` for point `i`. */
  lemma PointConverges(alpha: real, prev: seq<Point>, cur: seq<Point>, n: nat, i: nat)
    requires |prev| == |cur| && i < |cur|
    ensures Scaled(Repeat(alpha, prev, cur, n)[i], cur[i], prev[i], Pow(1.0 - alpha, n))
  {
    RepeatPointwise(alpha, prev, cur, n, i);
    RepeatedPointConverges(alpha, prev[i], cur[i], n);
  }

  /** `EmaConverges` on each coordinate of one point. */
  lemma RepeatedPointConverges(alpha: real, g: Point, c: Point, n: nat)
    ensures Scaled(Point(RepeatEma(alpha, g.x, c.x, n), RepeatEma(alpha, g.y, c.y, n), RepeatEma(alpha, g.z, c.z, n)),
                   c, g, Pow(1.0 - alpha, n))
  {
    EmaConverges(alpha, g.x, c.x, n);
    EmaConverges(alpha, g.y, c.y, n);
    EmaConverges(alpha, g.z, c.z, n);
  }

  /** Every coordinate of `p - c` is `f` times that of `g - c`. */
  predicate Scaled(p: Point, c: Point, g: Point, f: real)
  {
    && p.x - c.x == f * (g.x - c.x)
    && p.y - c.y == f * (g.y - c.y)
    && p.z - c.z == f * (g.z - c.z)
  }

  /** One coordinate after `n` updates towards the same `c`. */
  function RepeatEma(alpha: real, p: real, c: real, n: nat): real
  {
    if n == 0 then p else Ema(alpha, RepeatEma(alpha, p, c, n - 1), c)
  }

  lemma {:induction false} EmaConverges(alpha: real, p: real, c: real, n: nat)
    ensures RepeatEma(alpha, p, c, n) - c == Pow(1.0 - alpha, n) * (p - c)
  {
    if n > 0 {
      var q := RepeatEma(alpha, p, c, n - 1);
      var k := Pow(1.0 - alpha, n - 1);
      EmaConverges(alpha, p, c, n - 1);
      GapStep(alpha, k, q, c, p);
      assert RepeatEma(alpha, p, c, n) == Ema(alpha, q, c);
      assert Pow(1.0 - alpha, n) == (1.0 - alpha) * k;
    }
  }

  /** Point `i` of the repeated arrays only follows point `i` of the inputs. */
  lemma {:induction false} RepeatPointwise(alpha: real, prev: seq<Point>, cur: seq<Point>, n: nat, i: nat)
    requires |prev| == |cur| && i < |cur|
    ensures Repeat(alpha, prev, cur, n)[i]
         == Point(RepeatEma(alpha, prev[i].x, cur[i].x, n), RepeatEma(alpha, prev[i].y, cur[i].y, n),
                  RepeatEma(alpha, prev[i].z, cur[i].z, n))
  {
    if n > 0 {
      RepeatPointwise(alpha, prev, cur, n - 1, i);
      var q := Repeat(alpha, prev, cur, n - 1);
      assert Repeat(alpha, prev, cur, n) == EmaAll(alpha, q, cur);
    }
  }

  /** One more call multiplies a gap of `k * g` by `1 - alpha`. */
  lemma GapStep(alpha: real, k: real, q: real, c: real, p: real)
    requires q - c == k * (p - c)
    ensures Ema(alpha, q, c) - c == ((1.0 - alpha) * k) * (p - c)
  {
    assert Ema(alpha, q, c) - c == (1.0 - alpha) * (q - c);
  }

  /** For `alpha` in [0, 1] the factor `(1 - alpha)^n` is in [0, 1]: the gap never grows. */
  lemma {:induction false} PowInUnit(b: real, n: nat)
    requires 0.0 <= b <= 1.0
    ensures 0.0 <= Pow(b, n) <= 1.0
  {
    if n > 0 {
      PowInUnit(b, n - 1);
      var p := Pow(b, n - 1);
      MulNonneg(b, p);
      MulNonneg(1.0 - b, p);
    }
  }
}
