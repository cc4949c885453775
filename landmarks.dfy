/**
 * The 21-point hand skeleton produced by the upstream hand-pose model, one
 * normalised `(x, y, z)` per point in a fixed order.
 */
module Landmarks {

  datatype Point = Point(x: real, y: real, z: real)

  const Wrist := 0
  const ThumbTip := 4
  const IndexPip := 6
  const IndexTip := 8
  const MiddleMcp := 9
  const MiddlePip := 10
  const MiddleTip := 12
  const RingPip := 14
  const RingTip := 16
  const PinkyPip := 18
  const PinkyTip := 20

  /** Points a detected hand has. */
  const HandSize := 21

  /**
   * The square of `_distance` (Euclidean distance in the image plane,
   * ignoring `z`). Every comparison of a distance in the recognizer is made
   * on these squares.
   */
  function SqDist(p: Point, q: Point): (d: real)
    ensures d >= 0.0
  {
    (p.x - q.x) * (p.x - q.x) + (p.y - q.y) * (p.y - q.y)
  }

  /**
   * Comparing two distances through their squares agrees with comparing the
   * distances: for roots `ra`, `rb` of `a`, `b` and a non-negative factor `k`,
   * `ra > k * rb` exactly when `a > k * k * b`, and `ra < k * rb` exactly when
   * `a < k * k * b`.
   */
  lemma DistanceComparison(a: real, b: real, ra: real, rb: real, k: real)
    requires ra >= 0.0 && ra * ra == a
    requires rb >= 0.0 && rb * rb == b
    requires k >= 0.0
    ensures ra > k * rb <==> a > k * k * b
    ensures ra < k * rb <==> a < k * k * b
  {
    var s := k * rb;
    assert s >= 0.0;
    assert s * s == k * k * b;
    SquareMonotone(ra, s);
    SquareMonotone(s, ra);
  }

  lemma SquareMonotone(u: real, v: real)
    requires u >= 0.0 && v >= 0.0
    ensures u < v <==> u * u < v * v
  {
    if u < v {
      calc {
        u * u;
      <=
        u * v;
      <
        v * v;
      }
    } else {
      assert v * v <= v * u;
      assert v * u <= u * u;
      assert v * v <= u * u;
    }
  }

  /** Comparing a distance with a non-negative threshold through squares. */
  lemma ThresholdComparison(a: real, ra: real, k: real)
    requires ra >= 0.0 && ra * ra == a && k >= 0.0
    ensures ra > k <==> a > k * k
    ensures ra < k <==> a < k * k
  {
    DistanceComparison(a, 1.0, ra, 1.0, k);
  }
}
