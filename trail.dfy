/**
 * The trail drawn behind the ball: one segment between each pair of
 * consecutive points of the history snapshot (predict.py:114-117).
 */
module Trail {
  import opened RegionGate

  type Segment = (Point, Point)

  /** Segments `(pts[i-1], pts[i])` for `1 <= i < |pts|`, in order; none for fewer than two points. */
  function Segments(pts: seq<Point>): (segs: seq<Segment>)
    ensures |segs| == if |pts| < 2 then 0 else |pts| - 1
    ensures forall i :: 1 <= i < |pts| ==> segs[i - 1] == (pts[i - 1], pts[i])
  {
    if |pts| < 2 then [] else [(pts[0], pts[1])] + Segments(pts[1..])
  }

  /** The segments form one connected polyline: each starts where the previous one ends. */
  lemma SegmentsConnected(pts: seq<Point>, i: nat)
    requires 1 <= i < |Segments(pts)|
    ensures Segments(pts)[i].0 == Segments(pts)[i - 1].1
  {
    assert Segments(pts)[i] == (pts[i], pts[i + 1]);
  }
}
