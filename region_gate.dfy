/**
 * Detection boxes, their centroids, and the horizontal band of the frame in
 * which a centroid is admitted (predict.py:67-69, predict.py:96-102).
 */
module RegionGate {

  /** A pixel position (x, y). */
  type Point = (int, int)

  /** An axis-aligned detection box with corners (x1, y1) and (x2, y2). */
  datatype Box = Box(x1: int, y1: int, x2: int, y2: int)

  /**
   * The centroid of a box, each coordinate the floor of the midpoint.
   * Dafny's `/` by 2 is floor division also for negative sums.
   */
  function Centroid(b: Box): (c: Point)
    ensures 2 * c.0 <= b.x1 + b.x2 < 2 * c.0 + 2
    ensures 2 * c.1 <= b.y1 + b.y2 < 2 * c.1 + 2
  {
    ((b.x1 + b.x2) / 2, (b.y1 + b.y2) / 2)
  }

  /** The left edge of the band: 20% of the frame width, rounded down. */
  function LeftLimit(width: nat): (l: int)
    ensures 0 <= 10 * l <= 2 * width < 10 * l + 10
  {
    width * 2 / 10
  }

  /** The right edge of the band: 80% of the frame width, rounded down. */
  function RightLimit(width: nat): (r: int)
    ensures 0 <= 10 * r <= 8 * width < 10 * r + 10
  {
    width * 8 / 10
  }

  /**
   * The gate: a centroid abscissa is rejected when it lies left of `left` or
   * right of `right`, so the band is closed at both ends.
   */
  predicate Admits(left: int, right: int, cx: int)
    ensures Admits(left, right, cx) <==> left <= cx <= right
  {
    !(cx < left || cx > right)
  }

  /** The limits themselves pass; one pixel beyond either does not. */
  lemma GateBoundaries(left: int, right: int)
    requires left <= right
    ensures Admits(left, right, left) && Admits(left, right, right)
    ensures !Admits(left, right, left - 1) && !Admits(left, right, right + 1)
  {
  }

  /** A box passes when its centroid's abscissa is admitted by the gate. */
  predicate Passes(b: Box, left: int, right: int)
    ensures Passes(b, left, right) <==> left <= Centroid(b).0 <= right
  {
    Admits(left, right, Centroid(b).0)
  }
}
