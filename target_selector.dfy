/**
 * The per-frame target selection policy: boxes are examined in the order the
 * detector produced them and the first one that passes the region gate wins;
 * every box after it is ignored (predict.py:94-112).
 */
module TargetSelector {
  import opened Wrappers
  import opened RegionGate

  /** The centroid of the first passing box, or `None` when no box passes. */
  function FirstPassing(boxes: seq<Box>, left: int, right: int): (r: Option<Point>)
    ensures boxes == [] ==> r == None
    ensures r.Some? ==> left <= r.value.0 <= right
    decreases |boxes|
  {
    if boxes == [] then None
    else if Passes(boxes[0], left, right) then Some(Centroid(boxes[0]))
    else FirstPassing(boxes[1..], left, right)
  }

  /** A passing box preceded only by failing boxes is the one selected. */
  lemma {:induction false} FirstPassingIsFirst(boxes: seq<Box>, left: int, right: int, i: nat)
    requires i < |boxes| && Passes(boxes[i], left, right)
    requires forall j :: 0 <= j < i ==> !Passes(boxes[j], left, right)
    ensures FirstPassing(boxes, left, right) == Some(Centroid(boxes[i]))
    decreases i
  {
    if i > 0 {
      FirstPassingIsFirst(boxes[1..], left, right, i - 1);
    }
  }

  /** Nothing is selected exactly when no box passes (in particular for no boxes). */
  lemma {:induction false} FirstPassingNone(boxes: seq<Box>, left: int, right: int)
    ensures FirstPassing(boxes, left, right) == None
        <==> forall j :: 0 <= j < |boxes| ==> !Passes(boxes[j], left, right)
    decreases |boxes|
  {
    if boxes != [] {
      FirstPassingNone(boxes[1..], left, right);
      assert forall j :: 1 <= j < |boxes| ==> boxes[j] == boxes[1..][j - 1];
    }
  }

  /**
   * A selected centroid belongs to a passing box that no earlier box beats.
   */
  lemma {:induction false} FirstPassingWitness(boxes: seq<Box>, left: int, right: int)
    requires FirstPassing(boxes, left, right).Some?
    ensures exists i :: 0 <= i < |boxes| && Passes(boxes[i], left, right)
                     && (forall j :: 0 <= j < i ==> !Passes(boxes[j], left, right))
                     && FirstPassing(boxes, left, right).value == Centroid(boxes[i])
    decreases |boxes|
  {
    if !Passes(boxes[0], left, right) {
      FirstPassingWitness(boxes[1..], left, right);
      var i :| 0 <= i < |boxes[1..]| && Passes(boxes[1..][i], left, right)
             && (forall j :: 0 <= j < i ==> !Passes(boxes[1..][j], left, right))
             && FirstPassing(boxes[1..], left, right).value == Centroid(boxes[1..][i]);
      assert Passes(boxes[i + 1], left, right);
      assert forall j :: 1 <= j < i + 1 ==> boxes[j] == boxes[1..][j - 1];
    } else {
      assert Passes(boxes[0], left, right);
    }
  }

  /** Once a prefix of the list yields a target, later boxes have no effect. */
  lemma {:induction false} LaterBoxesIgnored(pre: seq<Box>, rest: seq<Box>, left: int, right: int)
    requires FirstPassing(pre, left, right).Some?
    ensures FirstPassing(pre + rest, left, right) == FirstPassing(pre, left, right)
    decreases |pre|
  {
    assert (pre + rest)[0] == pre[0];
    if !Passes(pre[0], left, right) {
      assert (pre + rest)[1..] == pre[1..] + rest;
      LaterBoxesIgnored(pre[1..], rest, left, right);
    }
  }
}
