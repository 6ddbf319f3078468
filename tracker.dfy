/**
 * The tracking session: the history buffer, the region limits, the running
 * frame counter and the stream of per-frame annotation rows, advanced one
 * frame at a time (predict.py:67-136).
 */
module Tracker {
  import opened Wrappers
  import opened RegionGate
  import opened BoundedQueue
  import opened TargetSelector
  import opened Trail

  /** Capacity of the centroid history. */
  const HistorySize: nat := 10

  /**
   * One annotation row: the frame index and the accepted centroid, absent when
   * nothing was accepted (the source writes empty fields then).
   */
  datatype Record = Record(frameIdx: nat, centroid: Option<Point>) {
    /** The `visible` column: 1 exactly when a centroid was accepted, otherwise 0. */
    function Visible(): (v: int)
      ensures v == 1 <==> centroid.Some?
      ensures v == 0 <==> centroid.None?
    {
      if centroid.Some? then 1 else 0
    }
  }

  /** The rows emitted for `frames`, the first of them numbered `start`. */
  function Records(start: nat, frames: seq<seq<Box>>, left: int, right: int): (recs: seq<Record>)
    ensures |recs| == |frames|
    decreases |frames|
  {
    if frames == [] then []
    else
      var n := |frames| - 1;
      Records(start, frames[..n], left, right) + [Record(start + n, FirstPassing(frames[n], left, right))]
  }

  /** Row `k` is numbered `start + k` and carries the selection of frame `k`. */
  lemma {:induction false} RecordsAt(start: nat, frames: seq<seq<Box>>, left: int, right: int, k: nat)
    requires k < |frames|
    ensures Records(start, frames, left, right)[k] == Record(start + k, FirstPassing(frames[k], left, right))
    decreases |frames|
  {
    var n := |frames| - 1;
    if k < n {
      RecordsAt(start, frames[..n], left, right, k);
    }
  }

  /** The centroids accepted over `frames`, in frame order. */
  function Accepted(frames: seq<seq<Box>>, left: int, right: int): (pts: seq<Point>)
    ensures |pts| <= |frames|
    decreases |frames|
  {
    if frames == [] then []
    else
      var n := |frames| - 1;
      Accepted(frames[..n], left, right) + Found(FirstPassing(frames[n], left, right))
  }

  /** A selection as a list of zero or one centroid. */
  function Found(o: Option<Point>): seq<Point> {
    match o
    case Some(p) => [p]
    case None => []
  }

  /** The rows for one more frame extend the rows for the frames before it. */
  lemma RecordsPrefix(start: nat, frames: seq<seq<Box>>, i: nat, left: int, right: int)
    requires i < |frames|
    ensures Records(start, frames[..i + 1], left, right)
         == Records(start, frames[..i], left, right) + [Record(start + i, FirstPassing(frames[i], left, right))]
  {
    assert frames[..i + 1][..i] == frames[..i];
  }

  /** The centroids accepted over one more frame extend those accepted before it. */
  lemma AcceptedPrefix(frames: seq<seq<Box>>, i: nat, left: int, right: int)
    requires i < |frames|
    ensures Accepted(frames[..i + 1], left, right)
         == Accepted(frames[..i], left, right) + Found(FirstPassing(frames[i], left, right))
  {
    assert frames[..i + 1][..i] == frames[..i];
  }

  /** The centroids of the visible rows, in row order. */
  function VisibleCentroids(recs: seq<Record>): (pts: seq<Point>)
    ensures |pts| <= |recs|
    decreases |recs|
  {
    if recs == [] then []
    else
      VisibleCentroids(recs[..|recs| - 1]) + Found(recs[|recs| - 1].centroid)
  }

  /**
   * The centroids pushed into the history are exactly the centroids written to
   * the visible rows, in frame order.
   */
  lemma {:induction false} AcceptedAreVisibleCentroids(start: nat, frames: seq<seq<Box>>, left: int, right: int)
    ensures Accepted(frames, left, right) == VisibleCentroids(Records(start, frames, left, right))
    decreases |frames|
  {
    if frames != [] {
      var n := |frames| - 1;
      AcceptedAreVisibleCentroids(start, frames[..n], left, right);
      var recs := Records(start, frames, left, right);
      assert recs[..n] == Records(start, frames[..n], left, right);
    }
  }

  /** Appending a row to the rows written so far. */
  lemma AppendRow(rows0: seq<Record>, recs: seq<Record>, rec: Record)
    ensures (rows0 + recs) + [rec] == rows0 + (recs + [rec])
  {
  }

  /** One more frame of a run: its row extends the rows, its selection extends the history. */
  lemma RunStep(start: nat, frames: seq<seq<Box>>, i: nat, left: int, right: int,
                recs: seq<Record>, rec: Record, h0: seq<Point>, cap: nat,
                itemsBefore: seq<Point>, itemsAfter: seq<Point>)
    requires i < |frames| && |h0| <= cap
    requires recs == Records(start, frames[..i], left, right)
    requires rec == Record(start + i, FirstPassing(frames[i], left, right))
    requires itemsBefore == PushAll(h0, Accepted(frames[..i], left, right), cap)
    requires rec.centroid.None? ==> itemsAfter == itemsBefore
    requires rec.centroid.Some? ==> itemsAfter == Push(itemsBefore, rec.centroid.value, cap)
    ensures recs + [rec] == Records(start, frames[..i + 1], left, right)
    ensures itemsAfter == PushAll(h0, Accepted(frames[..i + 1], left, right), cap)
  {
    RecordsPrefix(start, frames, i, left, right);
    AcceptedPrefix(frames, i, left, right);
    var before := Accepted(frames[..i], left, right);
    if rec.centroid.Some? {
      PushAllSnoc(h0, before, rec.centroid.value, cap);
    } else {
      assert before + Found(rec.centroid) == before;
    }
  }

  /** The state of one run of the tracker over a video. */
  class Session {
    const left: int
    const right: int
    const history: FixedSizeQueue<Point>
    var frameIdx: nat
    /** The annotation rows written so far, in frame order. */
    var rows: seq<Record>

    /** One row per processed frame, numbered from 0 without gaps. */
    ghost predicate Valid()
      reads this, history
    {
      history.Valid() && left <= right &&
      |rows| == frameIdx &&
      forall k :: 0 <= k < |rows| ==> rows[k].frameIdx == k
    }

    /** A session for frames `width` pixels wide. */
    constructor (width: nat)
      ensures Valid() && fresh(history)
      ensures left == LeftLimit(width) && right == RightLimit(width)
      ensures history.maxSize == HistorySize && history.items == []
      ensures frameIdx == 0 && rows == []
    {
      left := LeftLimit(width);
      right := RightLimit(width);
      history := new FixedSizeQueue(HistorySize);
      frameIdx := 0;
      rows := [];
    }

    /**
     * Processes one frame's detections: accepts the first box whose centroid
     * passes the gate, pushes that centroid into the history, emits exactly one
     * row, advances the counter, and returns the row and the trail drawn.
     */
    method Step(boxes: seq<Box>) returns (rec: Record, trail: seq<Segment>)
      requires Valid()
      modifies this, history
      ensures Valid()
      ensures rec == Record(old(frameIdx), FirstPassing(boxes, left, right))
      ensures rec.centroid.None? ==> history.items == old(history.items)
      ensures rec.centroid.Some? ==> history.items == Push(old(history.items), rec.centroid.value, history.maxSize)
      ensures rows == old(rows) + [rec] && frameIdx == old(frameIdx) + 1
      ensures trail == Segments(history.items)
    {
      var centroid: Option<Point> := None;
      for i := 0 to |boxes|
        invariant FirstPassing(boxes[i..], left, right) == FirstPassing(boxes, left, right)
        invariant centroid == None
        invariant history.Valid() && history.items == old(history.items)
      {
        var c := Centroid(boxes[i]);
        if c.0 < left || c.0 > right {
          assert boxes[i..][1..] == boxes[i + 1..];
          continue;
        }
        centroid := Some(c);
        history.Add(c);
        break;
      }
      var pts := history.GetQueue();
      trail := Segments(pts);
      rec := Record(frameIdx, centroid);
      rows := rows + [rec];
      frameIdx := frameIdx + 1;
    }

    /**
     * Processes the frames in order until the stream ends; the returned rows
     * are also appended to `rows`.
     */
    method Run(frames: seq<seq<Box>>) returns (recs: seq<Record>)
      requires Valid()
      modifies this, history
      ensures Valid()
      ensures recs == Records(old(frameIdx), frames, left, right)
      ensures rows == old(rows) + recs && frameIdx == old(frameIdx) + |frames|
      ensures history.items == Newest(old(history.items) + Accepted(frames, left, right), history.maxSize)
    {
      ghost var start, rows0, h0 := frameIdx, rows, history.items;
      recs := [];
      for i := 0 to |frames|
        invariant Valid()
        invariant recs == Records(start, frames[..i], left, right)
        invariant rows == rows0 + recs && frameIdx == start + i
        invariant history.items == PushAll(h0, Accepted(frames[..i], left, right), history.maxSize)
      {
        ghost var itemsBefore := history.items;
        var rec, _ := Step(frames[i]);
        RunStep(start, frames, i, left, right, recs, rec, h0, history.maxSize, itemsBefore, history.items);
        AppendRow(rows0, recs, rec);
        recs := recs + [rec];
      }
      assert frames[..|frames|] == frames;
      PushAllKeepsNewest(old(history.items), Accepted(frames, left, right), history.maxSize);
    }
  }
}
