/** Worked examples of the tracker on concrete detections, for a 1000-pixel-wide frame. */
module Scenarios {
  import opened Wrappers
  import opened RegionGate
  import opened BoundedQueue
  import opened TargetSelector
  import opened Trail
  import opened Tracker

  /** For width 1000 the band is [200, 800], closed at both ends. */
  lemma BandForWidth1000()
    ensures LeftLimit(1000) == 200 && RightLimit(1000) == 800
    ensures !Admits(200, 800, 199) && Admits(200, 800, 200)
    ensures Admits(200, 800, 800) && !Admits(200, 800, 801)
  {
  }

  lemma TrailOfThreePoints()
    ensures Segments([(1, 1), (2, 2), (3, 3)]) == [((1, 1), (2, 2)), ((2, 2), (3, 3))]
    ensures Segments([(1, 1)]) == [] && Segments([]) == []
  {
  }

  /** Of the boxes, the first one fails the gate (x = 20); the second is the first to pass. */
  method FirstPassingBoxWins() {
    var s := new Session(1000);
    var frame := [Box(10, 10, 30, 30), Box(210, 50, 230, 70), Box(400, 0, 420, 20)];
    assert Centroid(frame[0]) == (20, 20) && !Passes(frame[0], 200, 800);
    assert Centroid(frame[1]) == (220, 60) && Passes(frame[1], 200, 800);
    FirstPassingIsFirst(frame, 200, 800, 1);
    var rec, trail := s.Step(frame);
    assert rec == Record(0, Some((220, 60))) && rec.Visible() == 1;
    assert s.history.items == [(220, 60)] && trail == [];
  }

  /** An out-of-band box only: an invisible row, and the history is unchanged. */
  method OutOfBandFrameIsInvisible() {
    var s := new Session(1000);
    var frame := [Box(10, 50, 30, 70)];
    assert Centroid(frame[0]) == (20, 60) && !Passes(frame[0], 200, 800);
    FirstPassingNone(frame, 200, 800);
    var rec, trail := s.Step(frame);
    assert rec == Record(0, None) && rec.Visible() == 0;
    assert s.history.items == [] && trail == [];
  }

  /** Consecutive frames get consecutive indices, and two acceptances draw one segment. */
  method TwoFramesOneSegment() {
    var s := new Session(1000);
    var frame0 := [Box(210, 50, 230, 70)];
    assert Centroid(frame0[0]) == (220, 60) && Passes(frame0[0], 200, 800);
    FirstPassingIsFirst(frame0, 200, 800, 0);
    var rec, trail := s.Step(frame0);
    assert rec == Record(0, Some((220, 60)));
    assert s.history.items == [(220, 60)];
    var frame1 := [Box(300, 100, 310, 110)];
    assert Centroid(frame1[0]) == (305, 105) && Passes(frame1[0], 200, 800);
    FirstPassingIsFirst(frame1, 200, 800, 0);
    rec, trail := s.Step(frame1);
    assert rec == Record(1, Some((305, 105)));
    assert s.history.items == Push([(220, 60)], (305, 105), 10) == [(220, 60), (305, 105)];
    assert trail == Segments([(220, 60), (305, 105)]) == [((220, 60), (305, 105))];
  }
}
