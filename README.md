# Cricket ball tracking: the per-frame tracking core

This project models the tracking loop of `predict.py`. The loop takes the ball detections of each video frame and does four things:

- it keeps a bounded history of recent ball centroids, used to draw a trail;
- it discards detections whose centroid lies outside the central band of the frame (20% to 80% of the width);
- it accepts at most one detection per frame, the first one in detector order that passes the band test;
- it writes exactly one annotation row per frame: `frame_idx`, centroid x, centroid y and `visible`.

Modules:

- `Wrappers` holds `Option`.
- `BoundedQueue` holds `FixedSizeQueue`, a class whose `items` field plays the role of the `deque(maxlen=...)`. It also holds the pure functions `Push`, `PushAll` and `Newest` that specify it.
- `RegionGate` holds boxes, floor-midpoint centroids, the band limits and the gate.
- `TargetSelector` holds the first-passing-wins policy, `FirstPassing`, with lemmas that characterise it.
- `Trail` holds the consecutive-pair segments of the history.
- `Tracker` holds the annotation `Record` and the `Session` class. The class has the history, the limits, the frame counter and the emitted rows. `Step` processes one frame with the source's scan loop (`continue` on rejection, `break` after the first acceptance). `Run` processes a finite stream of frames.
- `Scenarios` holds concrete walk-throughs for a 1000-pixel-wide frame.

The detector is a parameter: each frame is a `seq<Box>` of integer boxes, in the order the detector returned them. A frame where the detector returned no box list at all is modelled as the empty list, because the source treats it exactly like an empty one.

## Model

| member | source | states |
|---|---|---|
| `BoundedQueue.Push` | predict.py:17-21 | Appending to a deque of capacity `cap` keeps the newest `min(len+1, cap)` elements of old contents plus the item, so the oldest element is dropped exactly when the queue was full; capacity 0 keeps nothing |
| `BoundedQueue.PushAll` | predict.py:20-21 | Any sequence of appends leaves at most `cap` elements |
| `BoundedQueue.PushAllKeepsNewest` | predict.py:17-21 | After any sequence of appends the queue holds exactly the newest `cap` elements of old contents followed by the appended items, in insertion order |
| `BoundedQueue.LastAppendsAfterFullCycle` | predict.py:17-21 | After at least `cap` appends the queue holds exactly the last `cap` appended items, in order |
| `BoundedQueue.FixedSizeQueue.constructor` | predict.py:17-18 | A new queue is empty, with the given capacity |
| `BoundedQueue.FixedSizeQueue.Add` | predict.py:20-21 | The new contents are `Push` of the old contents and the item; the capacity bound is kept |
| `BoundedQueue.FixedSizeQueue.Pop` | predict.py:23-25 | On a non-empty queue, exactly the oldest element is removed and the rest stay in order; an empty queue is unchanged |
| `BoundedQueue.FixedSizeQueue.Clear` | predict.py:27-28 | The queue is empty afterwards |
| `BoundedQueue.FixedSizeQueue.GetQueue` | predict.py:30-31 | Returns the contents oldest first without changing the queue (no `modifies`) |
| `BoundedQueue.FixedSizeQueue.Len` | predict.py:33-34 | The length equals the number of stored items and never exceeds the capacity |
| `RegionGate.Centroid` | predict.py:96-98 | Each centroid coordinate is the floor of the midpoint: `2c <= a+b < 2c+2` |
| `RegionGate.LeftLimit` | predict.py:68 | The left limit is 20% of the width rounded down |
| `RegionGate.RightLimit` | predict.py:69 | The right limit is 80% of the width rounded down |
| `RegionGate.Admits` | predict.py:101-102 | The rejection test `cx < LEFT or cx > RIGHT` admits exactly `LEFT <= cx <= RIGHT` |
| `RegionGate.Passes` | predict.py:97-102 | A box passes the gate if and only if its centroid's x lies in `[left, right]` |
| `RegionGate.GateBoundaries` | predict.py:101-102 | Both limits are admitted; one pixel beyond either limit is rejected |
| `TargetSelector.FirstPassing` | predict.py:94-112 | Defines the selection as the centroid of the first box in list order that passes, or `None`. Its contract states that an empty list selects nothing and that a selected centroid always lies inside the band; the four lemmas below pin the selection down completely |
| `TargetSelector.FirstPassingIsFirst` | predict.py:94-112 | If box `i` passes and every earlier box fails, the selected target is box `i`'s centroid |
| `TargetSelector.FirstPassingNone` | predict.py:94-112 | Nothing is selected if and only if no box passes, including the empty list |
| `TargetSelector.FirstPassingWitness` | predict.py:94-112 | A selected target is the centroid of a passing box that has only failing boxes before it |
| `TargetSelector.LaterBoxesIgnored` | predict.py:104-112 | Once a prefix of the list yields a target, appending more boxes (passing or not) does not change the selection |
| `Trail.Segments` | predict.py:115-117 | The segments are the pairs `(pts[i-1], pts[i])` for `1 <= i < len(pts)`, in order, which is `len-1` of them and none for fewer than two points |
| `Trail.SegmentsConnected` | predict.py:115-117 | Each segment starts where the previous one ends |
| `Tracker.Record.Visible` | predict.py:86-106 | `visible` is 1 exactly when a centroid was accepted and 0 exactly when the centroid fields are empty |
| `Tracker.Records` | predict.py:128 | Exactly one row per frame |
| `Tracker.RecordsAt` | predict.py:74-134 | Row `k` of a stream is numbered `start + k` and carries frame `k`'s selection, so the numbering starts at the counter and goes up by one with no gaps |
| `Tracker.Accepted` | predict.py:104-108 | Never more accepted centroids than frames |
| `Tracker.AcceptedPrefix` | predict.py:104-108 | Each frame adds exactly its own selection to the accepted centroids: one centroid when a box passed, nothing otherwise |
| `Tracker.AcceptedAreVisibleCentroids` | predict.py:104-108 | The centroids pushed into the history are exactly the centroids written to the visible rows, in frame order |
| `Tracker.Session.constructor` | predict.py:67-74 | A session starts with limits derived from the width, an empty history of capacity 10, counter 0 and no rows |
| `Tracker.Session.Step` | predict.py:86-134 | One frame emits exactly one row numbered with the current counter. The row carries the first passing centroid, or is invisible when there is none. The history gains exactly that centroid through `Push`, or is unchanged. The counter advances by one. The trail is the segments of the updated history |
| `Tracker.Session.Run` | predict.py:77-136 | Processing a stream appends exactly `Records(counter, frames)` to the rows. The counter advances by the number of frames. The history ends as the newest 10 of its old contents followed by the accepted centroids |
| `Scenarios.BandForWidth1000` | predict.py:68-69 | For width 1000 the band is `[200, 800]`; 199 and 801 are rejected, 200 and 800 admitted |
| `Scenarios.TrailOfThreePoints` | predict.py:115-117 | Three points give two segments; zero or one point gives none |

`Session.Valid` is preserved by every session method. It says that the history respects its capacity, that `left <= right`, and that the rows are numbered `0, 1, 2, ...` with no gap, one per processed frame. Selection is deterministic because `FirstPassing` is a function of the ordered box list.

## Left out

- Detector loading and inference: the detector is foreign code. Each frame's detections are a parameter `seq<Box>` of integer boxes. The truncation of float coordinates to `int` is not modelled.
- Video capture and writing, drawing the boxes, centroid marker, trail and band lines, the HUD, display, and the `q` key: these are I/O and presentation. Stopping early is the same as a shorter frame stream given to `Run`. The trail is kept as the list of segments that would be drawn.
- CSV file handling: opening the file, the header row and serialising rows are I/O. A row is a `Record` appended to `Session.rows`. The empty-string sentinel is `None`.
- FPS timing: it uses the wall clock and floats, and only feeds the HUD.
- `angle_between_lines`: it is float trigonometry and the tracking loop never calls it.
- `RegionGate.LeftLimit` / `RegionGate.RightLimit`: the source computes `int(0.2 * W)` and `int(0.8 * W)` in floating point. The model uses the exact integer `W * 2 / 10` and `W * 8 / 10`. The doubles nearest 0.2 and 0.8 lie slightly above the exact values, so the two agree for every realistic width. The float rounding itself is not modelled.
- `BoundedQueue.FixedSizeQueue.GetQueue`: the source returns the live deque, not a copy. The model returns a value snapshot, so aliasing is not modelled. The only caller copies it with `list(...)` straight away.
- `BoundedQueue.FixedSizeQueue.constructor`: the capacity is a `nat`. A `None` capacity (unbounded) and a negative capacity (an error in the source) are not modelled. The session always uses 10.
- Malformed boxes (inverted corners) are not rejected. The centroid is computed as written, because the code does no such check. Rejecting inverted boxes would change the behaviour; the model follows the code.
