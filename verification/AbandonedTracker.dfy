/** The tracker of left objects: the contours of one camera's frames, followed from call to call by nearest centre. */
module AbandonedTracker {
  import opened Sorting
  import opened Wrappers

  const MIN_CONTOUR_AREA := 1500
  const CENTROID_MATCH_DIST := 40
  const UNSEEN := 5.0

  /** A contour's area and bounding rectangle. */
  datatype Contour = Contour(area: real, x: int, y: int, w: nat, h: nat)

  datatype Box = Box(cx: int, cy: int, x1: int, y1: int, x2: int, y2: int)

  /** One call: when, and the boxes of the contours large enough. */
  datatype Call = Call(now: real, boxes: seq<Box>)

  /** A box in the history of calls. */
  datatype Sighting = Sighting(call: nat, box: nat)

  /** `seen` lists the boxes matched to the track; the program keeps only the last of them. */
  datatype Track = Track(id: nat, box: Box, first: real, last: real, seen: seq<Sighting>)

  /** `track` names the track a detection is reported for; the program's answer leaves it out. */
  datatype Detection = Detection(track: nat, dwell: real, box: Box)

  function BoxesOf(contours: seq<Contour>): seq<Box> {
    if contours == [] then []
    else
      var before, c := BoxesOf(contours[..|contours| - 1]), contours[|contours| - 1];
      if c.area < MIN_CONTOUR_AREA as real then before
      else before + [Box(c.x + c.w / 2, c.y + c.h / 2, c.x, c.y, c.x + c.w, c.y + c.h)]
  }

  /** The box bounds the contour, and its centre is rounded down. */
  ghost predicate Bounds(b: Box, c: Contour) {
    && b.x1 == c.x && b.y1 == c.y && b.x2 - b.x1 == c.w && b.y2 - b.y1 == c.h
    && 2 * (b.cx - b.x1) <= c.w <= 2 * (b.cx - b.x1) + 1 && 2 * (b.cy - b.y1) <= c.h <= 2 * (b.cy - b.y1) + 1
  }

  /** Box j bounds contour at[j]. */
  ghost predicate BoundsAll(boxes: seq<Box>, contours: seq<Contour>, at: seq<nat>) {
    |boxes| == |at| && forall j :: 0 <= j < |at| ==> at[j] < |contours| && Bounds(boxes[j], contours[at[j]])
  }

  /** The contours of at least the least area. */
  ghost function Large(contours: seq<Contour>, k: nat): seq<nat>
    requires k <= |contours|
  {
    if k == 0 then []
    else if contours[k - 1].area >= MIN_CONTOUR_AREA as real then Large(contours, k - 1) + [k - 1]
    else Large(contours, k - 1)
  }

  lemma {:induction false} LargeAre(contours: seq<Contour>, k: nat)
    requires k <= |contours|
    ensures forall i :: i in Large(contours, k) <==> 0 <= i < k && contours[i].area >= MIN_CONTOUR_AREA as real
  {
    if k > 0 { LargeAre(contours, k - 1); }
  }

  lemma {:induction false} LargeInOrder(contours: seq<Contour>, k: nat)
    requires k <= |contours|
    ensures Increasing(Large(contours, k))
  {
    if k > 0 {
      LargeInOrder(contours, k - 1);
      LargeAre(contours, k - 1);
      var before := Large(contours, k - 1);
      forall i | 0 <= i < |before| ensures before[i] < k - 1 { assert before[i] in before; }
    }
  }

  lemma OneMoreBounds(boxes: seq<Box>, contours: seq<Contour>, at: seq<nat>, b: Box, i: nat)
    requires BoundsAll(boxes, contours, at) && i < |contours| && Bounds(b, contours[i])
    ensures BoundsAll(boxes + [b], contours, at + [i])
  {
  }

  lemma {:induction false} BoxesBound(contours: seq<Contour>, k: nat)
    requires k <= |contours|
    ensures BoundsAll(BoxesOf(contours[..k]), contours, Large(contours, k))
  {
    if k > 0 {
      BoxesBound(contours, k - 1);
      assert contours[..k][..k - 1] == contours[..k - 1];
      var c, before := contours[k - 1], BoxesOf(contours[..k - 1]);
      if c.area >= MIN_CONTOUR_AREA as real {
        var b := Box(c.x + c.w / 2, c.y + c.h / 2, c.x, c.y, c.x + c.w, c.y + c.h);
        OneMoreBounds(before, contours, Large(contours, k - 1), b, k - 1);
      }
    }
  }

  /** A call has one box for each contour large enough, and in their order. */
  lemma BoxesAreTheLarge(contours: seq<Contour>)
    ensures BoundsAll(BoxesOf(contours), contours, Large(contours, |contours|))
    ensures Increasing(Large(contours, |contours|))
    ensures forall i :: i in Large(contours, |contours|)
              <==> 0 <= i < |contours| && contours[i].area >= 1500.0
  {
    assert contours[..|contours|] == contours;
    BoxesBound(contours, |contours|);
    LargeAre(contours, |contours|);
    LargeInOrder(contours, |contours|);
  }

  /** The distance between two centres, squared. */
  function Distance2(a: Box, b: Box): int {
    (a.cx - b.cx) * (a.cx - b.cx) + (a.cy - b.cy) * (a.cy - b.cy)
  }

  predicate Near(a: Box, b: Box) { Distance2(a, b) < CENTROID_MATCH_DIST * CENTROID_MATCH_DIST }

  // ---------------------------------------------------------------- what backs a track

  ghost predicate InHistory(calls: seq<Call>, s: Sighting) {
    s.call < |calls| && s.box < |calls[s.call].boxes|
  }

  ghost function BoxAt(calls: seq<Call>, s: Sighting): Box
    requires InHistory(calls, s)
  {
    calls[s.call].boxes[s.box]
  }

  /** Up to call n, no call came more than five seconds after sighting s. */
  ghost predicate Recent(calls: seq<Call>, s: Sighting, n: nat)
    requires s.call < |calls| && n <= |calls|
  {
    forall k :: s.call <= k < n ==> calls[k].now - calls[s.call].now <= UNSEEN
  }

  /** How far box b is from box a, squared: Pythagoras on the way from one centre to the other. */
  ghost function Way2(a: Box, b: Box): int {
    var dx, dy := b.cx - a.cx, b.cy - a.cy;
    dx * dx + dy * dy
  }

  /** The centres are less than the match distance apart. */
  ghost predicate IsWithin(a: Box, b: Box) { Way2(a, b) < 40 * 40 }

  lemma DistanceIsTheWay(a: Box, b: Box)
    ensures Distance2(a, b) == Way2(a, b)
  {
    SquareOfOpposite(a.cx - b.cx);
    SquareOfOpposite(a.cy - b.cy);
  }

  lemma SquareOfOpposite(x: int)
    ensures x * x == -x * -x
  {
  }

  /** Sighting b comes after a, near it, and no call between them found a unseen for more than five seconds. */
  ghost predicate Follows(calls: seq<Call>, a: Sighting, b: Sighting) {
    && InHistory(calls, a) && InHistory(calls, b)
    && (a.call < b.call || (a.call == b.call && a.box < b.box))
    && IsWithin(BoxAt(calls, a), BoxAt(calls, b))
    && Recent(calls, a, b.call)
  }

  ghost predicate IsChain(calls: seq<Call>, seen: seq<Sighting>) {
    && seen != [] && InHistory(calls, seen[0])
    && forall i :: 0 < i < |seen| ==> Follows(calls, seen[i - 1], seen[i])
  }

  function LastOf(seen: seq<Sighting>): Sighting
    requires seen != []
  {
    seen[|seen| - 1]
  }

  /** The track was begun by the first sighting of its chain and stands where the last one was. */
  ghost predicate Backed(calls: seq<Call>, t: Track) {
    && IsChain(calls, t.seen) && InHistory(calls, LastOf(t.seen))
    && t.first == calls[t.seen[0].call].now
    && t.last == calls[LastOf(t.seen).call].now
    && t.box == BoxAt(calls, LastOf(t.seen))
  }

  /** Its last sighting comes before box j of the last call, and calls since then up to n found it recent. */
  ghost predicate Waits(calls: seq<Call>, t: Track, n: nat, j: nat) {
    && t.seen != [] && n < |calls| && LastOf(t.seen).call <= n
    && (LastOf(t.seen).call == n ==> LastOf(t.seen).box < j)
    && Recent(calls, LastOf(t.seen), n)
  }

  function Matched(t: Track, box: Box, now: real, s: Sighting): Track {
    t.(box := box, last := now, seen := t.seen + [s])
  }

  /** A track that takes box j of the call stays backed. */
  lemma MatchedIsBacked(calls: seq<Call>, t: Track, j: nat)
    requires calls != [] && Backed(calls, t) && Waits(calls, t, |calls| - 1, j) && j < |calls[|calls| - 1].boxes|
    requires IsWithin(t.box, calls[|calls| - 1].boxes[j])
    ensures var call, s := calls[|calls| - 1], Sighting(|calls| - 1, j);
            var t' := Matched(t, call.boxes[j], call.now, s);
            Backed(calls, t') && Waits(calls, t', |calls| - 1, j + 1)
  {
  }

  function Begun(id: nat, box: Box, now: real, s: Sighting): Track { Track(id, box, now, now, [s]) }

  lemma BegunIsBacked(calls: seq<Call>, id: nat, j: nat)
    requires calls != [] && j < |calls[|calls| - 1].boxes|
    ensures var call, s := calls[|calls| - 1], Sighting(|calls| - 1, j);
            var t := Begun(id, call.boxes[j], call.now, s);
            Backed(calls, t) && Waits(calls, t, |calls| - 1, j + 1)
  {
  }

  /** Between calls: the last call and every call since its last sighting found the track recent. */
  ghost predicate Kept(calls: seq<Call>, t: Track) {
    Backed(calls, t) && Recent(calls, LastOf(t.seen), |calls|)
  }

  lemma UnprunedIsKept(calls: seq<Call>, t: Track, j: nat)
    requires calls != [] && Backed(calls, t) && Waits(calls, t, |calls| - 1, j)
    requires calls[|calls| - 1].now - t.last <= UNSEEN
    ensures Kept(calls, t)
  {
  }

  // ---------------------------------------------------------------- the tracks of one camera

  /** Numbers are given out in order and never twice. */
  ghost predicate Numbered(tracks: seq<Track>, counter: nat) {
    && (forall i :: 0 <= i < |tracks| ==> 0 < tracks[i].id <= counter)
    && (forall i, j :: 0 <= i < j < |tracks| ==> tracks[i].id < tracks[j].id)
  }

  /** Seen in call n. */
  ghost predicate Active(t: Track, n: nat) { t.seen != [] && LastOf(t.seen).call == n }

  /** While the boxes of the last call are matched, and those before box j have been. */
  ghost predicate Tracks(calls: seq<Call>, tracks: seq<Track>, j: nat) {
    calls != [] && forall i :: 0 <= i < |tracks| ==>
      Backed(calls, tracks[i]) && Waits(calls, tracks[i], |calls| - 1, j)
  }

  /** `active` holds the numbers of the tracks seen in the last call. */
  ghost predicate AreActive(tracks: seq<Track>, n: nat, active: set<int>) {
    && (forall i :: 0 <= i < |tracks| && Active(tracks[i], n) ==> tracks[i].id in active)
    && (forall id :: id in active ==> HasActive(tracks, n, id))
  }

  ghost predicate HasActive(tracks: seq<Track>, n: nat, id: int) {
    exists i :: 0 <= i < |tracks| && tracks[i].id == id && Active(tracks[i], n)
  }

  /** Box b of call n was given to a track. */
  ghost predicate IsSeen(tracks: seq<Track>, n: nat, b: nat) {
    exists i :: 0 <= i < |tracks| && Sighting(n, b) in tracks[i].seen && Active(tracks[i], n)
  }

  ghost predicate AllSeen(tracks: seq<Track>, n: nat, j: nat) {
    forall b: nat {:trigger IsSeen(tracks, n, b)} :: b < j ==> IsSeen(tracks, n, b)
  }

  /** Track i takes box j of call n. */
  lemma MatchKeeps(calls: seq<Call>, n: nat, tracks: seq<Track>, counter: nat, active: set<int>, i: nat, j: nat,
                   t: Track)
    requires |calls| == n + 1 && Tracks(calls, tracks, j) && Numbered(tracks, counter) && AreActive(tracks, n, active)
    requires AllSeen(tracks, n, j) && i < |tracks| && j < |calls[n].boxes|
    requires IsWithin(tracks[i].box, calls[n].boxes[j])
    requires t == Matched(tracks[i], calls[n].boxes[j], calls[n].now, Sighting(n, j))
    ensures Tracks(calls, tracks[i := t], j + 1) && Numbered(tracks[i := t], counter)
    ensures AreActive(tracks[i := t], n, active + {t.id}) && AllSeen(tracks[i := t], n, j + 1)
  {
    MatchedIsBacked(calls, tracks[i], j);
    SwapKeepsActive(n, tracks, active, i, t);
    SwapKeepsSeen(n, tracks, i, t, j);
  }

  lemma SwapKeepsActive(n: nat, tracks: seq<Track>, active: set<int>, i: nat, t: Track)
    requires AreActive(tracks, n, active) && i < |tracks| && t.id == tracks[i].id && Active(t, n)
    ensures AreActive(tracks[i := t], n, active + {t.id})
  {
    forall id | id in active + {t.id}
      ensures HasActive(tracks[i := t], n, id)
    {
      if id == t.id {
        assert tracks[i := t][i] == t;
      } else {
        assert HasActive(tracks, n, id);
        var k :| 0 <= k < |tracks| && tracks[k].id == id && Active(tracks[k], n);
        assert tracks[i := t][k] == tracks[k];
      }
    }
  }

  lemma SwapKeepsSeen(n: nat, tracks: seq<Track>, i: nat, t: Track, j: nat)
    requires AllSeen(tracks, n, j) && i < |tracks| && t.seen == tracks[i].seen + [Sighting(n, j)] && Active(t, n)
    ensures AllSeen(tracks[i := t], n, j + 1)
  {
    var out := tracks[i := t];
    forall b: nat | b < j + 1
      ensures IsSeen(out, n, b)
    {
      if b == j {
        assert out[i] == t && t.seen[|t.seen| - 1] == Sighting(n, j);
      } else {
        assert IsSeen(tracks, n, b);
        var k :| 0 <= k < |tracks| && Sighting(n, b) in tracks[k].seen && Active(tracks[k], n);
        assert Sighting(n, b) in out[k].seen;
      }
    }
  }

  /** A new track begins with box j of call n. */
  lemma BeginKeeps(calls: seq<Call>, n: nat, tracks: seq<Track>, counter: nat, active: set<int>, j: nat, t: Track)
    requires |calls| == n + 1 && Tracks(calls, tracks, j) && Numbered(tracks, counter) && AreActive(tracks, n, active)
    requires AllSeen(tracks, n, j) && j < |calls[n].boxes|
    requires t == Begun(counter + 1, calls[n].boxes[j], calls[n].now, Sighting(n, j))
    ensures Tracks(calls, tracks + [t], j + 1) && Numbered(tracks + [t], counter + 1)
    ensures AreActive(tracks + [t], n, active + {t.id}) && AllSeen(tracks + [t], n, j + 1)
  {
    BegunIsBacked(calls, counter + 1, j);
    AppendKeepsNumbered(tracks, counter, t);
    AppendKeepsTracks(calls, tracks, j, t);
    AppendKeepsActive(n, tracks, active, t);
    AppendKeepsSeen(n, tracks, t, j);
  }

  lemma AppendKeepsNumbered(tracks: seq<Track>, counter: nat, t: Track)
    requires Numbered(tracks, counter) && t.id == counter + 1
    ensures Numbered(tracks + [t], counter + 1)
  {
  }

  lemma AppendKeepsTracks(calls: seq<Call>, tracks: seq<Track>, j: nat, t: Track)
    requires Tracks(calls, tracks, j) && Backed(calls, t) && Waits(calls, t, |calls| - 1, j + 1)
    ensures Tracks(calls, tracks + [t], j + 1)
  {
  }

  lemma AppendKeepsActive(n: nat, tracks: seq<Track>, active: set<int>, t: Track)
    requires AreActive(tracks, n, active) && Active(t, n)
    ensures AreActive(tracks + [t], n, active + {t.id})
  {
    assert (tracks + [t])[|tracks|] == t;
    forall id | id in active + {t.id}
      ensures HasActive(tracks + [t], n, id)
    {
      if id != t.id {
        assert HasActive(tracks, n, id);
        var k :| 0 <= k < |tracks| && tracks[k].id == id && Active(tracks[k], n);
        assert (tracks + [t])[k] == tracks[k];
      }
    }
  }

  lemma AppendKeepsSeen(n: nat, tracks: seq<Track>, t: Track, j: nat)
    requires AllSeen(tracks, n, j) && Sighting(n, j) in t.seen && Active(t, n)
    ensures AllSeen(tracks + [t], n, j + 1)
  {
    assert (tracks + [t])[|tracks|] == t;
    forall b: nat | b < j + 1
      ensures IsSeen(tracks + [t], n, b)
    {
      if b < j {
        assert IsSeen(tracks, n, b);
        var k :| 0 <= k < |tracks| && Sighting(n, b) in tracks[k].seen && Active(tracks[k], n);
        assert (tracks + [t])[k] == tracks[k];
      }
    }
  }

  // ---------------------------------------------------------------- pruning

  function Unstale(tracks: seq<Track>, now: real): seq<Track> {
    if tracks == [] then []
    else
      var before, t := Unstale(tracks[..|tracks| - 1], now), tracks[|tracks| - 1];
      if now - t.last > UNSEEN then before else before + [t]
  }

  /** Exactly the tracks seen in the last five seconds stay, in their order. */
  lemma {:induction false} UnstaleAre(tracks: seq<Track>, now: real)
    ensures forall t :: t in Unstale(tracks, now) <==> t in tracks && now - t.last <= UNSEEN
  {
    if tracks != [] {
      UnstaleAre(tracks[..|tracks| - 1], now);
      assert tracks == tracks[..|tracks| - 1] + [tracks[|tracks| - 1]];
    }
  }

  lemma {:induction false} UnstaleNumbered(tracks: seq<Track>, counter: nat, now: real)
    requires Numbered(tracks, counter)
    ensures Numbered(Unstale(tracks, now), counter)
    ensures tracks != [] ==> forall t :: t in Unstale(tracks, now) ==> t.id <= tracks[|tracks| - 1].id
  {
    if tracks != [] {
      var p := tracks[..|tracks| - 1];
      UnstaleNumbered(p, counter, now);
    }
  }

  lemma PruningKeeps(calls: seq<Call>, n: nat, tracks: seq<Track>, counter: nat, j: nat)
    requires |calls| == n + 1 && Tracks(calls, tracks, j) && Numbered(tracks, counter)
    ensures Numbered(Unstale(tracks, calls[n].now), counter)
    ensures AllKept(calls, Unstale(tracks, calls[n].now))
  {
    var now := calls[n].now;
    var left := Unstale(tracks, now);
    UnstaleAre(tracks, now);
    UnstaleNumbered(tracks, counter, now);
    forall i | 0 <= i < |left|
      ensures Kept(calls, left[i])
    {
      assert left[i] in tracks;
      var k :| 0 <= k < |tracks| && tracks[k] == left[i];
      UnprunedIsKept(calls, tracks[k], j);
    }
  }

  ghost predicate AllKept(calls: seq<Call>, tracks: seq<Track>) {
    forall i :: 0 <= i < |tracks| ==> Kept(calls, tracks[i])
  }

  /** A track seen in this call is never stale. */
  lemma ActiveSurvive(calls: seq<Call>, n: nat, tracks: seq<Track>, active: set<int>, j: nat)
    requires |calls| == n + 1 && Tracks(calls, tracks, j) && AreActive(tracks, n, active)
    ensures AreActive(Unstale(tracks, calls[n].now), n, active)
  {
    var now := calls[n].now;
    var left := Unstale(tracks, now);
    UnstaleAre(tracks, now);
    forall i | 0 <= i < |left| && Active(left[i], n)
      ensures left[i].id in active
    {
      assert left[i] in tracks;
    }
    forall id | id in active
      ensures HasActive(left, n, id)
    {
      assert HasActive(tracks, n, id);
      var k :| 0 <= k < |tracks| && tracks[k].id == id && Active(tracks[k], n);
      assert Backed(calls, tracks[k]) && tracks[k] in left;
    }
  }

  lemma SeenSurvive(calls: seq<Call>, n: nat, tracks: seq<Track>, j: nat)
    requires |calls| == n + 1 && Tracks(calls, tracks, j) && AllSeen(tracks, n, j)
    ensures AllSeen(Unstale(tracks, calls[n].now), n, j)
  {
    var left := Unstale(tracks, calls[n].now);
    UnstaleAre(tracks, calls[n].now);
    forall b: nat | b < j
      ensures IsSeen(left, n, b)
    {
      assert IsSeen(tracks, n, b);
      var k :| 0 <= k < |tracks| && Sighting(n, b) in tracks[k].seen && Active(tracks[k], n);
      assert Backed(calls, tracks[k]) && tracks[k] in left;
    }
  }

  // ---------------------------------------------------------------- the answer

  /** d reports a track seen in call n that began `threshold` seconds ago or more. */
  ghost predicate Reports(tracks: seq<Track>, n: nat, now: real, threshold: real, d: Detection) {
    exists i :: 0 <= i < |tracks| && Active(tracks[i], n) && now - tracks[i].first >= threshold
                && d == Detection(tracks[i].id, now - tracks[i].first, tracks[i].box)
  }

  ghost predicate IsReported(detections: seq<Detection>, id: int) {
    exists k :: 0 <= k < |detections| && detections[k].track == id
  }

  ghost predicate AreReports(tracks: seq<Track>, n: nat, now: real, threshold: real, detections: seq<Detection>,
                             done: set<int>)
  {
    && (forall k :: 0 <= k < |detections| ==> Reports(tracks, n, now, threshold, detections[k]))
    && (forall k :: 0 <= k < |detections| ==> detections[k].track in done)
    && (forall a, b :: 0 <= a < b < |detections| ==> detections[a].track != detections[b].track)
    && (forall i :: 0 <= i < |tracks| && tracks[i].id in done && now - tracks[i].first >= threshold ==>
          IsReported(detections, tracks[i].id))
  }

  /** Every reported object was there for the threshold: a chain of sightings, each near the one before and none of the
      gaps between them longer than five seconds at any call, from its first sighting to one in this call. */
  lemma ReportsAreBacked(calls: seq<Call>, n: nat, tracks: seq<Track>, threshold: real, d: Detection)
    requires |calls| == n + 1 && AllKept(calls, tracks) && Reports(tracks, n, calls[n].now, threshold, d)
    ensures exists seen: seq<Sighting> ::
              && IsChain(calls, seen) && LastOf(seen).call == n
              && InHistory(calls, LastOf(seen)) && BoxAt(calls, LastOf(seen)) == d.box
              && calls[n].now - calls[seen[0].call].now == d.dwell >= threshold
  {
  }

  lemma MoreAreReported(detections: seq<Detection>, d: Detection, id: int)
    ensures IsReported(detections + [d], id) <==> IsReported(detections, id) || d.track == id
  {
    var more := detections + [d];
    assert more[|detections|] == d;
    if IsReported(detections, id) {
      var x :| 0 <= x < |detections| && detections[x].track == id;
      assert more[x] == detections[x];
    }
  }

  /** Track i has been there for the threshold, and is reported. */
  lemma LongIsReported(tracks: seq<Track>, counter: nat, n: nat, now: real, threshold: real, detections: seq<Detection>,
                       done: set<int>, i: nat, d: Detection)
    requires Numbered(tracks, counter) && AreReports(tracks, n, now, threshold, detections, done)
    requires i < |tracks| && Active(tracks[i], n) && tracks[i].id !in done && now - tracks[i].first >= threshold
    requires d == Detection(tracks[i].id, now - tracks[i].first, tracks[i].box)
    ensures AreReports(tracks, n, now, threshold, detections + [d], done + {d.track})
  {
    assert Reports(tracks, n, now, threshold, d);
    forall k | 0 <= k < |tracks| && tracks[k].id in done + {d.track} && now - tracks[k].first >= threshold
      ensures IsReported(detections + [d], tracks[k].id)
    {
      MoreAreReported(detections, d, tracks[k].id);
    }
  }

  /** Track i has not: its number is done with. */
  lemma ShortIsPassed(tracks: seq<Track>, counter: nat, n: nat, now: real, threshold: real, detections: seq<Detection>,
                      done: set<int>, i: nat)
    requires Numbered(tracks, counter) && AreReports(tracks, n, now, threshold, detections, done)
    requires i < |tracks| && now - tracks[i].first < threshold
    ensures AreReports(tracks, n, now, threshold, detections, done + {tracks[i].id})
  {
    forall k | 0 <= k < |tracks| && tracks[k].id in done + {tracks[i].id} && now - tracks[k].first >= threshold
      ensures IsReported(detections, tracks[k].id)
    {
      Distinct(tracks, counter, i, k);
    }
  }

  lemma ReportsGrow(tracks: seq<Track>, counter: nat, n: nat, now: real, threshold: real, detections: seq<Detection>,
                    done: set<int>, i: nat)
    requires Numbered(tracks, counter) && AreReports(tracks, n, now, threshold, detections, done)
    requires i < |tracks| && Active(tracks[i], n) && tracks[i].id !in done
    ensures var d := Detection(tracks[i].id, now - tracks[i].first, tracks[i].box);
            AreReports(tracks, n, now, threshold,
                       if d.dwell >= threshold then detections + [d] else detections, done + {d.track})
  {
    var d := Detection(tracks[i].id, now - tracks[i].first, tracks[i].box);
    if d.dwell >= threshold {
      LongIsReported(tracks, counter, n, now, threshold, detections, done, i, d);
    } else {
      ShortIsPassed(tracks, counter, n, now, threshold, detections, done, i);
    }
  }

  lemma Distinct(tracks: seq<Track>, counter: nat, i: nat, k: nat)
    requires Numbered(tracks, counter) && i < |tracks| && k < |tracks|
    ensures i != k ==> tracks[i].id != tracks[k].id
  {
  }

  /** Of the first k tracks, the first of those nearest to the box, if any is within the match distance. */
  ghost predicate IsNearest(tracks: seq<Track>, k: nat, box: Box, best: Option<nat>)
    requires k <= |tracks|
  {
    match best
    case None => forall i :: 0 <= i < k ==> !IsWithin(tracks[i].box, box)
    case Some(b) =>
      && b < k && IsWithin(tracks[b].box, box)
      && forall i :: 0 <= i < k ==>
           && Way2(tracks[b].box, box) <= Way2(tracks[i].box, box)
           && (i < b ==> Way2(tracks[b].box, box) < Way2(tracks[i].box, box))
  }

  /** A number is new, or stands for the object it stood for before. */
  ghost predicate Continues(before: seq<Track>, counter: nat, t: Track) {
    t.id > counter
    || exists k :: 0 <= k < |before| && before[k].id == t.id && before[k].first == t.first && before[k].seen <= t.seen
  }

  ghost predicate AllContinue(before: seq<Track>, counter: nat, tracks: seq<Track>) {
    forall i :: 0 <= i < |tracks| ==> Continues(before, counter, tracks[i])
  }

  lemma SwapContinues(before: seq<Track>, counter: nat, tracks: seq<Track>, i: nat, box: Box, now: real, s: Sighting)
    requires AllContinue(before, counter, tracks) && i < |tracks|
    ensures AllContinue(before, counter, tracks[i := Matched(tracks[i], box, now, s)])
  {
  }

  lemma AppendContinues(before: seq<Track>, counter: nat, tracks: seq<Track>, t: Track)
    requires AllContinue(before, counter, tracks) && t.id > counter
    ensures AllContinue(before, counter, tracks + [t])
  {
  }

  lemma AllContinueThemselves(tracks: seq<Track>, counter: nat)
    ensures AllContinue(tracks, counter, tracks)
  {
  }

  lemma PrunedContinue(before: seq<Track>, counter: nat, tracks: seq<Track>, now: real)
    requires AllContinue(before, counter, tracks)
    ensures AllContinue(before, counter, Unstale(tracks, now))
  {
  }

  lemma CallBegins(calls: seq<Call>, c: Call, tracks: seq<Track>)
    requires AllKept(calls, tracks)
    ensures Tracks(calls + [c], tracks, 0) && AreActive(tracks, |calls|, {}) && AllSeen(tracks, |calls|, 0)
  {
  }

  // ---------------------------------------------------------------- the code

  /** One camera's tracks. */
  class Tracker {
    var tracks: seq<Track>
    var counter: nat
    /** The calls so far, which only the contracts speak of. */
    var calls: seq<Call>

    ghost predicate Valid()
      reads this
    {
      Numbered(tracks, counter) && AllKept(calls, tracks)
    }

    constructor ()
      ensures Valid() && calls == [] && tracks == [] && counter == 0
    {
      tracks, counter, calls := [], 0, [];
    }

    /** The loop over the tracks. */
    method Nearest(box: Box) returns (best: Option<nat>)
      ensures IsNearest(tracks, |tracks|, box, best)
    {
      best := None;
      for k := 0 to |tracks|
        invariant IsNearest(tracks, k, box, best)
      {
        DistanceIsTheWay(tracks[k].box, box);
        if best.Some? { DistanceIsTheWay(tracks[best.value].box, box); }
        var d := Distance2(tracks[k].box, box);
        if Near(tracks[k].box, box) && (best.None? || d < Distance2(tracks[best.value].box, box)) {
          best := Some(k);
        }
      }
    }

    /** One box of the call: it moves the nearest track there, or begins a new one. */
    method Match(n: nat, j: nat, now: real, box: Box, active: set<int>, ghost before: seq<Track>, ghost given: nat)
      returns (active': set<int>, best: Option<nat>)
      requires |calls| == n + 1 && j < |calls[n].boxes| && box == calls[n].boxes[j] && now == calls[n].now
      requires Tracks(calls, tracks, j) && Numbered(tracks, counter) && AreActive(tracks, n, active)
      requires AllSeen(tracks, n, j) && AllContinue(before, given, tracks) && given <= counter
      modifies this`tracks, this`counter
      ensures Tracks(calls, tracks, j + 1) && Numbered(tracks, counter) && AreActive(tracks, n, active')
      ensures AllSeen(tracks, n, j + 1) && AllContinue(before, given, tracks) && given <= counter
      ensures IsNearest(old(tracks), |old(tracks)|, box, best)
      ensures best.Some? ==>
                tracks == old(tracks)[best.value := Matched(old(tracks)[best.value], box, now, Sighting(n, j))]
      ensures best.None? ==> tracks == old(tracks) + [Begun(old(counter) + 1, box, now, Sighting(n, j))]
      ensures counter == if best.None? then old(counter) + 1 else old(counter)
    {
      var s := Sighting(n, j);
      best := Nearest(box);
      if best.Some? {
        var t := Matched(tracks[best.value], box, now, s);
        SwapContinues(before, given, tracks, best.value, box, now, s);
        MatchKeeps(calls, n, tracks, counter, active, best.value, j, t);
        tracks := tracks[best.value := t];
        active' := active + {t.id};
      } else {
        var t := Begun(counter + 1, box, now, s);
        BeginKeeps(calls, n, tracks, counter, active, j, t);
        AppendContinues(before, given, tracks, t);
        counter := counter + 1;
        tracks := tracks + [t];
        active' := active + {t.id};
      }
    }

    /** tracker[tid], for a number that is there. */
    method Lookup(n: nat, id: int) returns (i: nat)
      requires Numbered(tracks, counter) && HasActive(tracks, n, id)
      ensures i < |tracks| && tracks[i].id == id && Active(tracks[i], n)
    {
      ghost var k :| 0 <= k < |tracks| && tracks[k].id == id && Active(tracks[k], n);
      i := 0;
      while tracks[i].id != id
        invariant i <= k
        decreases k - i
      {
        i := i + 1;
      }
      Distinct(tracks, counter, i, k);
    }

    method Report(n: nat, now: real, threshold: real, active: set<int>) returns (detections: seq<Detection>)
      requires Numbered(tracks, counter) && AreActive(tracks, n, active)
      ensures AreReports(tracks, n, now, threshold, detections, active)
    {
      detections := [];
      var left := active;
      while left != {}
        invariant left <= active
        invariant AreReports(tracks, n, now, threshold, detections, active - left)
        decreases |left|
      {
        EmptyOrNot(left);
        var id :| id in left;
        var i := Lookup(n, id);
        ReportsGrow(tracks, counter, n, now, threshold, detections, active - left, i);
        assert active - left + {id} == active - (left - {id});
        var dwell := now - tracks[i].first;
        if dwell >= threshold {
          detections := detections + [Detection(id, dwell, tracks[i].box)];
        }
        left := left - {id};
      }
      assert active - left == active;
    }

    method MatchAll(n: nat, now: real, boxes: seq<Box>, ghost before: seq<Track>, ghost given: nat)
      returns (active: set<int>)
      requires |calls| == n + 1 && calls[n] == Call(now, boxes)
      requires Tracks(calls, tracks, 0) && Numbered(tracks, counter) && AreActive(tracks, n, {})
      requires AllSeen(tracks, n, 0) && AllContinue(before, given, tracks) && given <= counter
      modifies this`tracks, this`counter
      ensures Tracks(calls, tracks, |boxes|) && Numbered(tracks, counter) && AreActive(tracks, n, active)
      ensures AllSeen(tracks, n, |boxes|) && AllContinue(before, given, tracks) && given <= counter
    {
      active := {};
      for j := 0 to |boxes|
        invariant Tracks(calls, tracks, j) && Numbered(tracks, counter) && AreActive(tracks, n, active)
        invariant AllSeen(tracks, n, j) && AllContinue(before, given, tracks) && given <= counter
      {
        var best;
        active, best := Match(n, j, now, boxes[j], active, before, given);
      }
    }

    method Prune(now: real)
      modifies this`tracks
      ensures tracks == Unstale(old(tracks), now)
    {
      var left := [];
      for k := 0 to |tracks|
        invariant left == Unstale(tracks[..k], now)
      {
        assert tracks[..k + 1][..k] == tracks[..k];
        if !(now - tracks[k].last > UNSEEN) { left := left + [tracks[k]]; }
      }
      assert tracks[..|tracks|] == tracks;
      tracks := left;
    }

    /** detect_abandoned, from the contours on. Every contour large enough, bounded by its box, belongs to a track
        afterwards; no track unseen for more than five seconds is left; a number never passes to another object; and
        exactly the tracks seen now that began long enough ago are reported. */
    method Detect(contours: seq<Contour>, now: real, threshold: real)
      returns (detections: seq<Detection>, active: set<int>)
      requires Valid()
      modifies this
      ensures Valid() && calls == old(calls) + [Call(now, BoxesOf(contours))]
      ensures counter >= old(counter) && AllContinue(old(tracks), old(counter), tracks)
      ensures forall t :: t in tracks ==> now - t.last <= 5.0
      ensures BoundsAll(calls[|old(calls)|].boxes, contours, Large(contours, |contours|))
      ensures AllSeen(tracks, |old(calls)|, |calls[|old(calls)|].boxes|)
      ensures AreActive(tracks, |old(calls)|, active)
      ensures AreReports(tracks, |old(calls)|, now, threshold, detections, active)
    {
      var n, boxes := |calls|, BoxesOf(contours);
      BoxesAreTheLarge(contours);
      CallBegins(calls, Call(now, boxes), tracks);
      AllContinueThemselves(tracks, counter);
      calls := calls + [Call(now, boxes)];
      active := MatchAll(n, now, boxes, tracks, counter);
      PruningKeeps(calls, n, tracks, counter, |boxes|);
      ActiveSurvive(calls, n, tracks, active, |boxes|);
      SeenSurvive(calls, n, tracks, |boxes|);
      PrunedContinue(old(tracks), old(counter), tracks, now);
      UnstaleAre(tracks, now);
      Prune(now);
      detections := Report(n, now, threshold, active);
    }
  }
}
