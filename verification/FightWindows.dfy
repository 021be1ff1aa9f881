/** Possible altercations, stage 1: the stretches of seconds worth a second look. */
module FightWindows {
  import opened Sorting
  import Stretches
  import opened Wrappers

  /** The share of the fighting descriptions, the people counted, and the best description's index. */
  datatype Sample = Sample(share: real, people: int, which: nat)

  datatype Window = Window(start: int, end: int, best: int, share: real, described: Option<nat>, seconds: seq<int>)

  function Candidates(perSecond: map<int, Sample>, share: real, people: int): set<int> {
    set s | s in perSecond && perSecond[s].share >= share && perSecond[s].people >= people
  }

  /** How many of the second before, the second itself and the second after are candidates. */
  function Near(candidates: set<int>, s: int): int {
    (if s - 1 in candidates then 1 else 0) + (if s in candidates then 1 else 0) + (if s + 1 in candidates then 1 else 0)
  }

  function Flagged(candidates: set<int>): set<int> {
    set s | s in candidates && Near(candidates, s) >= 2
  }

  /** A second is flagged exactly when it and a neighbour are candidates: a run of two or more. */
  lemma FlaggedIsInARun(candidates: set<int>, s: int)
    ensures s in Flagged(candidates) <==> s in candidates && (s - 1 in candidates || s + 1 in candidates)
  {
  }

  /** The module's own description, "at least 2 of 3 consecutive seconds", would also flag a candidate, a miss and a
      candidate; the code does not. */
  lemma TwoOfThreeAroundAMissAreNotFlagged(s: int)
    ensures Near({s - 1, s + 1}, s) == 2 && Flagged({s - 1, s + 1}) == {}
  {
  }

  // ---------------------------------------------------------------- what the windows should be

  function First(w: Window): int
    requires w.seconds != []
  {
    w.seconds[0]
  }

  function Last(w: Window): int
    requires w.seconds != []
  {
    w.seconds[|w.seconds| - 1]
  }

  ghost predicate Before(s: seq<int>, i: nat, j: nat)
    requires i < |s| && j < |s|
  {
    s[i] < s[j]
  }

  ghost predicate Ascending(s: seq<int>) {
    forall i, j {:trigger Before(s, i, j)} :: 0 <= i < j < |s| ==> Before(s, i, j)
  }

  /** The window holds every flagged second from its first to its last, with at most one missing between two. */
  ghost predicate Gathers(f: set<int>, w: Window) {
    && w.seconds != [] && Ascending(w.seconds)
    && (forall s :: s in w.seconds <==> s in f && First(w) <= s <= Last(w))
    && Stretches.Linked(f, 1, First(w), Last(w))
  }

  /** The best second is the earliest with the highest share, once that share is above zero. */
  ghost predicate HasBest(perSecond: map<int, Sample>, w: Window) {
    && w.seconds != [] && w.share >= 0.0 && w.best in w.seconds
    && (forall s :: s in w.seconds ==> s in perSecond && perSecond[s].share <= w.share)
    && (if w.share > 0.0
        then perSecond[w.best].share == w.share && w.described == Some(perSecond[w.best].which)
             && (forall s :: s in w.seconds && s < w.best ==> perSecond[s].share < w.share)
        else w.best == First(w) && w.described == None)
  }

  ghost predicate Split(v: Window, w: Window) {
    v.seconds != [] && w.seconds != [] && First(w) - Last(v) >= 3
  }

  ghost predicate InWindow(out: seq<Window>, s: int) {
    exists i :: 0 <= i < |out| && s in out[i].seconds
  }

  ghost predicate AllGather(f: set<int>, out: seq<Window>) {
    forall i :: 0 <= i < |out| ==> Gathers(f, out[i])
  }

  ghost predicate AllHaveBest(perSecond: map<int, Sample>, out: seq<Window>) {
    forall i :: 0 <= i < |out| ==> HasBest(perSecond, out[i])
  }

  ghost predicate AllSplit(out: seq<Window>) {
    forall i, j :: 0 <= i < j < |out| ==> Split(out[i], out[j])
  }

  ghost predicate AllIn(f: set<int>, out: seq<Window>) {
    forall s {:trigger InWindow(out, s)} :: s in f ==> InWindow(out, s)
  }

  /** Every flagged second is in a window; two windows are parted by two missing seconds or more. */
  ghost predicate AreGroups(f: set<int>, perSecond: map<int, Sample>, out: seq<Window>) {
    AllGather(f, out) && AllHaveBest(perSecond, out) && AllSplit(out) && AllIn(f, out)
  }

  function Max(a: int, b: int): int { if a > b then a else b }

  ghost predicate Padded(w: Window) {
    w.seconds != [] && w.start == Max(0, First(w) - 1) && w.end == Last(w) + 1
  }

  ghost predicate AreWindows(f: set<int>, perSecond: map<int, Sample>, out: seq<Window>) {
    AreGroups(f, perSecond, out) && forall i :: 0 <= i < |out| ==> Padded(out[i])
  }

  /** The second has enough of the fighting descriptions, and enough people. */
  ghost predicate IsSuspect(perSecond: map<int, Sample>, share: real, people: int, s: int) {
    s in perSecond && perSecond[s].share >= share && perSecond[s].people >= people
  }

  /** The windows hold exactly the suspect seconds that have a suspect one before or after. */
  lemma WindowsHoldTheSuspects(perSecond: map<int, Sample>, share: real, people: int, out: seq<Window>, s: int)
    requires AreWindows(Flagged(Candidates(perSecond, share, people)), perSecond, out)
    ensures InWindow(out, s)
       <==> IsSuspect(perSecond, share, people, s)
            && (IsSuspect(perSecond, share, people, s - 1) || IsSuspect(perSecond, share, people, s + 1))
  {
    var f := Flagged(Candidates(perSecond, share, people));
    if InWindow(out, s) {
      var i :| 0 <= i < |out| && s in out[i].seconds;
      assert Gathers(f, out[i]);
    }
    assert s in f ==> InWindow(out, s);
  }

  /** The windows are disjoint, and so are the stretches read again for them, from start up to end + 1. */
  lemma WindowsAreDisjoint(f: set<int>, perSecond: map<int, Sample>, out: seq<Window>, i: nat, j: nat)
    requires AreWindows(f, perSecond, out) && i < j < |out|
    ensures out[i].end + 1 <= out[j].start
  {
    assert Padded(out[i]) && Padded(out[j]) && Split(out[i], out[j]);
  }

  /** With a threshold above zero, as it is shipped, the best second has the window's highest share and is described. */
  lemma BestHasTheHighestShare(perSecond: map<int, Sample>, share: real, people: int, out: seq<Window>, i: nat, s: int)
    requires AreWindows(Flagged(Candidates(perSecond, share, people)), perSecond, out)
    requires share > 0.0 && i < |out| && s in out[i].seconds
    ensures out[i].best in perSecond && perSecond[s].share <= perSecond[out[i].best].share == out[i].share
    ensures out[i].described == Some(perSecond[out[i].best].which)
    ensures s < out[i].best ==> perSecond[s].share < out[i].share
  {
    assert Gathers(Flagged(Candidates(perSecond, share, people)), out[i]) && HasBest(perSecond, out[i]);
    assert s in Flagged(Candidates(perSecond, share, people));
  }

  /** Two flagged seconds share a window exactly when no two seconds or more are missing between neighbours. */
  lemma SameWindowIffLinked(f: set<int>, perSecond: map<int, Sample>, out: seq<Window>, i: nat, a: int, b: int)
    requires AreGroups(f, perSecond, out) && i < |out| && a in out[i].seconds && b in f && a <= b
    ensures b in out[i].seconds <==> Stretches.Linked(f, 1, a, b)
  {
    var w := out[i];
    assert Gathers(f, w);
    if b in w.seconds {
      LinkedInside(f, w, a, b);
    }
    if Stretches.Linked(f, 1, a, b) && Last(w) < b {
      assert Last(w) in w.seconds;
      assert Stretches.HasNext(f, 1, Last(w), b);
      var y :| y in f && Last(w) < y <= Last(w) + 2;
      LaterSecondsAreFar(f, perSecond, out, i, y);
    }
  }

  lemma LinkedInside(f: set<int>, w: Window, a: int, b: int)
    requires Gathers(f, w) && a in w.seconds && b in w.seconds && a <= b
    ensures Stretches.Linked(f, 1, a, b)
  {
    forall x | x in f && a <= x < b
      ensures Stretches.HasNext(f, 1, x, b)
    {
      assert Stretches.HasNext(f, 1, x, Last(w));
      var y :| y in f && x < y <= x + 2 && y <= Last(w);
      if b < y { assert x < b <= x + 2; }
    }
  }

  lemma LaterSecondsAreFar(f: set<int>, perSecond: map<int, Sample>, out: seq<Window>, i: nat, y: int)
    requires AreGroups(f, perSecond, out) && i < |out| && out[i].seconds != [] && y in f && Last(out[i]) < y
    ensures y - Last(out[i]) >= 3
  {
    assert InWindow(out, y);
    var j :| 0 <= j < |out| && y in out[j].seconds;
    assert Gathers(f, out[i]) && Gathers(f, out[j]);
    InOrder(out, i, j);
    InOrder(out, j, i);
    assert First(out[i]) <= Last(out[i]) by { assert First(out[i]) in out[i].seconds; }
  }

  lemma InOrder(out: seq<Window>, i: nat, j: nat)
    requires AllSplit(out) && i < |out| && j < |out| && out[i].seconds != [] && out[j].seconds != []
    ensures i < j ==> First(out[j]) - Last(out[i]) >= 3
  {
    if i < j { assert Split(out[i], out[j]); }
  }

  // ---------------------------------------------------------------- the loop

  /** Window `w` after the loop has looked at second `s` of it. */
  function Noted(w: Window, s: int, sample: Sample): Window {
    var wider := w.(end := s, seconds := w.seconds + [s]);
    if sample.share > w.share then wider.(best := s, share := sample.share, described := Some(sample.which)) else wider
  }

  function Opened(s: int, sample: Sample): Window {
    Noted(Window(s, s, s, 0.0, None, []), s, sample)
  }

  /** Each window ends with the last second it was given, and the last one with the last flagged second or after. */
  ghost predicate EndsAtLast(out: seq<Window>) {
    forall i :: 0 <= i < |out| ==> out[i].seconds != [] && out[i].end == Last(out[i])
  }

  ghost predicate Reaches(f: set<int>, out: seq<Window>) {
    forall x :: x in f ==> out != [] && x <= out[|out| - 1].end
  }

  ghost predicate UpTo(f: set<int>, perSecond: map<int, Sample>, out: seq<Window>) {
    AreGroups(f, perSecond, out) && EndsAtLast(out) && Reaches(f, out)
  }

  lemma EarlierWindowStays(f: set<int>, w: Window, s: int)
    requires Gathers(f, w) && Last(w) < s
    ensures Gathers(f + {s}, w)
  {
    forall x | x in f + {s} && First(w) <= x < Last(w)
      ensures Stretches.HasNext(f + {s}, 1, x, Last(w))
    {
      assert Stretches.HasNext(f, 1, x, Last(w));
      var y :| y in f && x < y <= x + 2 && y <= Last(w);
      assert y in f + {s};
    }
  }

  lemma NotedIsLinked(f: set<int>, first: int, last: int, s: int)
    requires Stretches.Linked(f, 1, first, last) && (forall x :: x in f ==> x <= last) && last < s <= last + 2
    ensures Stretches.Linked(f + {s}, 1, first, s)
  {
    Stretches.JoinedIsLinked(f, 1, first, last, s);
  }

  lemma NotedIsAscending(seconds: seq<int>, s: int)
    requires Ascending(seconds) && forall x :: x in seconds ==> x < s
    ensures Ascending(seconds + [s])
  {
    forall i, j | 0 <= i < j < |seconds + [s]|
      ensures Before(seconds + [s], i, j)
    {
      if j < |seconds| { assert Before(seconds, i, j); } else { assert seconds[i] in seconds; }
    }
  }

  lemma NotedGathers(f: set<int>, w: Window, s: int, sample: Sample)
    requires Gathers(f, w)
    requires (forall x :: x in f ==> x <= Last(w)) && Last(w) < s <= Last(w) + 2
    ensures Gathers(f + {s}, Noted(w, s, sample))
  {
    var w' := Noted(w, s, sample);
    assert w'.seconds == w.seconds + [s] && First(w') == First(w) && Last(w') == s;
    assert Last(w) in w.seconds && First(w) in w.seconds;
    NotedIsLinked(f, First(w), Last(w), s);
    NotedIsAscending(w.seconds, s);
    forall x
      ensures x in w'.seconds <==> x in f + {s} && First(w) <= x <= s
    {
      assert x in w.seconds + [s] <==> x in w.seconds || x == s;
    }
  }

  lemma NotedHasBest(perSecond: map<int, Sample>, w: Window, s: int)
    requires HasBest(perSecond, w) && s in perSecond && forall x :: x in w.seconds ==> x < s
    ensures HasBest(perSecond, Noted(w, s, perSecond[s]))
  {
  }

  lemma OpenedIsAlone(f: set<int>, perSecond: map<int, Sample>, s: int)
    requires s in perSecond && forall x :: x in f ==> x < s
    ensures Gathers(f + {s}, Opened(s, perSecond[s])) && HasBest(perSecond, Opened(s, perSecond[s]))
  {
  }

  lemma EarlierWindowsStay(f: set<int>, perSecond: map<int, Sample>, out: seq<Window>, s: int)
    requires UpTo(f, perSecond, out) && out != [] && out[|out| - 1].end < s
    ensures AllGather(f + {s}, out)
  {
    forall i | 0 <= i < |out|
      ensures Gathers(f + {s}, out[i])
    {
      var last := |out| - 1;
      assert Gathers(f, out[i]) && Gathers(f, out[last]);
      InOrder(out, i, last);
      assert First(out[last]) in out[last].seconds;
      EarlierWindowStays(f, out[i], s);
    }
  }

  lemma StillInWindow(f: set<int>, out: seq<Window>, out': seq<Window>, s: int)
    requires AllIn(f, out) && |out| <= |out'| && out' != [] && s in out'[|out'| - 1].seconds
    requires forall i :: 0 <= i < |out| ==> forall x :: x in out[i].seconds ==> x in out'[i].seconds
    ensures AllIn(f + {s}, out')
  {
    forall x | x in f + {s}
      ensures InWindow(out', x)
    {
      if x in f {
        assert InWindow(out, x);
        var i :| 0 <= i < |out| && x in out[i].seconds;
        assert x in out'[i].seconds;
      } else {
        assert s in out'[|out'| - 1].seconds;
      }
    }
  }

  lemma NoteKeepsGroups(f: set<int>, perSecond: map<int, Sample>, out: seq<Window>, s: int)
    requires UpTo(f, perSecond, out) && out != [] && s in perSecond
    requires out[|out| - 1].end < s <= out[|out| - 1].end + 2
    ensures UpTo(f + {s}, perSecond, out[|out| - 1 := Noted(out[|out| - 1], s, perSecond[s])])
  {
    var w := out[|out| - 1];
    var longer := Noted(w, s, perSecond[s]);
    EarlierWindowsStay(f, perSecond, out, s);
    assert Gathers(f, w) && HasBest(perSecond, w);
    NotedGathers(f, w, s, perSecond[s]);
    assert forall x :: x in w.seconds ==> x < s;
    NotedHasBest(perSecond, w, s);
    OneGathers(f + {s}, perSecond, out, longer);
    LongerStaysSplit(out, longer, s);
    LongerHolds(f, out, longer, s);
  }

  lemma OneGathers(f: set<int>, perSecond: map<int, Sample>, out: seq<Window>, w: Window)
    requires AllGather(f, out) && AllHaveBest(perSecond, out) && out != []
    requires Gathers(f, w) && HasBest(perSecond, w)
    ensures AllGather(f, out[|out| - 1 := w]) && AllHaveBest(perSecond, out[|out| - 1 := w])
  {
  }

  lemma LongerStaysSplit(out: seq<Window>, w: Window, s: int)
    requires AllSplit(out) && out != [] && out[|out| - 1].seconds != []
    requires w.seconds == out[|out| - 1].seconds + [s]
    ensures AllSplit(out[|out| - 1 := w])
  {
    var out' := out[|out| - 1 := w];
    forall i, j | 0 <= i < j < |out'|
      ensures Split(out'[i], out'[j])
    {
      assert Split(out[i], out[j]);
    }
  }

  lemma LongerHolds(f: set<int>, out: seq<Window>, w: Window, s: int)
    requires AllIn(f, out) && EndsAtLast(out) && Reaches(f, out) && out != []
    requires w.seconds == out[|out| - 1].seconds + [s] && w.end == s && out[|out| - 1].end < s
    ensures var out' := out[|out| - 1 := w]; AllIn(f + {s}, out') && EndsAtLast(out') && Reaches(f + {s}, out')
  {
    assert w.seconds[|w.seconds| - 1] == s;
    StillInWindow(f, out, out[|out| - 1 := w], s);
  }

  lemma OpenKeepsGroups(f: set<int>, perSecond: map<int, Sample>, out: seq<Window>, s: int)
    requires UpTo(f, perSecond, out) && s in perSecond && (out != [] ==> out[|out| - 1].end + 2 < s)
    ensures UpTo(f + {s}, perSecond, out + [Opened(s, perSecond[s])])
  {
    var w := Opened(s, perSecond[s]);
    OpenedIsAlone(f, perSecond, s);
    assert w.seconds == [s];
    if out != [] { EarlierWindowsStay(f, perSecond, out, s); }
    OneMoreGathers(f + {s}, perSecond, out, w);
    OpenedIsSplit(f, perSecond, out, w, s);
    OpenedHolds(f, out, w, s);
  }

  lemma OneMoreGathers(f: set<int>, perSecond: map<int, Sample>, out: seq<Window>, w: Window)
    requires AllHaveBest(perSecond, out) && HasBest(perSecond, w) && Gathers(f, w) && (out == [] || AllGather(f, out))
    ensures AllGather(f, out + [w]) && AllHaveBest(perSecond, out + [w])
  {
  }

  lemma OpenedHolds(f: set<int>, out: seq<Window>, w: Window, s: int)
    requires AllIn(f, out) && EndsAtLast(out) && Reaches(f, out)
    requires w.seconds == [s] && w.end == s && (out != [] ==> out[|out| - 1].end < s)
    ensures AllIn(f + {s}, out + [w]) && EndsAtLast(out + [w]) && Reaches(f + {s}, out + [w])
  {
    StillInWindow(f, out, out + [w], s);
  }

  lemma OpenedIsSplit(f: set<int>, perSecond: map<int, Sample>, out: seq<Window>, w: Window, s: int)
    requires UpTo(f, perSecond, out) && w.seconds == [s] && (out != [] ==> out[|out| - 1].end + 2 < s)
    ensures AllSplit(out + [w])
  {
    forall i, j | 0 <= i < j < |out + [w]|
      ensures Split((out + [w])[i], (out + [w])[j])
    {
      if j < |out| {
        assert Split(out[i], out[j]);
      } else {
        InOrder(out, i, |out| - 1);
        assert Gathers(f, out[|out| - 1]);
        assert First(out[|out| - 1]) in out[|out| - 1].seconds;
      }
    }
  }

  /** The flagged ones of the first k seconds. */
  ghost function Seen(seconds: seq<int>, k: nat, f: set<int>): set<int>
    requires k <= |seconds|
  {
    set i | 0 <= i < k && seconds[i] in f :: seconds[i]
  }

  lemma SeenGrows(seconds: seq<int>, k: nat, f: set<int>)
    requires k < |seconds|
    ensures seconds[k] in f ==> Seen(seconds, k + 1, f) == Seen(seconds, k, f) + {seconds[k]}
    ensures seconds[k] !in f ==> Seen(seconds, k + 1, f) == Seen(seconds, k, f)
  {
  }

  lemma SeenAll(seconds: seq<int>, f: set<int>)
    requires forall s :: s in f ==> s in seconds
    ensures Seen(seconds, |seconds|, f) == f
  {
    forall s | s in f
      ensures s in Seen(seconds, |seconds|, f)
    {
      var i :| 0 <= i < |seconds| && seconds[i] == s;
      assert seconds[i] in f;
    }
  }

  function Added(out: seq<Window>, s: int, sample: Sample): seq<Window> {
    if out != [] && s <= out[|out| - 1].end + 2 then out[|out| - 1 := Noted(out[|out| - 1], s, sample)]
    else out + [Opened(s, sample)]
  }

  ghost predicate EndsBy(out: seq<Window>, s: int) { out != [] ==> out[|out| - 1].end <= s }

  lemma AddedEnds(out: seq<Window>, s: int, sample: Sample)
    ensures EndsBy(Added(out, s, sample), s)
  {
  }

  lemma AddedKeepsGroups(f: set<int>, perSecond: map<int, Sample>, out: seq<Window>, s: int)
    requires UpTo(f, perSecond, out) && s in perSecond && EndsBy(out, s - 1)
    ensures UpTo(f + {s}, perSecond, Added(out, s, perSecond[s]))
  {
    if out != [] && s <= out[|out| - 1].end + 2 {
      NoteKeepsGroups(f, perSecond, out, s);
    } else {
      OpenKeepsGroups(f, perSecond, out, s);
    }
  }

  /** The loop over the candidates, of which only the flagged ones are gathered. */
  method Gather(perSecond: map<int, Sample>, candidate: set<int>, seconds: seq<int>) returns (out: seq<Window>)
    requires IsSortedSet(seconds, candidate) && candidate <= perSecond.Keys
    ensures UpTo(Flagged(candidate), perSecond, out)
  {
    ghost var f := Flagged(candidate);
    out := [];
    ghost var seen: set<int> := {};
    for k := 0 to |seconds|
      invariant seen == Seen(seconds, k, f)
      invariant UpTo(seen, perSecond, out)
      invariant k < |seconds| ==> EndsBy(out, seconds[k] - 1)
    {
      var s := seconds[k];
      assert k + 1 < |seconds| ==> s < seconds[k + 1];
      SeenGrows(seconds, k, f);
      if Near(candidate, s) >= 2 {
        assert s in candidate;
        AddedKeepsGroups(seen, perSecond, out, s);
        AddedEnds(out, s, perSecond[s]);
        if out != [] && s <= out[|out| - 1].end + 2 {
          out := out[|out| - 1 := Noted(out[|out| - 1], s, perSecond[s])];
        } else {
          out := out + [Opened(s, perSecond[s])];
        }
        seen := seen + {s};
      }
    }
    SeenAll(seconds, f);
  }

  /** The last loop: a second either side, not before the start of the video. */
  method Pad(found: seq<Window>) returns (out: seq<Window>)
    requires forall i :: 0 <= i < |found| ==> found[i].seconds != []
    ensures |out| == |found|
    ensures forall i :: 0 <= i < |out| ==>
      out[i] == found[i].(start := Max(0, First(found[i]) - 1), end := Last(found[i]) + 1)
  {
    out := found;
    for k := 0 to |out|
      invariant |out| == |found|
      invariant forall i :: 0 <= i < k ==>
        out[i] == found[i].(start := Max(0, First(found[i]) - 1), end := Last(found[i]) + 1)
      invariant forall i :: k <= i < |out| ==> out[i] == found[i]
    {
      var w := out[k];
      out := out[k := w.(start := Max(0, First(w) - 1), end := Last(w) + 1)];
    }
  }

  lemma PaddedAreGroups(f: set<int>, perSecond: map<int, Sample>, found: seq<Window>, out: seq<Window>)
    requires AreGroups(f, perSecond, found) && |out| == |found|
    requires forall i :: 0 <= i < |out| ==> out[i] == found[i].(start := out[i].start, end := out[i].end)
    ensures AreGroups(f, perSecond, out)
  {
    forall i | 0 <= i < |out|
      ensures Gathers(f, out[i]) && HasBest(perSecond, out[i])
    {
      assert Gathers(f, found[i]) && HasBest(perSecond, found[i]);
    }
    forall i, j | 0 <= i < j < |out|
      ensures Split(out[i], out[j])
    {
      assert Split(found[i], found[j]);
    }
    forall s | s in f
      ensures InWindow(out, s)
    {
      assert InWindow(found, s);
      var i :| 0 <= i < |found| && s in found[i].seconds;
      assert s in out[i].seconds;
    }
  }

  lemma PaddedAreWindows(f: set<int>, perSecond: map<int, Sample>, found: seq<Window>, out: seq<Window>)
    requires AreGroups(f, perSecond, found) && EndsAtLast(found) && |out| == |found|
    requires forall i :: 0 <= i < |out| ==>
      out[i] == found[i].(start := Max(0, First(found[i]) - 1), end := Last(found[i]) + 1)
    ensures AreWindows(f, perSecond, out)
  {
    PaddedAreGroups(f, perSecond, found, out);
  }

  /** (second -> (share, people, best description)) as the stretches worth a second look. */
  method FindWindows(perSecond: map<int, Sample>, share: real, people: int) returns (out: seq<Window>)
    ensures AreWindows(Flagged(Candidates(perSecond, share, people)), perSecond, out)
  {
    var candidate := Candidates(perSecond, share, people);
    var seconds := Sort(candidate);
    var found := Gather(perSecond, candidate, seconds);
    out := Pad(found);
    PaddedAreWindows(Flagged(candidate), perSecond, found, out);
  }
}
