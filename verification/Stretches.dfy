/** Events: the stretches of a video in which people, or vehicles, were seen. */
module Stretches {
  import opened Sorting

  const GAP := 3

  datatype Kind = PEOPLE | VEHICLES

  /** How many were counted in a second, and the best score among them. */
  datatype Count = Count(n: int, score: real)

  datatype Reasons = Unset | Reasons(seenInSeconds: int, mostAtOnce: int)

  datatype Event = Event(kind: Kind, start: int, end: int, most: int, best: int, score: real, seconds: int,
                         reasons: Reasons)

  /** The seconds in which at least one was seen. */
  function Positive(counts: map<int, Count>): set<int> {
    set s | s in counts && counts[s].n > 0
  }

  // ---------------------------------------------------------------- what the stretches should be

  ghost predicate HasNext(p: set<int>, gap: int, x: int, b: int) {
    exists y :: y in p && x < y <= x + gap + 1 && y <= b
  }

  /** From `a` to `b`, no two neighbouring seconds of `p` have more than `gap` empty seconds between them. */
  ghost predicate Linked(p: set<int>, gap: int, a: int, b: int) {
    forall x {:trigger HasNext(p, gap, x, b)} :: x in p && a <= x < b ==> HasNext(p, gap, x, b)
  }

  function Members(p: set<int>, e: Event): set<int> {
    set s | s in p && e.start <= s <= e.end
  }

  /** More seen, or as many with a better score. */
  predicate Better(c: Count, d: Count) { c.n > d.n || (c.n == d.n && c.score > d.score) }

  /** One event describes one unbroken stretch of `p`. */
  ghost predicate Describes(p: set<int>, counts: map<int, Count>, gap: int, kind: Kind, e: Event)
    requires p <= counts.Keys
  {
    && e.kind == kind
    && e.start in p && e.end in p && e.start <= e.end
    && Linked(p, gap, e.start, e.end)
    && e.seconds == |Members(p, e)|
    && e.best in Members(p, e)
    && counts[e.best] == Count(e.most, e.score)
    && (forall s :: s in Members(p, e) ==>
          && counts[s].n <= e.most && (counts[s].n == e.most ==> counts[s].score <= e.score)
          && (s < e.best ==> counts[s].n < e.most || counts[s].score < e.score))
  }

  ghost predicate Apart(gap: int, e: Event, f: Event) {
    e.end < f.start && f.start - e.end > gap + 1
  }

  ghost predicate Covered(out: seq<Event>, s: int) {
    exists i :: 0 <= i < |out| && out[i].start <= s <= out[i].end
  }

  ghost predicate AllDescribe(p: set<int>, counts: map<int, Count>, gap: int, kind: Kind, out: seq<Event>)
    requires p <= counts.Keys
  {
    forall i :: 0 <= i < |out| ==> Describes(p, counts, gap, kind, out[i])
  }

  ghost predicate AllApart(gap: int, out: seq<Event>) {
    forall i, j :: 0 <= i < j < |out| ==> Apart(gap, out[i], out[j])
  }

  ghost predicate AllCovered(p: set<int>, out: seq<Event>) {
    forall s {:trigger Covered(out, s)} :: s in p ==> Covered(out, s)
  }

  /** `out` lists the stretches of `p`, in order, more than `gap` empty seconds apart, with none left out. */
  ghost predicate AreStretches(p: set<int>, counts: map<int, Count>, gap: int, kind: Kind, out: seq<Event>)
    requires p <= counts.Keys
  {
    AllDescribe(p, counts, gap, kind, out) && AllApart(gap, out) && AllCovered(p, out)
  }

  ghost predicate InOneEvent(out: seq<Event>, a: int, b: int) {
    exists i :: 0 <= i < |out| && out[i].start <= a && b <= out[i].end
  }

  /** The events are exactly the connected components of the positive seconds. */
  lemma EventsAreComponents(p: set<int>, counts: map<int, Count>, gap: int, kind: Kind, out: seq<Event>, a: int, b: int)
    requires p <= counts.Keys && AreStretches(p, counts, gap, kind, out)
    requires a in p && b in p && a <= b
    ensures InOneEvent(out, a, b) <==> Linked(p, gap, a, b)
  {
    if InOneEvent(out, a, b) {
      var i :| 0 <= i < |out| && out[i].start <= a && b <= out[i].end;
      LinkedInside(p, counts, gap, kind, out[i], a, b);
    }
    if Linked(p, gap, a, b) {
      assert Covered(out, a);
      var i :| 0 <= i < |out| && out[i].start <= a <= out[i].end;
      if out[i].end < b {
        assert HasNext(p, gap, out[i].end, b);
        var y :| y in p && out[i].end < y <= out[i].end + gap + 1;
        NextEventIsFar(p, counts, gap, kind, out, i, y);
      }
    }
  }

  /** An event begins, ends and is best in a second in which at least one was seen, it counts those seconds, and every
      such second is in an event. */
  lemma EventsHoldWhatWasSeen(counts: map<int, Count>, gap: int, kind: Kind, out: seq<Event>, i: nat)
    requires AreStretches(Positive(counts), counts, gap, kind, out) && i < |out|
    ensures var e := out[i];
            && e.start in counts && e.end in counts && e.best in counts
            && counts[e.start].n > 0 && counts[e.end].n > 0 && counts[e.best].n > 0
            && e.seconds == |set s | s in counts && counts[s].n > 0 && e.start <= s <= e.end|
    ensures forall s :: s in counts && counts[s].n > 0 ==> Covered(out, s)
  {
    assert Describes(Positive(counts), counts, gap, kind, out[i]);
    var e := out[i];
    assert Members(Positive(counts), e) == set s | s in counts && counts[s].n > 0 && e.start <= s <= e.end;
    assert forall s :: s in counts && counts[s].n > 0 ==> s in Positive(counts);
  }

  /** Inside a stretch the neighbour after x is at most gap + 1 away, and not past any later member. */
  lemma LinkedInside(p: set<int>, counts: map<int, Count>, gap: int, kind: Kind, e: Event, a: int, b: int)
    requires p <= counts.Keys && Describes(p, counts, gap, kind, e) && a in p && b in p && e.start <= a <= b <= e.end
    ensures Linked(p, gap, a, b)
  {
    forall x | x in p && a <= x < b
      ensures HasNext(p, gap, x, b)
    {
      assert HasNext(p, gap, x, e.end);
      var y :| y in p && x < y <= x + gap + 1 && y <= e.end;
      if b < y { assert x < b <= x + gap + 1; }
    }
  }

  /** A second after the end of an event belongs to a later one, more than gap + 1 away. */
  lemma NextEventIsFar(p: set<int>, counts: map<int, Count>, gap: int, kind: Kind, out: seq<Event>, i: nat, y: int)
    requires p <= counts.Keys && AreStretches(p, counts, gap, kind, out) && i < |out|
    requires y in p && out[i].end < y
    ensures y - out[i].end > gap + 1
  {
    assert Covered(out, y);
    var j :| 0 <= j < |out| && out[j].start <= y <= out[j].end;
    InOrder(gap, out, i, j);
    InOrder(gap, out, j, i);
    assert Describes(p, counts, gap, kind, out[i]);
  }

  lemma InOrder(gap: int, out: seq<Event>, i: nat, j: nat)
    requires AllApart(gap, out) && i < |out| && j < |out|
    ensures i < j ==> out[i].end < out[j].start && out[j].start - out[i].end > gap + 1
  {
    if i < j { assert Apart(gap, out[i], out[j]); }
  }

  // ---------------------------------------------------------------- the loop

  lemma MembersGrow(p: set<int>, s: int, e: Event, e': Event)
    requires (forall x :: x in p ==> x < s) && e.start <= s
    requires (forall x :: x in p ==> x <= e.end) && e'.start == e.start && e'.end == s
    ensures Members(p + {s}, e') == Members(p, e) + {s} && |Members(p + {s}, e')| == |Members(p, e)| + 1
  {
  }

  /** An event that ends before `s` is none the different for `s`. */
  lemma EarlierEventStays(p: set<int>, counts: map<int, Count>, gap: int, kind: Kind, e: Event, s: int)
    requires p + {s} <= counts.Keys && Describes(p, counts, gap, kind, e) && e.end < s
    ensures Describes(p + {s}, counts, gap, kind, e)
  {
    assert Members(p + {s}, e) == Members(p, e);
    forall x | x in p + {s} && e.start <= x < e.end
      ensures HasNext(p + {s}, gap, x, e.end)
    {
      assert HasNext(p, gap, x, e.end);
      var y :| y in p && x < y <= x + gap + 1 && y <= e.end;
      assert y in p + {s};
    }
  }

  /** `s` joins the last event. */
  function Joined(e: Event, s: int, c: Count): Event {
    var longer := e.(end := s, seconds := e.seconds + 1);
    if Better(c, Count(e.most, e.score)) then longer.(most := c.n, best := s, score := c.score) else longer
  }

  lemma JoinedIsLinked(p: set<int>, gap: int, start: int, end: int, s: int)
    requires Linked(p, gap, start, end) && (forall x :: x in p ==> x <= end) && end < s <= end + gap + 1
    ensures Linked(p + {s}, gap, start, s)
  {
    forall x | x in p + {s} && start <= x < s
      ensures HasNext(p + {s}, gap, x, s)
    {
      if x < end {
        assert HasNext(p, gap, x, end);
        var y :| y in p && x < y <= x + gap + 1 && y <= end;
        assert y in p + {s};
      } else {
        assert s in p + {s};
      }
    }
  }

  lemma JoinedDescribes(p: set<int>, counts: map<int, Count>, gap: int, kind: Kind, e: Event, s: int)
    requires p + {s} <= counts.Keys && Describes(p, counts, gap, kind, e)
    requires (forall x :: x in p ==> x <= e.end) && e.end < s <= e.end + gap + 1
    ensures Describes(p + {s}, counts, gap, kind, Joined(e, s, counts[s]))
  {
    MembersGrow(p, s, e, Joined(e, s, counts[s]));
    JoinedIsLinked(p, gap, e.start, e.end, s);
  }

  lemma AloneDescribes(p: set<int>, counts: map<int, Count>, gap: int, kind: Kind, s: int)
    requires p + {s} <= counts.Keys && forall x :: x in p ==> x < s
    ensures Describes(p + {s}, counts, gap, kind, Event(kind, s, s, counts[s].n, s, counts[s].score, 1, Unset))
  {
    var e := Event(kind, s, s, counts[s].n, s, counts[s].score, 1, Unset);
    assert Members(p + {s}, e) == {s};
  }

  lemma NewEventIsApart(p: set<int>, counts: map<int, Count>, gap: int, kind: Kind, out: seq<Event>, e: Event)
    requires p <= counts.Keys && AreStretches(p, counts, gap, kind, out) && out != []
    requires out[|out| - 1].end < e.start && e.start - out[|out| - 1].end > gap + 1
    ensures AllApart(gap, out + [e])
  {
    var last := |out| - 1;
    assert Describes(p, counts, gap, kind, out[last]);
    forall i, j | 0 <= i < j < |out + [e]|
      ensures Apart(gap, (out + [e])[i], (out + [e])[j])
    {
      if j <= last { assert Apart(gap, out[i], out[j]); } else if i < last { assert Apart(gap, out[i], out[last]); }
    }
  }

  /** Widening the last event, or adding one, leaves no second uncovered. */
  lemma StillCovered(p: set<int>, before: seq<Event>, out: seq<Event>, s: int)
    requires AllCovered(p, before)
    requires |before| <= |out| && out != [] && out[|out| - 1].end == s && out[|out| - 1].start <= s
    requires forall i :: 0 <= i < |before| ==> out[i].start == before[i].start && before[i].end <= out[i].end
    ensures AllCovered(p + {s}, out)
  {
    forall x | x in p + {s}
      ensures Covered(out, x)
    {
      if x in p {
        assert Covered(before, x);
        var i :| 0 <= i < |before| && before[i].start <= x <= before[i].end;
        assert out[i].start <= x <= out[i].end;
      } else {
        assert out[|out| - 1].start <= x <= out[|out| - 1].end;
      }
    }
  }

  /** The last loop: each event says in how many seconds it was seen, and the most at once. */
  method Reported(ghost p: set<int>, ghost counts: map<int, Count>, ghost gap: int, ghost kind: Kind, found: seq<Event>)
    returns (out: seq<Event>)
    requires p <= counts.Keys && AreStretches(p, counts, gap, kind, found)
    ensures AreStretches(p, counts, gap, kind, out) && |out| == |found|
    ensures forall i :: 0 <= i < |out| ==>
      out[i] == found[i].(reasons := Reasons(found[i].seconds, found[i].most))
  {
    out := found;
    for k := 0 to |out|
      invariant |out| == |found|
      invariant forall i :: 0 <= i < k ==> out[i] == found[i].(reasons := Reasons(found[i].seconds, found[i].most))
      invariant forall i :: k <= i < |out| ==> out[i] == found[i]
    {
      out := out[k := out[k].(reasons := Reasons(out[k].seconds, out[k].most))];
    }
    forall i | 0 <= i < |out|
      ensures Describes(p, counts, gap, kind, out[i])
    {
      assert Describes(p, counts, gap, kind, found[i]);
      assert Members(p, out[i]) == Members(p, found[i]);
    }
    forall i, j | 0 <= i < j < |out|
      ensures Apart(gap, out[i], out[j])
    {
      assert Apart(gap, found[i], found[j]);
    }
    forall s | s in p
      ensures Covered(out, s)
    {
      assert Covered(found, s);
      var i :| 0 <= i < |found| && found[i].start <= s <= found[i].end;
      assert out[i].start <= s <= out[i].end;
    }
  }

  /** The last event ends with the last of these seconds, or after it. */
  ghost predicate Reaches(p: set<int>, out: seq<Event>) {
    forall x :: x in p ==> out != [] && x <= out[|out| - 1].end
  }

  /** Where the loop stands: `out` lists the stretches of the seconds seen, the last of which ended the last event. */
  ghost predicate UpTo(p: set<int>, counts: map<int, Count>, gap: int, kind: Kind, out: seq<Event>)
    requires p <= counts.Keys
  {
    AreStretches(p, counts, gap, kind, out) && (out == [] ==> p == {}) && Reaches(p, out)
  }

  lemma LaterEventsStay(p: set<int>, counts: map<int, Count>, gap: int, kind: Kind, out: seq<Event>, s: int)
    requires p + {s} <= counts.Keys && UpTo(p, counts, gap, kind, out) && out != [] && out[|out| - 1].end < s
    ensures AllDescribe(p + {s}, counts, gap, kind, out)
  {
    forall i | 0 <= i < |out|
      ensures Describes(p + {s}, counts, gap, kind, out[i])
    {
      assert Describes(p, counts, gap, kind, out[i]);
      EarlierEventStays(p, counts, gap, kind, out[i], s);
    }
  }

  lemma JoinKeepsStretches(p: set<int>, counts: map<int, Count>, gap: int, kind: Kind, out: seq<Event>, s: int)
    requires p + {s} <= counts.Keys && UpTo(p, counts, gap, kind, out) && out != []
    requires out[|out| - 1].end < s <= out[|out| - 1].end + gap + 1
    ensures UpTo(p + {s}, counts, gap, kind, out[|out| - 1 := Joined(out[|out| - 1], s, counts[s])])
  {
    var last := out[|out| - 1];
    var longer := Joined(last, s, counts[s]);
    assert longer.start == last.start && longer.end == s;
    assert Describes(p, counts, gap, kind, last);
    LaterEventsStay(p, counts, gap, kind, out, s);
    JoinedDescribes(p, counts, gap, kind, last, s);
    OneDescribes(p + {s}, counts, gap, kind, out, longer);
    LongerStaysApart(gap, out, longer);
    LongerCovers(p, out, longer, s);
  }

  lemma OneDescribes(p: set<int>, counts: map<int, Count>, gap: int, kind: Kind, out: seq<Event>, e: Event)
    requires p <= counts.Keys && AllDescribe(p, counts, gap, kind, out) && out != []
    requires Describes(p, counts, gap, kind, e)
    ensures AllDescribe(p, counts, gap, kind, out[|out| - 1 := e])
  {
  }

  lemma LongerStaysApart(gap: int, out: seq<Event>, e: Event)
    requires AllApart(gap, out) && out != [] && e.start == out[|out| - 1].start
    ensures AllApart(gap, out[|out| - 1 := e])
  {
    var out' := out[|out| - 1 := e];
    forall i, j | 0 <= i < j < |out'|
      ensures Apart(gap, out'[i], out'[j])
    {
      assert Apart(gap, out[i], out[j]);
    }
  }

  lemma LongerCovers(p: set<int>, out: seq<Event>, e: Event, s: int)
    requires AllCovered(p, out) && Reaches(p, out) && out != []
    requires e.start == out[|out| - 1].start <= s == e.end && out[|out| - 1].end < s
    ensures AllCovered(p + {s}, out[|out| - 1 := e]) && Reaches(p + {s}, out[|out| - 1 := e])
  {
    StillCovered(p, out, out[|out| - 1 := e], s);
  }

  lemma NewEventKeepsStretches(p: set<int>, counts: map<int, Count>, gap: int, kind: Kind, out: seq<Event>, s: int)
    requires p + {s} <= counts.Keys && UpTo(p, counts, gap, kind, out)
    requires out != [] ==> out[|out| - 1].end < s && s - out[|out| - 1].end > gap + 1
    ensures UpTo(p + {s}, counts, gap, kind, out + [Event(kind, s, s, counts[s].n, s, counts[s].score, 1, Unset)])
  {
    var one := Event(kind, s, s, counts[s].n, s, counts[s].score, 1, Unset);
    AloneDescribes(p, counts, gap, kind, s);
    if out != [] {
      LaterEventsStay(p, counts, gap, kind, out, s);
      NewEventIsApart(p, counts, gap, kind, out, one);
    }
    StillCovered(p, out, out + [one], s);
  }

  /** The first k seconds. */
  ghost function Seen(seconds: seq<int>, k: nat): set<int>
    requires k <= |seconds|
  {
    set i | 0 <= i < k :: seconds[i]
  }

  lemma SeenGrows(seconds: seq<int>, k: nat)
    requires k < |seconds|
    ensures Seen(seconds, k + 1) == Seen(seconds, k) + {seconds[k]}
  {
  }

  lemma SeenAll(seconds: seq<int>, p: set<int>)
    requires forall s :: s in seconds <==> s in p
    ensures Seen(seconds, |seconds|) == p
  {
    forall s
      ensures s in Seen(seconds, |seconds|) <==> s in p
    {
      if s in p { var i :| 0 <= i < |seconds| && seconds[i] == s; }
    }
  }

  function NextEvents(out: seq<Event>, kind: Kind, gap: int, s: int, c: Count): seq<Event> {
    if out != [] && s - out[|out| - 1].end <= gap + 1 then out[|out| - 1 := Joined(out[|out| - 1], s, c)]
    else out + [Event(kind, s, s, c.n, s, c.score, 1, Unset)]
  }

  ghost predicate EndsBefore(out: seq<Event>, s: int) { out != [] ==> out[|out| - 1].end < s }

  lemma NextEventsAreStretches(p: set<int>, counts: map<int, Count>, gap: int, kind: Kind, out: seq<Event>, s: int)
    requires p + {s} <= counts.Keys && UpTo(p, counts, gap, kind, out) && EndsBefore(out, s)
    ensures UpTo(p + {s}, counts, gap, kind, NextEvents(out, kind, gap, s, counts[s]))
  {
    if out != [] && s - out[|out| - 1].end <= gap + 1 {
      JoinKeepsStretches(p, counts, gap, kind, out, s);
    } else {
      NewEventKeepsStretches(p, counts, gap, kind, out, s);
    }
  }

  lemma NextEventsEnd(out: seq<Event>, kind: Kind, gap: int, s: int, c: Count, later: int)
    requires s < later
    ensures EndsBefore(NextEvents(out, kind, gap, s, c), later)
  {
  }

  /** The loop over the seconds. */
  method Gather(kind: Kind, counts: map<int, Count>, gap: int, seconds: seq<int>) returns (out: seq<Event>)
    requires IsSortedSet(seconds, Positive(counts))
    ensures UpTo(Positive(counts), counts, gap, kind, out)
  {
    out := [];
    ghost var seen: set<int> := {};
    for k := 0 to |seconds|
      invariant seen == Seen(seconds, k) && seen <= counts.Keys
      invariant UpTo(seen, counts, gap, kind, out)
      invariant k < |seconds| ==> EndsBefore(out, seconds[k])
    {
      var second := seconds[k];
      assert second in Positive(counts);
      var c := counts[second];
      NextEventsAreStretches(seen, counts, gap, kind, out, second);
      if k + 1 < |seconds| { NextEventsEnd(out, kind, gap, second, c, seconds[k + 1]); }
      if out != [] && second - out[|out| - 1].end <= gap + 1 {
        out := out[|out| - 1 := Joined(out[|out| - 1], second, c)];
      } else {
        out := out + [Event(kind, second, second, c.n, second, c.score, 1, Unset)];
      }
      SeenGrows(seconds, k);
      seen := seen + {second};
    }
    SeenAll(seconds, Positive(counts));
  }

  /** (second -> (how many, best score)) as events of this kind. */
  method FindStretches(kind: Kind, counts: map<int, Count>, gap: int) returns (out: seq<Event>)
    ensures AreStretches(Positive(counts), counts, gap, kind, out)
    ensures forall i :: 0 <= i < |out| ==> out[i].reasons == Reasons(out[i].seconds, out[i].most)
  {
    var seconds := Sort(Positive(counts));
    out := Gather(kind, counts, gap, seconds);
    out := Reported(Positive(counts), counts, gap, kind, out);
  }
}
