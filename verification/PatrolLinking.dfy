/** The compliance pass: one tenant's patrol sessions matched to its scheduled tour occurrences, in one transaction. */
module PatrolLinking {
  import opened PatrolScore
  import opened Sorting
  import opened Wrappers

  const RECENT := 48 * 3600
  const TOLERANCE := 7200

  datatype Status = Pending | Missed | Completed | Incomplete | Late

  datatype Occurrence = Occurrence(route: nat, scheduledAt: int, windowEnd: int, status: Status, session: Option<int>,
                                   score: int, missed: int)

  datatype Session = Session(route: nat, completed: bool, startedAt: int, scanned: nat, total: int)

  type Occurrences = map<int, Occurrence>
  type Sessions = map<int, Session>

  function Distance(o: Occurrence, s: Session): nat {
    if o.scheduledAt > s.startedAt then o.scheduledAt - s.startedAt else s.startedAt - o.scheduledAt
  }

  predicate Waiting(o: Occurrence) { o.status.Pending? && o.session.None? }

  /** The occurrence waits for a session, and this one is on its route and close to its time. */
  predicate Fits(o: Occurrence, s: Session) {
    Waiting(o) && o.route == s.route && Distance(o, s) < TOLERANCE
  }

  function StatusOf(o: Occurrence, s: Session): Status {
    if s.startedAt > o.windowEnd then Late
    else if Score(s.scanned, s.total) >= 1000 then Completed
    else Incomplete
  }

  function Linked(o: Occurrence, id: int, s: Session): Occurrence {
    o.(session := Some(id), status := StatusOf(o, s), score := Score(s.scanned, s.total),
       missed := MissedCheckpoints(s.scanned, s.total))
  }

  predicate IsLinked(occs: Occurrences, id: int) { exists k :: k in occs && occs[k].session == Some(id) }

  predicate Recent(s: Session, now: int) { s.completed && s.startedAt >= now - RECENT }

  // ---------------------------------------------------------------- what a pass may do to an occurrence

  /** It marks it missed, its window being over, or gives it a session that fits, its window still being open. */
  ghost predicate Settles(o: Occurrence, o': Occurrence, sessions: Sessions, now: int) {
    && Waiting(o)
    && if o'.session.None? then o.windowEnd < now && o' == o.(status := Missed)
       else
         var id := o'.session.value;
         && o.windowEnd >= now && id in sessions && Recent(sessions[id], now) && Fits(o, sessions[id])
         && o' == Linked(o, id, sessions[id])
  }

  ghost predicate Moves(occs: Occurrences, occs': Occurrences, sessions: Sessions, now: int) {
    && occs'.Keys == occs.Keys
    && forall k :: k in occs ==> occs'[k] == occs[k] || Settles(occs[k], occs'[k], sessions, now)
  }

  /** A session stands at an occurrence no farther from its start than any that still waits. */
  ghost predicate IsClosest(occs: Occurrences, occs': Occurrences, sessions: Sessions, k: int, j: int)
    requires k in occs && k in occs' && j in occs'
  {
    Waiting(occs[k]) && occs'[k].session.Some? && occs'[k].session.value in sessions ==>
      var s := sessions[occs'[k].session.value];
      Fits(occs'[j], s) ==> Distance(occs'[k], s) <= Distance(occs'[j], s)
  }

  ghost predicate AllClosest(occs: Occurrences, occs': Occurrences, sessions: Sessions)
    requires occs'.Keys == occs.Keys
  {
    forall k, j :: k in occs' && j in occs' ==> IsClosest(occs, occs', sessions, k, j)
  }

  /** Occurrence k has been given a session. */
  ghost predicate Gained(occs: Occurrences, occs': Occurrences, k: int) {
    k in occs && k in occs' && occs[k].session.None? && occs'[k].session.Some?
  }

  /** The links made are to sessions that stood nowhere before, each at one occurrence. */
  ghost predicate NewLinksAreSingle(occs: Occurrences, occs': Occurrences) {
    && (forall k :: Gained(occs, occs', k) ==> !IsLinked(occs, occs'[k].session.value))
    && (forall j, k :: Gained(occs, occs', j) && Gained(occs, occs', k) && j != k ==>
          occs'[j].session != occs'[k].session)
  }

  /** The whole pass: only waiting occurrences move, those whose windows are over are missed, sessions that stood
      nowhere stand at one occurrence each, the closest, and no recent session is left beside an occurrence it fits. */
  ghost predicate Passed(occs: Occurrences, occs': Occurrences, sessions: Sessions, now: int) {
    && Moves(occs, occs', sessions, now) && NewLinksAreSingle(occs, occs') && AllClosest(occs, occs', sessions)
    && (forall k :: k in occs && Waiting(occs[k]) && occs[k].windowEnd < now ==> occs'[k].status.Missed?)
    && (forall id, k :: id in sessions && Recent(sessions[id], now) && k in occs' && Fits(occs'[k], sessions[id]) ==>
          IsLinked(occs', id))
  }

  /** The start is so many seconds from the scheduled time, one way or the other. */
  ghost predicate IsOff(o: Occurrence, s: Session, seconds: int) {
    seconds >= 0 && (o.scheduledAt - s.startedAt == seconds || s.startedAt - o.scheduledAt == seconds)
  }

  /** If the other is still open for the session, this one is no farther from its start. */
  ghost predicate IsNoFarther(o: Occurrence, other: Occurrence, s: Session) {
    IsOpenFor(other, s) ==> forall near, far :: IsOff(o, s, near) && IsOff(other, s, far) ==> near <= far
  }

  /** An occurrence not yet dealt with, on the session's route and less than the tolerance from its start. */
  ghost predicate IsOpenFor(o: Occurrence, s: Session) {
    && o.status == Pending && o.session == None && o.route == s.route
    && o.scheduledAt - 7200 < s.startedAt < o.scheduledAt + 7200
  }

  /** What a link leaves: late by the start alone, otherwise completed exactly when at most one checkpoint in 2000 was
      missed; the score and the checkpoints missed are the session's. */
  ghost predicate IsLinkOf(o: Occurrence, o': Occurrence, id: int, s: Session) {
    && o' == o.(session := Some(id), status := o'.status, score := o'.score, missed := o'.missed)
    && o'.status == (if s.startedAt > o.windowEnd then Late
                     else if s.total <= 0 || 2000 * (s.total - s.scanned) <= s.total then Completed else Incomplete)
    && IsScore(o'.score, s.scanned, s.total)
    && (if s.total <= 0 || s.scanned >= s.total then o'.missed == 0 else o'.missed + s.scanned == s.total)
  }

  /** Completed, and begun in the last 48 hours. */
  ghost predicate IsEligible(s: Session, now: int) { s.completed && now - s.startedAt <= 172_800 }

  /** What becomes of one occurrence. */
  ghost predicate IsDealtWith(o: Occurrence, o': Occurrence, sessions: Sessions, now: int) {
    if o.status != Pending || o.session != None then o' == o
    else if o.windowEnd < now then o' == o.(status := Missed)
    else
      || o' == o
      || (o'.session.Some? && o'.session.value in sessions
          && var s := sessions[o'.session.value];
             IsEligible(s, now) && IsOpenFor(o, s) && IsLinkOf(o, o', o'.session.value, s))
  }

  lemma LinkIsLink(o: Occurrence, id: int, s: Session)
    ensures IsLinkOf(o, Linked(o, id, s), id, s)
  {
    ScoreIsNearest(s.scanned, s.total);
    if s.total > 0 { FullScoreIff(s.scanned, s.total); }
  }

  /** The whole pass in terms of the rows: every occurrence is dealt with; none that is still open is closer to a
      session just linked, or could take one that is not. */
  lemma PassDealsWithAll(occs: Occurrences, occs': Occurrences, sessions: Sessions, now: int)
    requires Passed(occs, occs', sessions, now)
    ensures occs'.Keys == occs.Keys && forall k :: k in occs ==> IsDealtWith(occs[k], occs'[k], sessions, now)
    ensures forall k, j :: k in occs && occs[k].session == None && occs'[k].session.Some? && j in occs' ==>
              IsNoFarther(occs[k], occs'[j], sessions[occs'[k].session.value])
    ensures forall id, k :: id in sessions && IsEligible(sessions[id], now) && k in occs' ==>
              IsOpenFor(occs'[k], sessions[id]) ==> exists j :: j in occs' && occs'[j].session == Some(id)
  {
    forall k | k in occs
      ensures IsDealtWith(occs[k], occs'[k], sessions, now)
    {
      if occs'[k] != occs[k] {
        assert Settles(occs[k], occs'[k], sessions, now);
        if occs'[k].session.Some? { LinkIsLink(occs[k], occs'[k].session.value, sessions[occs'[k].session.value]); }
      }
    }
    forall k, j | k in occs && occs[k].session == None && occs'[k].session.Some? && j in occs'
      ensures IsNoFarther(occs[k], occs'[j], sessions[occs'[k].session.value])
    {
      assert occs'[k] == occs[k] || Settles(occs[k], occs'[k], sessions, now);
      assert IsClosest(occs, occs', sessions, k, j);
    }
    forall id, k | id in sessions && IsEligible(sessions[id], now) && k in occs' && IsOpenFor(occs'[k], sessions[id])
      ensures IsLinked(occs', id)
    {
      assert Recent(sessions[id], now) && Fits(occs'[k], sessions[id]);
    }
  }

  /** An occurrence marked late was begun after the pass's own clock: a session begun by then, matched within the open
      window, is never late. */
  lemma LateIsAheadOfTheClock(occs: Occurrences, occs': Occurrences, sessions: Sessions, now: int, k: int)
    requires Moves(occs, occs', sessions, now) && k in occs && Waiting(occs[k]) && occs'[k].session.Some?
    ensures var id := occs'[k].session.value;
            && id in sessions && occs[k].windowEnd >= now
            && (occs'[k].status.Late? ==> sessions[id].startedAt > now)
  {
  }

  // ---------------------------------------------------------------- one to one

  /** No session stands at two occurrences. */
  ghost predicate OneToOne(occs: Occurrences) {
    forall j, k :: j in occs && k in occs && j != k && occs[j].session.Some? ==> occs[j].session != occs[k].session
  }

  lemma PassKeepsOneToOne(occs: Occurrences, occs': Occurrences, sessions: Sessions, now: int)
    requires Passed(occs, occs', sessions, now) && OneToOne(occs)
    ensures OneToOne(occs')
  {
    forall j, k | j in occs' && k in occs' && j != k && occs'[j].session.Some?
      ensures occs'[j].session != occs'[k].session
    {
      KeptOrGained(occs, occs', sessions, now, j);
      KeptOrGained(occs, occs', sessions, now, k);
    }
  }

  lemma KeptOrGained(occs: Occurrences, occs': Occurrences, sessions: Sessions, now: int, k: int)
    requires Passed(occs, occs', sessions, now) && k in occs'
    ensures Gained(occs, occs', k) || occs'[k].session == occs[k].session
    ensures Gained(occs, occs', k) ==> !IsLinked(occs, occs'[k].session.value)
    ensures occs[k].session.Some? ==> IsLinked(occs, occs[k].session.value)
  {
    assert occs'[k] == occs[k] || Settles(occs[k], occs'[k], sessions, now);
  }

  /** A person resolves occurrence k by hand, to any status but pending, with any session or none. */
  datatype Resolution = Resolution(k: int, status: Status, session: Option<int>, score: int, missed: int)

  /** resolve_occurrence: an unknown occurrence or status is refused. */
  function Resolved(occs: Occurrences, r: Resolution): Occurrences {
    if r.k !in occs || r.status.Pending? then occs
    else occs[r.k := occs[r.k].(session := r.session, status := r.status, score := r.score, missed := r.missed)]
  }

  /** That row says what the person said, keeping its route and times; a refusal, and every other row, changes
      nothing. */
  lemma ResolutionIsWritten(occs: Occurrences, r: Resolution, k: int)
    requires k in occs
    ensures Resolved(occs, r).Keys == occs.Keys
    ensures var o, o' := occs[k], Resolved(occs, r)[k];
            if k == r.k && r.status != Pending then
              o' == Occurrence(o.route, o.scheduledAt, o.windowEnd, r.status, r.session, r.score, r.missed)
            else o' == o
  {
  }

  /** The session it names, if it names one, stands at no other occurrence. */
  ghost predicate IsSingle(occs: Occurrences, r: Resolution) {
    r.session.Some? ==> forall j :: j in occs && j != r.k ==> occs[j].session != r.session
  }

  /** No uniqueness is enforced: links that were one to one stay so exactly when the session named stands nowhere
      else. */
  lemma ResolveKeepsOneToOneIff(occs: Occurrences, r: Resolution)
    requires OneToOne(occs) && r.k in occs && !r.status.Pending?
    ensures OneToOne(Resolved(occs, r)) <==> IsSingle(occs, r)
  {
    var occs' := Resolved(occs, r);
    if !IsSingle(occs, r) {
      var j :| j in occs && j != r.k && occs[j].session == r.session;
      assert occs'[j].session == occs'[r.k].session;
    }
  }

  // ---------------------------------------------------------------- over any number of passes

  /** What else happens to the table: new occurrences wait, occurrences go, a deleted session is taken out. */
  ghost predicate Between(occs: Occurrences, occs': Occurrences) {
    && (forall k :: k in occs' && k !in occs ==> Waiting(occs'[k]))
    && (forall k :: k in occs' && k in occs ==> occs'[k] == occs[k] || occs'[k] == occs[k].(session := None))
  }

  datatype Change = Pass(sessions: Sessions, now: int) | Resolve(r: Resolution) | Meanwhile

  ghost predicate Changed(occs: Occurrences, occs': Occurrences, c: Change) {
    match c
    case Pass(sessions, now) => Passed(occs, occs', sessions, now)
    case Resolve(r) => occs' == Resolved(occs, r)
    case Meanwhile => Between(occs, occs')
  }

  ghost predicate ChangeAt(os: seq<Occurrences>, cs: seq<Change>, i: nat)
    requires i < |cs| < |os|
  {
    Changed(os[i], os[i + 1], cs[i])
  }

  ghost predicate Changes(os: seq<Occurrences>, cs: seq<Change>) {
    |os| == |cs| + 1 && forall i :: 0 <= i < |cs| ==> ChangeAt(os, cs, i)
  }

  lemma ChangesShrink(os: seq<Occurrences>, cs: seq<Change>, n: nat)
    requires Changes(os, cs) && n <= |cs|
    ensures Changes(os[..n + 1], cs[..n])
  {
    var before, most := os[..n + 1], cs[..n];
    forall j | 0 <= j < n
      ensures ChangeAt(before, most, j)
    {
      assert ChangeAt(os, cs, j);
    }
  }

  ghost predicate Always(os: seq<Occurrences>, k: int) { forall i :: 0 <= i < |os| ==> k in os[i] }

  ghost predicate Resolves(c: Change, k: int) { c.Resolve? && c.r.k == k }

  lemma ChangeKeepsStatus(occs: Occurrences, occs': Occurrences, c: Change, k: int)
    requires Changed(occs, occs', c) && k in occs && k in occs' && !occs[k].status.Pending?
    ensures !occs'[k].status.Pending?
    ensures !Resolves(c, k) ==> occs'[k].status == occs[k].status
  {
  }

  /** After any passes, resolutions by hand and other changes, on any table: an occurrence that has left pending never
      returns to it, and only a person's resolution of it changes the status it got. */
  lemma {:induction false} LeavesPendingOnce(os: seq<Occurrences>, cs: seq<Change>, i: nat, k: int)
    requires Changes(os, cs) && i <= |cs| && Always(os, k) && !os[i][k].status.Pending?
    ensures !os[|cs|][k].status.Pending?
    ensures (forall j :: i <= j < |cs| ==> !Resolves(cs[j], k)) ==> os[|cs|][k].status == os[i][k].status
    decreases |cs|
  {
    if i < |cs| {
      var n := |cs| - 1;
      ChangesShrink(os, cs, n);
      LeavesPendingOnce(os[..n + 1], cs[..n], i, k);
      assert ChangeAt(os, cs, n) && k in os[n] && k in os[n + 1];
      ChangeKeepsStatus(os[n], os[n + 1], cs[n], k);
    }
  }

  ghost predicate IsSingleChange(occs: Occurrences, c: Change) { c.Resolve? ==> IsSingle(occs, c.r) }

  lemma ChangeKeepsOneToOne(occs: Occurrences, occs': Occurrences, c: Change)
    requires Changed(occs, occs', c) && OneToOne(occs) && IsSingleChange(occs, c)
    ensures OneToOne(occs')
  {
    match c
    case Pass(sessions, now) => PassKeepsOneToOne(occs, occs', sessions, now);
    case Resolve(r) => if r.k in occs && !r.status.Pending? { ResolveKeepsOneToOneIff(occs, r); }
    case Meanwhile =>
  }

  /** Passes alone, and resolutions whose session stands nowhere else, keep the links one to one for ever. */
  lemma {:induction false} LinksStayOneToOne(os: seq<Occurrences>, cs: seq<Change>)
    requires Changes(os, cs) && OneToOne(os[0]) && forall i :: 0 <= i < |cs| ==> IsSingleChange(os[i], cs[i])
    ensures OneToOne(os[|cs|])
    decreases |cs|
  {
    if cs != [] {
      var n := |cs| - 1;
      ChangesShrink(os, cs, n);
      LinksStayOneToOne(os[..n + 1], cs[..n]);
      assert ChangeAt(os, cs, n);
      ChangeKeepsOneToOne(os[n], os[n + 1], cs[n]);
    }
  }

  // ---------------------------------------------------------------- the code

  /** Between two sessions of a pass that began with these occurrences. */
  ghost predicate Midway(before: Occurrences, occs: Occurrences, sessions: Sessions, now: int) {
    && Moves(before, occs, sessions, now) && NewLinksAreSingle(before, occs) && AllClosest(before, occs, sessions)
    && (forall k :: k in before && Waiting(before[k]) && before[k].windowEnd < now ==> occs[k].status.Missed?)
    && (forall k :: k in occs && Waiting(occs[k]) ==> occs[k] == before[k])
  }

  /** This session has its occurrence, or there is none that fits it. */
  ghost predicate Served(occs: Occurrences, id: int, s: Session) {
    IsLinked(occs, id) || forall k :: k in occs ==> !Fits(occs[k], s)
  }

  lemma LinkMoves(before: Occurrences, occs: Occurrences, sessions: Sessions, now: int, k: int, id: int)
    requires Midway(before, occs, sessions, now) && id in sessions && Recent(sessions[id], now)
    requires k in occs && Fits(occs[k], sessions[id])
    ensures Moves(before, occs[k := Linked(occs[k], id, sessions[id])], sessions, now)
  {
    var occs' := occs[k := Linked(occs[k], id, sessions[id])];
    assert Settles(before[k], occs'[k], sessions, now);
    forall j | j in before
      ensures occs'[j] == before[j] || Settles(before[j], occs'[j], sessions, now)
    {
    }
  }

  lemma LinkStaysSingle(before: Occurrences, occs: Occurrences, sessions: Sessions, now: int, k: int, id: int)
    requires Moves(before, occs, sessions, now) && NewLinksAreSingle(before, occs) && id in sessions
    requires k in occs && Fits(occs[k], sessions[id]) && !IsLinked(occs, id)
    ensures NewLinksAreSingle(before, occs[k := Linked(occs[k], id, sessions[id])])
  {
    var occs' := occs[k := Linked(occs[k], id, sessions[id])];
    LinksStay(before, occs, sessions, now, id);
    forall j | Gained(before, occs', j)
      ensures !IsLinked(before, occs'[j].session.value)
      ensures j != k ==> Gained(before, occs, j) && occs[j].session != Some(id)
    {
    }
  }

  lemma LinksStay(before: Occurrences, occs: Occurrences, sessions: Sessions, now: int, id: int)
    requires Moves(before, occs, sessions, now)
    ensures IsLinked(before, id) ==> IsLinked(occs, id)
  {
    if IsLinked(before, id) {
      var j :| j in before && before[j].session == Some(id);
      assert occs[j] == before[j];
    }
  }

  lemma ClosestStays(before: Occurrences, occs: Occurrences, sessions: Sessions, now: int, k: int, id: int)
    requires Moves(before, occs, sessions, now) && AllClosest(before, occs, sessions) && id in sessions
    requires k in occs && Fits(occs[k], sessions[id])
    requires forall j :: j in occs && Fits(occs[j], sessions[id]) ==>
               Distance(occs[k], sessions[id]) <= Distance(occs[j], sessions[id])
    ensures AllClosest(before, occs[k := Linked(occs[k], id, sessions[id])], sessions)
  {
    var occs' := occs[k := Linked(occs[k], id, sessions[id])];
    forall x, y | x in occs' && y in occs'
      ensures IsClosest(before, occs', sessions, x, y)
    {
      assert IsClosest(before, occs, sessions, x, y);
    }
  }

  lemma LinkKeeps(before: Occurrences, occs: Occurrences, sessions: Sessions, now: int, k: int, id: int)
    requires Midway(before, occs, sessions, now) && id in sessions && Recent(sessions[id], now)
    requires k in occs && Fits(occs[k], sessions[id]) && !IsLinked(occs, id)
    requires forall j :: j in occs && Fits(occs[j], sessions[id]) ==>
               Distance(occs[k], sessions[id]) <= Distance(occs[j], sessions[id])
    ensures Midway(before, occs[k := Linked(occs[k], id, sessions[id])], sessions, now)
  {
    LinkMoves(before, occs, sessions, now, k, id);
    LinkStaysSingle(before, occs, sessions, now, k, id);
    ClosestStays(before, occs, sessions, now, k, id);
  }

  lemma ServedStays(occs: Occurrences, k: int, o: Occurrence, id: int, s: Session)
    requires Served(occs, id, s) && k in occs && Waiting(occs[k]) && !Waiting(o)
    ensures Served(occs[k := o], id, s)
  {
    if IsLinked(occs, id) {
      var j :| j in occs && occs[j].session == Some(id);
      assert occs[k := o][j].session == Some(id);
    }
  }

  /** One tenant's tables. */
  class Tables {
    var occs: Occurrences
    var sessions: Sessions

    /** UPDATE … SET status = 'missed' … WHERE the window is over. */
    method Expire(now: int)
      modifies this`occs
      ensures Midway(old(occs), occs, sessions, now)
      ensures forall k :: k in occs ==> occs[k].session == old(occs)[k].session
    {
      occs := map k | k in occs ::
        if Waiting(occs[k]) && occs[k].windowEnd < now then occs[k].(status := Missed) else occs[k];
    }

    /** The occurrence on its route that waits for it and is closest to its start. */
    method Nearest(s: Session) returns (best: Option<int>)
      ensures best.None? ==> forall k :: k in occs ==> !Fits(occs[k], s)
      ensures best.Some? ==>
                && best.value in occs && Fits(occs[best.value], s)
                && forall k :: k in occs && Fits(occs[k], s) ==> Distance(occs[best.value], s) <= Distance(occs[k], s)
    {
      best := None;
      var left := set k | k in occs && Fits(occs[k], s);
      ghost var all := left;
      while left != {}
        invariant left <= all
        invariant best.None? ==> left == all
        invariant best.Some? ==>
                    && best.value in all
                    && forall k :: k in all && k !in left ==> Distance(occs[best.value], s) <= Distance(occs[k], s)
        decreases |left|
      {
        EmptyOrNot(left);
        var k :| k in left;
        if best.None? || Distance(occs[k], s) < Distance(occs[best.value], s) { best := Some(k); }
        left := left - {k};
      }
      assert best.None? ==> all == {};
      assert forall k :: k in occs && Fits(occs[k], s) ==> k in all;
    }

    /** One tenant's pass, as its transaction commits it. */
    method Pass(now: int)
      modifies this`occs
      ensures Passed(old(occs), occs, sessions, now)
    {
      ghost var before := occs;
      Expire(now);
      var left := set id | id in sessions && Recent(sessions[id], now) && !IsLinked(occs, id);
      ghost var all := left;
      while left != {}
        invariant Midway(before, occs, sessions, now) && left <= all
        invariant forall id :: id in left ==> !IsLinked(occs, id) && id in sessions && Recent(sessions[id], now)
        invariant forall id :: id in sessions && Recent(sessions[id], now) && id !in left ==>
                    Served(occs, id, sessions[id])
        decreases |left|
      {
        EmptyOrNot(left);
        var id :| id in left;
        var best := Nearest(sessions[id]);
        left := left - {id};
        if best.Some? { Link(before, best.value, id, left, now); }
      }
    }

    /** UPDATE … SET session_id … of the occurrence found. */
    method Link(ghost before: Occurrences, k: int, id: int, ghost left: set<int>, ghost now: int)
      requires Midway(before, occs, sessions, now) && id in sessions && Recent(sessions[id], now) && id !in left
      requires k in occs && Fits(occs[k], sessions[id]) && !IsLinked(occs, id)
      requires forall j :: j in occs && Fits(occs[j], sessions[id]) ==>
                 Distance(occs[k], sessions[id]) <= Distance(occs[j], sessions[id])
      requires forall x :: x in left ==> !IsLinked(occs, x)
      requires forall x :: x in sessions && Recent(sessions[x], now) && x !in left && x != id ==>
                 Served(occs, x, sessions[x])
      modifies this`occs
      ensures occs == old(occs)[k := Linked(old(occs)[k], id, sessions[id])]
      ensures Midway(before, occs, sessions, now)
      ensures forall x :: x in left ==> !IsLinked(occs, x)
      ensures forall x :: x in sessions && Recent(sessions[x], now) && x !in left ==> Served(occs, x, sessions[x])
    {
      LinkKeeps(before, occs, sessions, now, k, id);
      var o := Linked(occs[k], id, sessions[id]);
      forall x | x in sessions && Recent(sessions[x], now) && x !in left && x != id
        ensures Served(occs[k := o], x, sessions[x])
      {
        ServedStays(occs, k, o, x, sessions[x]);
      }
      occs := occs[k := o];
      assert occs[k].session == Some(id) && IsLinked(occs, id);
    }
  }
}
