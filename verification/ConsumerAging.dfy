/** When an entry that failed in a session that stays up is found by a scan, to be claimed or discarded: exactly when
    the session's history reads have left it alone for too long. */
module ConsumerAging {
  import opened StreamGroup
  import opened ConsumerProtocol
  import opened ConsumerProofs
  import opened ConsumerRuns

  // ---------------------------------------------------------------- which entries a listing reaches

  function Smaller(keep: set<Id>, from: Id, id: Id): set<Id> {
    set x | x in keep && from <= x < id
  }

  lemma SmallerFromNext(keep: set<Id>, from: Id, id: Id)
    requires from < id
    ensures |Smaller(keep, from, id)| == |Smaller(keep, from + 1, id)| + if from in keep then 1 else 0
  {
    if from in keep {
      assert Smaller(keep, from, id) == {from} + Smaller(keep, from + 1, id);
    } else {
      assert Smaller(keep, from, id) == Smaller(keep, from + 1, id);
    }
  }

  lemma ListedFromNext(keep: set<Id>, from: Id, id: Id, to: Id, limit: nat)
    requires from < id < to && limit > 0
    ensures id in FirstIds(keep, from, to, limit)
            <==> id in FirstIds(keep, from + 1, to, if from in keep then limit - 1 else limit)
  {
  }

  /** A listing of so many entries reaches one exactly when it has fewer entries before it. */
  lemma {:induction false} ListedIff(keep: set<Id>, from: Id, id: Id, to: Id, limit: nat)
    requires id in keep && from <= id < to
    ensures id in FirstIds(keep, from, to, limit) <==> |Smaller(keep, from, id)| < limit
    decreases id - from
  {
    if from == id {
      assert Smaller(keep, from, id) == {};
      if limit > 0 { assert FirstIds(keep, from, to, limit)[0] == id; }
    } else if limit > 0 {
      SmallerFromNext(keep, from, id);
      ListedFromNext(keep, from, id, to, limit);
      ListedIff(keep, from + 1, id, to, if from in keep then limit - 1 else limit);
    }
  }

  predicate IsRead(g: Group, s: Session, id: Id) { id in HistoryIds(g, s, HISTORY_LIMIT) }

  /** A session's history read restarts the idle time of exactly the first ten entries it owns. */
  lemma HistoryRefreshesTheFirstTen(st: State, s: Session, now: int, id: Id)
    requires Partitioned(st) && Enabled(st, Event(History(s), now)) && id in st.group.pending
    ensures var e, st' := st.group.pending[id], Apply(st, Event(History(s), now));
            && id in st'.group.pending
            && st'.group.pending[id] == (if IsRead(st.group, s, id) then Entry(s, e.count + 1, now) else e)
            && (IsRead(st.group, s, id) <==>
                  e.owner == s && |Smaller(Owned(st.group, s), 0, id)| < HISTORY_LIMIT)
  {
    if id in Owned(st.group, s) { ListedIff(Owned(st.group, s), 0, id, st.group.next, HISTORY_LIMIT); }
  }

  // ---------------------------------------------------------------- which entry is started

  lemma {:induction false} FirstLeft(ids: seq<Id>, failed: set<Id>, id: Id)
    requires forall i, j :: 0 <= i < j < |ids| ==> ids[i] < ids[j]
    ensures var todo := Without(ids, failed);
            (todo != [] && todo[0] == id)
            <==> id in ids && id !in failed && forall x :: x in ids && x < id ==> x in failed
  {
    if ids != [] {
      assert forall x :: x in ids <==> x == ids[0] || x in ids[1..];
      if ids[0] in failed {
        FirstLeft(ids[1..], failed, id);
        assert Without(ids, failed) == Without(ids[1..], failed);
      } else {
        assert forall x :: x in ids ==> ids[0] <= x;
      }
    }
  }

  /** A listing that reaches an entry holds every entry before it. */
  lemma ListingHasNoGap(keep: set<Id>, to: Id, limit: nat, id: Id, x: Id)
    requires id in FirstIds(keep, 0, to, limit) && x in keep && x < id
    ensures x in FirstIds(keep, 0, to, limit)
  {
    FirstIdsAreFirst(keep, 0, to, limit);
  }

  /** A session's history read starts an entry exactly when it is among the first ten the session owns, has not failed
      there, and every entry it owns before that one has. So each of them is started in its turn. */
  lemma HistoryStartsIff(st: State, s: Session, now: int, id: Id)
    requires Enabled(st, Event(History(s), now))
    ensures Apply(st, Event(History(s), now)).workers[s].phase == Busy(id)
            <==> IsRead(st.group, s, id) && id !in st.workers[s].failed
                 && forall x :: x in Owned(st.group, s) && x < id ==> x in st.workers[s].failed
  {
    var ids, failed := HistoryIds(st.group, s, HISTORY_LIMIT), st.workers[s].failed;
    FirstIdsAreFirst(Owned(st.group, s), 0, st.group.next, HISTORY_LIMIT);
    FirstLeft(ids, failed, id);
    if id in ids {
      forall x | x in Owned(st.group, s) && x < id
        ensures x in ids
      {
        ListingHasNoGap(Owned(st.group, s), st.group.next, HISTORY_LIMIT, id, x);
      }
    }
  }

  // ---------------------------------------------------------------- an entry that failed and is let be

  /** No worker has the message on a list it made before. */
  ghost predicate Unlisted(w: Worker, id: Id) {
    match w.phase
    case Scanned(dead, stale, _) => id !in dead && id !in stale
    case Claiming(stale, _) => id !in stale
    case Busy(other) => other != id
    case Succeeded(other) => other != id
    case _ => true
  }

  /** The entry is s's, failed there, and nobody is about to do anything to it. */
  ghost predicate LetBe(st: State, s: Session, id: Id) {
    && id in st.group.pending && st.group.pending[id].owner == s
    && s in st.workers && id in st.workers[s].failed
    && forall w :: w in st.workers ==> Unlisted(st.workers[w], id)
  }

  predicate IsLate(e: Entry, now: int) { now - e.last > IDLE_CLAIM_MS }

  /** The event is a scan that lists the entry, and finds it idle for too long. */
  predicate Finds(st: State, e: Event, id: Id) {
    e.step.Scan? && id in XPending(st.group, SCAN_LIMIT) && IsLate(st.group.pending[id], e.now)
  }

  /** The entry after an event that leaves it be. */
  function EntryAfter(st: State, e: Event, s: Session, id: Id): Entry
    requires id in st.group.pending
  {
    if e.step == History(s) && IsRead(st.group, s, id) then Entry(s, st.group.pending[id].count + 1, e.now)
    else st.group.pending[id]
  }

  lemma StepLeavesEntry(st: State, e: Event, s: Session, id: Id)
    requires Partitioned(st) && LetBe(st, s, id) && Enabled(st, e)
    ensures id in Apply(st, e).group.pending && Apply(st, e).group.pending[id] == EntryAfter(st, e, s, id)
  {
    if e.step.History? {
      HistoryRefreshesTheFirstTen(st, e.step.s, e.now, id);
    } else if e.step.DeadLetter? || e.step.Claim? || e.step.Ack? {
      assert Unlisted(st.workers[e.step.s], id);
    }
  }

  /** Its session does not start it again. */
  lemma HistoryPassesOver(st: State, s: Session, id: Id, w: Session, now: int)
    requires Partitioned(st) && LetBe(st, s, id) && Enabled(st, Event(History(w), now))
    ensures Unlisted(Apply(st, Event(History(w), now)).workers[w], id)
  {
    if Retriable(st.group, w, st.workers[w].failed) != [] { HistoryStartsItsOwn(st, w); }
  }

  lemma StepKeepsUnlisted(st: State, e: Event, s: Session, id: Id, w: Session)
    requires Partitioned(st) && LetBe(st, s, id) && Enabled(st, e) && !Finds(st, e, id) && w in Apply(st, e).workers
    ensures Unlisted(Apply(st, e).workers[w], id)
  {
    if w in st.workers { assert Unlisted(st.workers[w], id); }
    if e.step.History? && e.step.s == w { HistoryPassesOver(st, s, id, w, e.now); }
  }

  lemma StepKeepsFailed(st: State, e: Event, s: Session, id: Id)
    requires LetBe(st, s, id) && Enabled(st, e)
    ensures s in Apply(st, e).workers && id in Apply(st, e).workers[s].failed
  {
    assert Unlisted(st.workers[s], id);
  }

  /** Any event but a scan that finds it lets it be. */
  lemma StepLetsBe(st: State, e: Event, s: Session, id: Id)
    requires Partitioned(st) && LetBe(st, s, id) && Enabled(st, e) && !Finds(st, e, id)
    ensures LetBe(Apply(st, e), s, id)
  {
    StepLeavesEntry(st, e, s, id);
    StepKeepsFailed(st, e, s, id);
    forall w | w in Apply(st, e).workers
      ensures Unlisted(Apply(st, e).workers[w], id)
    {
      StepKeepsUnlisted(st, e, s, id, w);
    }
  }

  // ---------------------------------------------------------------- over runs

  /** When s's history reads last reached the entry, if they had last done so, or it was last delivered, at time t. */
  ghost function LastRead(st: State, es: seq<Event>, st': State, s: Session, id: Id, t: int): int
    requires Leads(st, es, st')
    decreases |es|
  {
    if es == [] then t
    else LastRead(Apply(st, es[0]), es[1..], st', s, id,
                  if es[0].step == History(s) && IsRead(st.group, s, id) then es[0].now else t)
  }

  /** Every scan that lists the entry comes no more than IDLE_CLAIM_MS after such a read. */
  ghost predicate ReadInTime(st: State, es: seq<Event>, st': State, s: Session, id: Id, t: int)
    requires Leads(st, es, st')
    decreases |es|
  {
    es == [] ||
    (&& !(es[0].step.Scan? && id in XPending(st.group, SCAN_LIMIT) && es[0].now - t > IDLE_CLAIM_MS)
     && ReadInTime(Apply(st, es[0]), es[1..], st', s, id,
                   if es[0].step == History(s) && IsRead(st.group, s, id) then es[0].now else t))
  }

  /** As long as its session reads it in time the entry is let be: nobody claims it, discards it or starts it, whatever
      its delivery count and whatever the other workers do. */
  lemma {:induction false} LetBeWhileReadInTime(st: State, es: seq<Event>, st': State, s: Session, id: Id)
    requires Inv(st) && LetBe(st, s, id) && Leads(st, es, st')
    requires ReadInTime(st, es, st', s, id, st.group.pending[id].last)
    ensures Inv(st') && LetBe(st', s, id)
    ensures st'.group.pending[id].last == LastRead(st, es, st', s, id, st.group.pending[id].last)
    decreases |es|
  {
    if es != [] {
      StepLetsBe(st, es[0], s, id);
      StepLeavesEntry(st, es[0], s, id);
      StepKeepsInv(st, es[0]);
      LetBeWhileReadInTime(Apply(st, es[0]), es[1..], st', s, id);
    }
  }

  ghost predicate OnDeadList(w: Worker, id: Id) { w.phase.Scanned? && id in w.phase.dead }

  ghost predicate OnStaleList(w: Worker, id: Id) { w.phase.Scanned? && id in w.phase.stale }

  /** And the next scan finds it exactly when it lists it and the session has not read it for longer than IDLE_CLAIM_MS,
      to be discarded if its deliveries are spent and claimed if they are not. */
  lemma FoundExactlyWhenNotRead(st: State, es: seq<Event>, st': State, s: Session, id: Id, w: Session, now: int)
    requires Inv(st) && LetBe(st, s, id) && Leads(st, es, st')
    requires ReadInTime(st, es, st', s, id, st.group.pending[id].last)
    requires Enabled(st', Event(Scan(w), now))
    ensures var found := now - LastRead(st, es, st', s, id, st.group.pending[id].last) > IDLE_CLAIM_MS
                         && |Smaller(st'.group.pending.Keys, 0, id)| < SCAN_LIMIT;
            var worker := Apply(st', Event(Scan(w), now)).workers[w];
            && id in st'.group.pending
            && (OnDeadList(worker, id) <==> found && st'.group.pending[id].count >= MAX_DELIVERY_ATTEMPTS)
            && (OnStaleList(worker, id) <==> found && st'.group.pending[id].count < MAX_DELIVERY_ATTEMPTS)
  {
    LetBeWhileReadInTime(st, es, st', s, id);
    ListedIff(st'.group.pending.Keys, 0, id, st'.group.next, SCAN_LIMIT);
  }

  // ---------------------------------------------------------------- eleven failed messages in one session

  /** Session 0 holds the first `next` of eleven messages, all failed there, and nothing else has happened. */
  function Holding(b: State, clock: int, next: nat, pending: map<Id, Entry>, phase: Phase, failed: set<Id>): State {
    b.(clock := clock, group := Group(11, next, pending), workers := map[0 := Worker(phase, failed)], dead := map[])
  }

  ghost predicate AllHeld(pending: map<Id, Entry>, next: nat) {
    && next <= 11 && (forall id: Id :: id in pending <==> id < next)
    && forall id :: id in pending ==> pending[id].owner == 0
  }

  /** None is late at this time but perhaps the eleventh. */
  ghost predicate NoneLate(pending: map<Id, Entry>, now: int) {
    forall id :: id in pending && id < 10 ==> !IsLate(pending[id], now)
  }

  function Refreshed(pending: map<Id, Entry>, now: int): map<Id, Entry> {
    map id | id in pending :: if id < 10 then Entry(0, pending[id].count + 1, now) else pending[id]
  }

  lemma {:induction false} SmallerAll(next: nat, keep: set<Id>, from: Id, id: Id)
    requires from <= id <= next && forall x: Id :: x in keep <==> x < next
    ensures |Smaller(keep, from, id)| == id - from
    decreases id - from
  {
    if from == id {
      assert Smaller(keep, from, id) == {};
    } else {
      SmallerFromNext(keep, from, id);
      SmallerAll(next, keep, from + 1, id);
    }
  }

  /** The history read reaches the first ten. */
  lemma TenAreRead(g: Group, id: Id)
    requires AllHeld(g.pending, g.next) && id in g.pending
    ensures IsRead(g, 0, id) <==> id < 10
  {
    assert Owned(g, 0) == g.pending.Keys;
    ListedIff(Owned(g, 0), 0, id, g.next, HISTORY_LIMIT);
    SmallerAll(g.next, Owned(g, 0), 0, id);
  }

  lemma TenAreRefreshed(g: Group, now: int)
    requires AllHeld(g.pending, g.next)
    ensures XReadHistory(g, 0, HISTORY_LIMIT, now).pending == Refreshed(g.pending, now)
  {
    forall id | id in g.pending
      ensures IsRead(g, 0, id) <==> id < 10
    {
      TenAreRead(g, id);
    }
  }

  lemma NoMembers(ids: seq<Id>)
    ensures (forall id: Id :: id !in ids) ==> ids == []
  {
    if ids != [] { assert ids[0] in ids; }
  }

  /** The history read starts nothing: all it lists failed here. */
  lemma HistoryStartsNothing(b: State, clock: int, next: nat, pending: map<Id, Entry>, failed: set<Id>)
    requires AllHeld(pending, next) && pending.Keys <= failed
    ensures var st := Holding(b, clock, next, pending, Draining, failed);
            Apply(st, Event(History(0), clock)) == Holding(b, clock, next, Refreshed(pending, clock), Reading, failed)
  {
    var st := Holding(b, clock, next, pending, Draining, failed);
    TenAreRefreshed(st.group, clock);
    NoMembers(Retriable(st.group, 0, failed));
    assert Apply(st, Event(History(0), clock)).workers == map[0 := Worker(Reading, failed)];
  }

  /** A pass in which the scan finds nothing, up to the history read. */
  lemma QuietPass(b: State, clock: int, next: nat, pending: map<Id, Entry>, failed: set<Id>, now: int)
    requires Reachable(Holding(b, clock, next, pending, Top, failed), true) && clock <= now
    requires AllHeld(pending, next) && pending.Keys <= failed
    requires forall id :: id in pending ==> !IsLate(pending[id], now)
    ensures Reachable(Holding(b, now, next, Refreshed(pending, now), Reading, failed), true)
  {
    var st := Holding(b, clock, next, pending, Top, failed);
    ReachStep(st, Event(Scan(0), now), true);
    QuietScan(b, clock, next, pending, failed, now);
    var scanned := Holding(b, now, next, pending, Scanned([], [], now), failed);
    ReachStep(scanned, Event(DeadLetter(0), now), true);
    QuietClear(b, now, next, pending, failed);
    var claiming := Holding(b, now, next, pending, Claiming([], now), failed);
    ReachStep(claiming, Event(Claim(0), now), true);
    QuietClaim(b, now, next, pending, failed);
    ReachStep(Holding(b, now, next, pending, Draining, failed), Event(History(0), now), true);
    HistoryStartsNothing(b, now, next, pending, failed);
  }

  lemma QuietScan(b: State, clock: int, next: nat, pending: map<Id, Entry>, failed: set<Id>, now: int)
    requires AllHeld(pending, next) && clock <= now && forall id :: id in pending ==> !IsLate(pending[id], now)
    ensures var st := Holding(b, clock, next, pending, Top, failed);
            Apply(st, Event(Scan(0), now)) == Holding(b, now, next, pending, Scanned([], [], now), failed)
  {
  }

  lemma QuietClear(b: State, now: int, next: nat, pending: map<Id, Entry>, failed: set<Id>)
    ensures var st := Holding(b, now, next, pending, Scanned([], [], now), failed);
            Apply(st, Event(DeadLetter(0), now)) == Holding(b, now, next, pending, Claiming([], now), failed)
  {
    var st := Holding(b, now, next, pending, Scanned([], [], now), failed);
    assert Apply(st, Event(DeadLetter(0), now)).group.pending == pending;
  }

  lemma QuietClaim(b: State, now: int, next: nat, pending: map<Id, Entry>, failed: set<Id>)
    ensures var st := Holding(b, now, next, pending, Claiming([], now), failed);
            Apply(st, Event(Claim(0), now)) == Holding(b, now, next, pending, Draining, failed)
  {
    var st := Holding(b, now, next, pending, Claiming([], now), failed);
    assert Apply(st, Event(Claim(0), now)).group.pending == pending;
  }

  lemma {:induction false} AddAll(n: nat)
    ensures Reachable(INIT.(group := Group(n, 0, map[])), true)
  {
    if n == 0 {
      ReachInit();
      assert INIT.(group := Group(0, 0, map[])) == INIT;
    } else {
      AddAll(n - 1);
      ReachStep(INIT.(group := Group(n - 1, 0, map[])), Event(Add, 0), true);
    }
  }

  /** The session reads the next new message and fails it. */
  lemma NextFails(b: State, next: nat, pending: map<Id, Entry>, failed: set<Id>) returns (b': State)
    requires next < 11 && Reachable(Holding(b, 0, next, pending, Reading, failed), true)
    ensures Reachable(Holding(b', 0, next + 1, pending[next := Entry(0, 1, 0)], Top, failed + {next}), true)
  {
    var st := Holding(b, 0, next, pending, Reading, failed);
    ReachStep(st, Event(New(0), 0), true);
    b' := b.(starts := b.starts + multiset{next}, startedBy := b.startedBy + {(next, 0)});
    var busy := Holding(b', 0, next + 1, pending[next := Entry(0, 1, 0)], Busy(next), failed);
    assert Apply(st, Event(New(0), 0)) == busy;
    ReachStep(busy, Event(Return(0, false), 0), true);
    assert Apply(busy, Event(Return(0, false), 0))
        == Holding(b', 0, next + 1, pending[next := Entry(0, 1, 0)], Top, failed + {next});
  }

  lemma {:induction false} FailAll(n: nat) returns (b: State, pending: map<Id, Entry>, failed: set<Id>)
    requires n <= 11
    ensures Reachable(Holding(b, 0, n, pending, Top, failed), true)
    ensures AllHeld(pending, n) && pending.Keys <= failed
    ensures forall id :: id in pending ==> pending[id].last == 0
    ensures n == 11 ==> pending[10].count == 1
    decreases n
  {
    if n == 0 {
      AddAll(11);
      var st := INIT.(group := Group(11, 0, map[]));
      ReachStep(st, Event(Join(0), 0), true);
      b, pending, failed := INIT, map[], {};
      assert Apply(st, Event(Join(0), 0)) == Holding(b, 0, 0, map[], Top, {});
    } else {
      var b0, pending0, failed0 := FailAll(n - 1);
      QuietPass(b0, 0, n - 1, pending0, failed0, 0);
      b := NextFails(b0, n - 1, Refreshed(pending0, 0), failed0);
      pending, failed := Refreshed(pending0, 0)[n - 1 := Entry(0, 1, 0)], failed0 + {n - 1};
    }
  }

  /** Eleven messages failed in session 0, which is up; the eleventh has this many deliveries. */
  ghost predicate Eleven(st: State, count: nat) {
    exists b, pending, failed ::
      && st == Holding(b, st.clock, 11, pending, Top, failed)
      && HeldSince(pending, failed, count, st.clock)
  }

  ghost predicate HeldSince(pending: map<Id, Entry>, failed: set<Id>, count: nat, clock: int) {
    && AllHeld(pending, 11) && pending.Keys <= failed && pending[10].count == count
    && forall id :: id in pending ==> pending[id].last == clock
  }

  /** Nothing new to read: the pass ends. */
  lemma NothingNew(b: State, clock: int, pending: map<Id, Entry>, failed: set<Id>)
    requires Reachable(Holding(b, clock, 11, pending, Reading, failed), true)
    ensures Reachable(Holding(b, clock, 11, pending, Top, failed), true)
  {
    var st := Holding(b, clock, 11, pending, Reading, failed);
    ReachStep(st, Event(New(0), clock), true);
    assert Apply(st, Event(New(0), clock)) == Holding(b, clock, 11, pending, Top, failed);
  }

  lemma OneIsLate(g: Group, ids: seq<Id>, one: Id, now: int)
    requires (forall id :: id in ids ==> id in g.pending) && one in ids && IsLate(g.pending[one], now)
    requires forall id :: id in ids && id != one ==> !IsLate(g.pending[id], now)
    ensures forall id :: id in DeadIds(g, ids, now) <==> id == one && g.pending[one].count >= MAX_DELIVERY_ATTEMPTS
    ensures forall id :: id in StaleIds(g, ids, now) <==> id == one && g.pending[one].count < MAX_DELIVERY_ATTEMPTS
  {
  }

  /** The scan of the second pass: the eleventh is the only one late. */
  lemma OnlyTheEleventhIsLate(g: Group, now: int)
    requires g.next == 11 && AllHeld(g.pending, 11) && NoneLate(g.pending, now) && IsLate(g.pending[10], now)
    ensures var dead, stale := DeadIds(g, XPending(g, SCAN_LIMIT), now), StaleIds(g, XPending(g, SCAN_LIMIT), now);
            && (forall id :: id in dead <==> id == 10 && g.pending[10].count >= MAX_DELIVERY_ATTEMPTS)
            && (forall id :: id in stale <==> id == 10 && g.pending[10].count < MAX_DELIVERY_ATTEMPTS)
  {
    ListedIff(g.pending.Keys, 0, 10, 11, SCAN_LIMIT);
    SmallerAll(11, g.pending.Keys, 0, 10);
    OneIsLate(g, XPending(g, SCAN_LIMIT), 10, now);
  }

  lemma LateScan(b: State, clock: int, pending: map<Id, Entry>, failed: set<Id>, now: int)
    returns (dead: seq<Id>, stale: seq<Id>)
    requires Reachable(Holding(b, clock, 11, pending, Top, failed), true) && clock <= now
    requires AllHeld(pending, 11) && NoneLate(pending, now) && IsLate(pending[10], now)
    ensures Reachable(Holding(b, now, 11, pending, Scanned(dead, stale, now), failed), true)
    ensures forall id :: id in dead <==> id == 10 && pending[10].count >= MAX_DELIVERY_ATTEMPTS
    ensures forall id :: id in stale <==> id == 10 && pending[10].count < MAX_DELIVERY_ATTEMPTS
  {
    ReachStep(Holding(b, clock, 11, pending, Top, failed), Event(Scan(0), now), true);
    OnlyTheEleventhIsLate(Group(11, 11, pending), now);
    ScanLists(b, clock, pending, failed, now);
    var g := Group(11, 11, pending);
    dead, stale := DeadIds(g, XPending(g, SCAN_LIMIT), now), StaleIds(g, XPending(g, SCAN_LIMIT), now);
  }

  lemma ScanLists(b: State, clock: int, pending: map<Id, Entry>, failed: set<Id>, now: int)
    requires clock <= now
    ensures var st, g := Holding(b, clock, 11, pending, Top, failed), Group(11, 11, pending);
            var dead, stale := DeadIds(g, XPending(g, SCAN_LIMIT), now), StaleIds(g, XPending(g, SCAN_LIMIT), now);
            Apply(st, Event(Scan(0), now)) == Holding(b, now, 11, pending, Scanned(dead, stale, now), failed)
  {
    var st, g := Holding(b, clock, 11, pending, Top, failed), Group(11, 11, pending);
    assert st.group == g;
    var scanned := Apply(st, Event(Scan(0), now));
    assert scanned == Scanning(st.(clock := now), 0);
    assert scanned.workers == Holding(b, now, 11, pending, scanned.workers[0].phase, failed).workers;
  }

  /** With deliveries left it is claimed, by the very session that holds it. */
  lemma LateClaim(b: State, now: int, pending: map<Id, Entry>, failed: set<Id>, dead: seq<Id>, stale: seq<Id>)
    requires Reachable(Holding(b, now, 11, pending, Scanned(dead, stale, now), failed), true)
    requires AllHeld(pending, 11) && IsLate(pending[10], now)
    requires dead == [] && forall id :: id in stale <==> id == 10
    ensures Reachable(Holding(b, now, 11, pending[10 := Entry(0, pending[10].count + 1, now)], Draining, failed), true)
  {
    var st := Holding(b, now, 11, pending, Scanned(dead, stale, now), failed);
    ReachStep(st, Event(DeadLetter(0), now), true);
    var claiming := Holding(b, now, 11, pending, Claiming(stale, now), failed);
    LateClear(b, now, pending, failed, stale);
    ReachStep(claiming, Event(Claim(0), now), true);
    var claimed := Apply(claiming, Event(Claim(0), now));
    assert claimed.group.pending == pending[10 := Entry(0, pending[10].count + 1, now)];
    assert claimed == Holding(b, now, 11, pending[10 := Entry(0, pending[10].count + 1, now)], Draining, failed);
  }

  lemma LateClear(b: State, now: int, pending: map<Id, Entry>, failed: set<Id>, stale: seq<Id>)
    ensures var st := Holding(b, now, 11, pending, Scanned([], stale, now), failed);
            Apply(st, Event(DeadLetter(0), now)) == Holding(b, now, 11, pending, Claiming(stale, now), failed)
  {
    var st := Holding(b, now, 11, pending, Scanned([], stale, now), failed);
    assert Apply(st, Event(DeadLetter(0), now)).group.pending == pending;
  }

  /** After a pass that finds nothing, 15 s later, the eleventh is the only one not read. */
  lemma FirstPass(st: State, count: nat) returns (b: State, pending: map<Id, Entry>, failed: set<Id>)
    requires Reachable(st, true) && Eleven(st, count)
    ensures Reachable(Holding(b, st.clock + 15_000, 11, pending, Top, failed), true)
    ensures AllHeld(pending, 11) && pending.Keys <= failed && pending[10] == Entry(0, count, st.clock)
    ensures forall id :: id in pending && id < 10 ==> pending[id].last == st.clock + 15_000
  {
    var before;
    b, before, failed :| st == Holding(b, st.clock, 11, before, Top, failed)
                         && HeldSince(before, failed, count, st.clock);
    var now := st.clock + 15_000;
    QuietPass(b, st.clock, 11, before, failed, now);
    pending := Refreshed(before, now);
    NothingNew(b, now, pending, failed);
  }

  /** The rest of a pass: the first ten are read, and there is nothing new. */
  lemma ReadsAndEnds(b: State, now: int, pending: map<Id, Entry>, failed: set<Id>)
    requires Reachable(Holding(b, now, 11, pending, Draining, failed), true)
    requires AllHeld(pending, 11) && pending.Keys <= failed
    ensures Reachable(Holding(b, now, 11, Refreshed(pending, now), Top, failed), true)
  {
    ReachStep(Holding(b, now, 11, pending, Draining, failed), Event(History(0), now), true);
    HistoryStartsNothing(b, now, 11, pending, failed);
    NothingNew(b, now, Refreshed(pending, now), failed);
  }

  lemma ElevenAgain(b: State, now: int, pending: map<Id, Entry>, failed: set<Id>)
    requires AllHeld(pending, 11) && pending.Keys <= failed && pending[10].last == now
    ensures Eleven(Holding(b, now, 11, Refreshed(pending, now), Top, failed), pending[10].count)
  {
    assert HeldSince(Refreshed(pending, now), failed, pending[10].count, now);
  }

  /** 15 s after that the eleventh is late: with deliveries left it is claimed, and the first ten are read again. */
  lemma SecondPass(b: State, clock: int, pending: map<Id, Entry>, failed: set<Id>, now: int) returns (st: State)
    requires Reachable(Holding(b, clock, 11, pending, Top, failed), true) && clock <= now
    requires AllHeld(pending, 11) && pending.Keys <= failed && NoneLate(pending, now) && IsLate(pending[10], now)
    requires pending[10].count < MAX_DELIVERY_ATTEMPTS
    ensures Reachable(st, true) && Eleven(st, pending[10].count + 1)
  {
    var dead, stale := LateScan(b, clock, pending, failed, now);
    NoMembers(dead);
    LateClaim(b, now, pending, failed, dead, stale);
    var claimed := pending[10 := Entry(0, pending[10].count + 1, now)];
    assert AllHeld(claimed, 11) && claimed.Keys <= failed;
    ReadsAndEnds(b, now, claimed, failed);
    ElevenAgain(b, now, claimed, failed);
    st := Holding(b, now, 11, Refreshed(claimed, now), Top, failed);
  }

  /** Two passes, 15 s apart: the first ten are read in both, the eleventh goes idle and is claimed. */
  lemma TwoPasses(st: State, count: nat) returns (st': State)
    requires Reachable(st, true) && Eleven(st, count) && count < MAX_DELIVERY_ATTEMPTS
    ensures Reachable(st', true) && Eleven(st', count + 1)
  {
    var b, pending, failed := FirstPass(st, count);
    st' := SecondPass(b, st.clock + 15_000, pending, failed, st.clock + 30_001);
  }

  /** So the eleventh of eleven messages that failed in a session is claimed by it again and again and, at its fifth
      delivery, discarded, all while the session is up and makes a pass every 15 s or so. */
  lemma EleventhAgesOut() returns (st: State)
    ensures Reachable(st, true) && 10 in st.dead && 10 !in st.group.pending
    ensures st.workers.Keys == {0} && st.workers[0].phase.Claiming?
    ensures forall id: Id :: id < 10 ==> id in st.group.pending
  {
    var b, pending, failed := FailAll(11);
    var st1 := Holding(b, 0, 11, pending, Top, failed);
    assert HeldSince(pending, failed, 1, 0);
    var st2 := TwoPasses(st1, 1);
    var st3 := TwoPasses(st2, 2);
    var st4 := TwoPasses(st3, 3);
    var st5 := TwoPasses(st4, 4);
    st := LastPasses(st5);
  }

  lemma LastPasses(st: State) returns (st': State)
    requires Reachable(st, true) && Eleven(st, MAX_DELIVERY_ATTEMPTS)
    ensures Reachable(st', true) && 10 in st'.dead && 10 !in st'.group.pending
    ensures st'.workers.Keys == {0} && st'.workers[0].phase.Claiming?
    ensures forall id: Id :: id < 10 ==> id in st'.group.pending
  {
    var b, pending, failed := FirstPass(st, MAX_DELIVERY_ATTEMPTS);
    var now := st.clock + 30_001;
    var dead, stale := LateScan(b, st.clock + 15_000, pending, failed, now);
    st' := Discarded(b, now, pending, failed, dead, stale);
  }

  lemma Discarded(b: State, now: int, pending: map<Id, Entry>, failed: set<Id>, dead: seq<Id>, stale: seq<Id>)
    returns (st': State)
    requires Reachable(Holding(b, now, 11, pending, Scanned(dead, stale, now), failed), true)
    requires AllHeld(pending, 11) && forall id :: id in dead <==> id == 10
    ensures Reachable(st', true) && 10 in st'.dead && 10 !in st'.group.pending
    ensures st'.workers.Keys == {0} && st'.workers[0].phase.Claiming?
    ensures forall id: Id :: id < 10 ==> id in st'.group.pending
  {
    var st := Holding(b, now, 11, pending, Scanned(dead, stale, now), failed);
    ReachStep(st, Event(DeadLetter(0), now), true);
    st' := Apply(st, Event(DeadLetter(0), now));
    assert Gone(st.group, dead) == {10};
  }
}
