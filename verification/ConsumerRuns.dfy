/** What whole runs of the consumer protocol promise, and runs that show the bounds are reached. */
module ConsumerRuns {
  import opened StreamGroup
  import opened ConsumerProtocol
  import opened ConsumerProofs

  /** At every moment of every run each message in the stream is in exactly one place; one is acknowledged only after
      process_fn returned for it, and discarded only when its delivery count had reached the limit. */
  lemma MessagesAreConserved(st: State, id: Id)
    requires Reachable(st, false) && id < st.group.added
    ensures multiset{id >= st.group.next, id in st.group.pending, id in st.done, id in st.dead}[true] == 1
    ensures id in st.done ==> id in st.succeeded
    ensures id in st.dead ==> st.dead[id] >= MAX_DELIVERY_ATTEMPTS
    ensures id in st.group.pending ==> st.group.pending[id].owner in st.workers
  {
    ReachableKeepsInv(st, false);
  }

  /** A message somebody began is never silently dropped, whoever crashed: until it is acknowledged or discarded it
      stays pending. */
  lemma BegunMessageIsNotLost(st: State, id: Id, s: Session)
    requires Reachable(st, false) && (id, s) in st.startedBy && id !in st.done && id !in st.dead
    ensures id in st.group.pending
  {
    ReachableKeepsInv(st, false);
  }

  /** After its acknowledgement a message is settled for good: it was processed, or discarded before that. */
  lemma AcknowledgementSettles(st: State, e: Event)
    requires Reachable(st, false) && Enabled(st, e) && e.step.Ack?
    ensures var st', id := Apply(st, e), st.workers[e.step.s].phase.id;
            && id !in st'.group.pending && (id in st'.done || id in st'.dead)
            && st'.workers[e.step.s].phase.Top? && id !in st'.workers[e.step.s].failed
  {
    ReachableKeepsInv(st, false);
    assert PhaseValid(st, e.step.s);
  }

  lemma SettledIsNotStarted(st: State, e: Event, id: Id)
    requires Partitioned(st) && Enabled(st, e) && id < st.group.next && id !in st.group.pending
    ensures Apply(st, e).starts[id] == st.starts[id]
  {
    if e.step.History? {
      var s := e.step.s;
      if Retriable(st.group, s, st.workers[s].failed) != [] { HistoryStartsItsOwn(st, s); }
    }
  }

  /** Once settled a message is never started again. */
  lemma SettledStaysSettled(st: State, e: Event, id: Id)
    requires Reachable(st, false) && Enabled(st, e) && (id in st.done || id in st.dead)
    ensures var st' := Apply(st, e);
            && (id in st.done <==> id in st'.done) && (id in st.dead <==> id in st'.dead)
            && st'.starts[id] == st.starts[id]
  {
    ReachableKeepsInv(st, false);
    assert id < st.group.next && id !in st.group.pending;
    SettledIsNotStarted(st, e, id);
    SettledStays(st, e, id);
  }

  lemma SettledStays(st: State, e: Event, id: Id)
    requires Partitioned(st) && Enabled(st, e) && id !in st.group.pending
    ensures id in st.done <==> id in Apply(st, e).done
    ensures id in st.dead <==> id in Apply(st, e).dead
  {
  }

  lemma ReachInit()
    ensures Reachable(INIT, true)
  {
    assert Run([INIT], []) && Prompt([INIT], []) && [INIT][0] == INIT;
  }

  lemma ReachStep(st: State, e: Event, prompt: bool)
    requires Reachable(st, prompt) && Enabled(st, e) && (prompt ==> PromptStep(st, e))
    ensures Reachable(Apply(st, e), prompt)
  {
    var sts, es :| Run(sts, es) && sts[|es|] == st && (prompt ==> Prompt(sts, es));
    var sts', es' := sts + [Apply(st, e)], es + [e];
    forall i | 0 <= i < |es'|
      ensures StepAt(sts', es', i)
    {
      if i < |es| { assert StepAt(sts, es, i); }
    }
    forall i | 0 <= i < |es'| && prompt
      ensures PromptAt(sts', es', i)
    {
      if i < |es| { assert PromptAt(sts, es, i); }
    }
    assert Run(sts', es') && sts'[|es'|] == Apply(st, e);
  }

  // ---------------------------------------------------------------- recovery

  /** A new session that joins and scans at one moment. */
  function JoinAndScan(st: State, s: Session, now: int): State {
    var ids := XPending(st.group, SCAN_LIMIT);
    st.(clock := now, workers := st.workers[s :=
      Worker(Scanned(DeadIds(st.group, ids, now), StaleIds(st.group, ids, now), now), {})])
  }

  lemma JoinAndScanIsReachable(st: State, s: Session, now: int, prompt: bool)
    requires Reachable(st, prompt) && s !in st.workers && st.clock <= now
    ensures Reachable(JoinAndScan(st, s, now), prompt)
  {
    var joined := Apply(st, Event(Join(s), now));
    ReachStep(st, Event(Join(s), now), prompt);
    ReachStep(joined, Event(Scan(s), now), prompt);
    JoinAndScanIsTwoSteps(st, s, now);
  }

  lemma JoinAndScanIsTwoSteps(st: State, s: Session, now: int)
    requires s !in st.workers && st.clock <= now
    ensures Apply(Apply(st, Event(Join(s), now)), Event(Scan(s), now)) == JoinAndScan(st, s, now)
  {
  }

  /** ... and then discards what it saw that is spent, still at that moment, */
  function Clearing(st: State, s: Session, now: int): State {
    var ids := XPending(st.group, SCAN_LIMIT);
    var dead := DeadIds(st.group, ids, now);
    st.(clock := now, workers := st.workers[s := Worker(Claiming(StaleIds(st.group, ids, now), now), {})],
    group := XAck(st.group, Gone(st.group, dead)), dead := WithDead(st.dead, st.group, Gone(st.group, dead)))
  }

  /** ... and claims what it saw that is idle. */
  function Arrival(st: State, s: Session, now: int): State {
    var cleared := Clearing(st, s, now);
    cleared.(workers := st.workers[s := Worker(Draining, {})],
    group := XClaim(cleared.group, s, IDLE_CLAIM_MS, StaleIds(st.group, XPending(st.group, SCAN_LIMIT), now), now))
  }

  lemma ArrivalIsReachable(st: State, s: Session, now: int, prompt: bool)
    requires Reachable(st, prompt) && s !in st.workers && st.clock <= now
    ensures Reachable(Arrival(st, s, now), prompt)
  {
    JoinAndScanIsReachable(st, s, now, prompt);
    ReachStep(JoinAndScan(st, s, now), Event(DeadLetter(s), now), prompt);
    ClearingIsNext(st, s, now);
    ReachStep(Clearing(st, s, now), Event(Claim(s), now), prompt);
    ArrivalIsNext(st, s, now);
  }

  lemma ClearingIsNext(st: State, s: Session, now: int)
    ensures Apply(JoinAndScan(st, s, now), Event(DeadLetter(s), now)) == Clearing(st, s, now)
  {
    var scanned := JoinAndScan(st, s, now);
    var cleared := DeadLettering(scanned, s);
    assert Apply(scanned, Event(DeadLetter(s), now)) == cleared;
    assert cleared.workers == Clearing(st, s, now).workers;
  }

  lemma ArrivalIsNext(st: State, s: Session, now: int)
    ensures Apply(Clearing(st, s, now), Event(Claim(s), now)) == Arrival(st, s, now)
  {
    var cleared := Clearing(st, s, now);
    var claimed := TakingOver(cleared, s);
    assert Apply(cleared, Event(Claim(s), now)) == claimed;
    assert claimed.workers == st.workers[s := Worker(Draining, {})];
  }

  /** What those steps do to a message: discarded if its deliveries are spent, taken over if it was idle too long. */
  lemma ArrivalSettlesOrTakes(st: State, s: Session, now: int, id: Id)
    requires s !in st.workers && st.clock <= now && id !in st.dead
    requires id in XPending(st.group, SCAN_LIMIT)
    ensures var st', e := Arrival(st, s, now), st.group.pending[id];
            if IsDead(e, now) then id !in st'.group.pending && id in st'.dead && st'.dead[id] == e.count
            else id in st'.group.pending && id !in st'.dead
                 && st'.group.pending[id] == if IsStale(e, now) then Entry(s, e.count + 1, now) else e
  {
  }

  lemma ArrivalKeepsTheRest(st: State, s: Session, now: int)
    requires s !in st.workers && st.clock <= now
    ensures var st' := Arrival(st, s, now);
            && st'.clock == now && st'.workers == st.workers[s := Worker(Draining, {})]
            && st'.starts == st.starts && st'.startedBy == st.startedBy
            && st'.group.added == st.group.added && st'.group.next == st.group.next
            && st'.group.pending.Keys <= st.group.pending.Keys
  {
  }

  lemma {:induction false} OldestIsListed(keep: set<Id>, from: Id, id: Id, to: Id, limit: nat)
    requires id in keep && from <= id < to && limit > 0 && forall other :: other in keep ==> id <= other
    ensures FirstIds(keep, from, to, limit) != [] && FirstIds(keep, from, to, limit)[0] == id
    decreases id - from
  {
    if from < id { OldestIsListed(keep, from + 1, id, to, limit); }
  }

  /** A history read by a session whose oldest entry has not failed there starts that entry. */
  lemma HistoryStartsTheOldest(st: State, s: Session, now: int, id: Id)
    requires s in st.workers && st.workers[s] == Worker(Draining, {}) && st.clock <= now && id < st.group.next
    requires id in Owned(st.group, s) && forall other :: other in Owned(st.group, s) ==> id <= other
    ensures var st' := Apply(st, Event(History(s), now));
            && st'.workers == st.workers[s := Worker(Busy(id), {})]
            && st'.starts == st.starts + multiset{id}
            && st'.group.pending[id] == Entry(s, st.group.pending[id].count + 1, now)
            && st'.group.pending.Keys == st.group.pending.Keys
            && st'.group.added == st.group.added && st'.group.next == st.group.next && st'.clock == now
  {
    OldestIsListed(Owned(st.group, s), 0, id, st.group.next, HISTORY_LIMIT);
    var ids := HistoryIds(st.group, s, HISTORY_LIMIT);
    assert Without(ids, {})[0] == ids[0];
    assert id in ids;
  }

  /** Session `s`, new since `st`, has taken message `id` over and is busy with it. */
  ghost predicate Restarted(st: State, st': State, s: Session, now: int, id: Id)
    requires id in st.group.pending
  {
    && st'.workers == st.workers[s := Worker(Busy(id), {})]
    && st'.starts == st.starts + multiset{id}
    && id in st'.group.pending && st'.group.pending[id] == Entry(s, st.group.pending[id].count + 2, now)
    && st'.group.pending.Keys <= st.group.pending.Keys && st'.clock == now
    && st'.group.added == st.group.added && st'.group.next == st.group.next
  }

  /** Whatever stopped workers were holding is not lost to the group: every entry among the first hundred that has been
      idle for longer than IDLE_CLAIM_MS is taken over by the next new worker, or discarded when its deliveries are
      spent. */
  lemma StaleIsTakenOver(st: State, s: Session, now: int, id: Id, prompt: bool)
    requires Reachable(st, prompt) && s !in st.workers && st.clock <= now
    requires id in XPending(st.group, SCAN_LIMIT) && now - st.group.pending[id].last > IDLE_CLAIM_MS
    ensures var st', e := Arrival(st, s, now), st.group.pending[id];
            && Reachable(st', prompt)
            && (if e.count >= MAX_DELIVERY_ATTEMPTS then id in st'.dead && id !in st'.group.pending
                else id in st'.group.pending && st'.group.pending[id] == Entry(s, e.count + 1, now))
  {
    ReachableKeepsInv(st, prompt);
    ArrivalIsReachable(st, s, now, prompt);
    ArrivalSettlesOrTakes(st, s, now, id);
  }

  lemma ArrivalOwnsTheStale(st: State, s: Session, now: int, id: Id)
    requires EntriesValid(st) && s !in st.workers && id in Owned(Arrival(st, s, now).group, s)
    ensures id in XPending(st.group, SCAN_LIMIT) && id in st.group.pending && IsStale(st.group.pending[id], now)
  {
  }

  /** No other entry the worker would take over comes before this one. */
  ghost predicate IsFirstStale(st: State, now: int, id: Id) {
    forall other :: other in XPending(st.group, SCAN_LIMIT) && IsStale(st.group.pending[other], now) ==> id <= other
  }

  /** And the first of those it took over it starts again at once. */
  lemma StaleMessageIsRecovered(st: State, s: Session, now: int, id: Id, prompt: bool)
    requires Reachable(st, prompt) && s !in st.workers && st.clock <= now
    requires id in XPending(st.group, SCAN_LIMIT) && IsStale(st.group.pending[id], now) && IsFirstStale(st, now, id)
    ensures var st' := Arrival(st, s, now);
            && Enabled(st', Event(History(s), now))
            && Reachable(Apply(st', Event(History(s), now)), prompt)
            && Restarted(st, Apply(st', Event(History(s), now)), s, now, id)
  {
    ReachableKeepsInv(st, prompt);
    StaleIsTakenOver(st, s, now, id, prompt);
    var st' := Arrival(st, s, now);
    ArrivalKeepsTheRest(st, s, now);
    forall other | other in Owned(st'.group, s)
      ensures id <= other
    {
      ArrivalOwnsTheStale(st, s, now, other);
    }
    TakenIsRestarted(st, st', s, now, id);
    ReachStep(st', Event(History(s), now), prompt);
  }

  lemma Recovered(st: State, s: Session, now: int, id: Id, prompt: bool) returns (st': State)
    requires Reachable(st, prompt) && s !in st.workers && st.clock <= now
    requires id in st.group.pending && now - st.group.pending[id].last > IDLE_CLAIM_MS
    requires forall other :: other in st.group.pending ==> id <= other
    requires st.group.pending[id].count < MAX_DELIVERY_ATTEMPTS
    ensures Reachable(st', prompt) && Restarted(st, st', s, now, id)
  {
    ReachableKeepsInv(st, prompt);
    OldestIsListed(st.group.pending.Keys, 0, id, st.group.next, SCAN_LIMIT);
    assert XPending(st.group, SCAN_LIMIT)[0] in XPending(st.group, SCAN_LIMIT);
    StaleMessageIsRecovered(st, s, now, id, prompt);
    st' := Apply(Arrival(st, s, now), Event(History(s), now));
  }

  lemma TakenIsRestarted(st: State, st': State, s: Session, now: int, id: Id)
    requires id in st.group.pending && id in st'.group.pending && id < st'.group.next
    requires forall other :: other in Owned(st'.group, s) ==> id <= other
    requires st'.clock == now && st'.workers == st.workers[s := Worker(Draining, {})]
    requires st'.starts == st.starts && st'.group.pending.Keys <= st.group.pending.Keys
    requires st'.group.added == st.group.added && st'.group.next == st.group.next
    requires st'.group.pending[id] == Entry(s, st.group.pending[id].count + 1, now)
    ensures Enabled(st', Event(History(s), now)) && Restarted(st, Apply(st', Event(History(s), now)), s, now, id)
  {
    assert id in Owned(st'.group, s);
    HistoryStartsTheOldest(st', s, now, id);
  }

  // ---------------------------------------------------------------- the bound is reached

  /** One message in the stream, pending with `count` deliveries after `starts` starts. */
  ghost predicate OnlyMessage(st: State, count: nat, starts: nat) {
    && st.group.added == 1 && st.group.next == 1 && st.group.pending.Keys == {0}
    && st.group.pending[0].count == count && st.starts[0] == starts
    && st.group.pending[0].last <= st.clock
  }

  lemma FirstArrival() returns (st: State)
    ensures Reachable(st, true) && st.workers == map[0 := Worker(Draining, {})] && st.clock == 0
    ensures st.group == Group(1, 0, map[]) && st.dead == map[] && st.starts[0] == 0
  {
    ReachInit();
    var added := Apply(INIT, Event(Add, 0));
    ReachStep(INIT, Event(Add, 0), true);
    st := Arrival(added, 0, 0);
    ArrivalIsReachable(added, 0, 0, true);
  }

  /** Session 0 adds nothing of its own: it joins, finds nothing pending, and reads the one new message. */
  lemma FirstDelivery() returns (st: State)
    ensures Reachable(st, true) && OnlyMessage(st, 1, 1)
    ensures st.clock == 0 && st.dead == map[] && st.workers == map[0 := Worker(Busy(0), {})]
    ensures st.group.pending[0] == Entry(0, 1, 0)
  {
    var first := FirstArrival();
    assert Owned(first.group, 0) == {};
    var read := Apply(first, Event(History(0), 0));
    ReachStep(first, Event(History(0), 0), true);
    assert read.group == Group(1, 0, map[]);
    st := Apply(read, Event(New(0), 0));
    ReachStep(read, Event(New(0), 0), true);
  }

  /** A new session takes the message over after the idle time, starts it, and stops while it is busy. */
  lemma Retried(st: State, s: Session, now: int, prompt: bool) returns (st'': State)
    requires Reachable(st, prompt) && s !in st.workers && st.clock <= now
    requires 0 in st.group.pending && OnlyMessage(st, st.group.pending[0].count, st.starts[0])
    requires now - st.group.pending[0].last > IDLE_CLAIM_MS && st.group.pending[0].count < MAX_DELIVERY_ATTEMPTS
    ensures Reachable(st'', prompt) && OnlyMessage(st'', st.group.pending[0].count + 2, st.starts[0] + 1)
    ensures st''.clock == now && st''.workers == st.workers[s := Worker(Busy(0), {})]
    ensures st''.group.pending[0].last == now
  {
    st'' := Recovered(st, s, now, 0, prompt);
    assert 0 in st''.group.pending.Keys;
  }

  /** The bound of three starts is reached. */
  lemma ThreeStartsHappen()
    ensures exists st :: Reachable(st, true) && st.starts[0] == MAX_DELIVERY_ATTEMPTS / 2 + 1
  {
    var st1 := FirstDelivery();
    var st2 := Retried(st1, 1, 30_001, true);
    var st3 := Retried(st2, 2, 60_002, true);
    assert st3.starts[0] == 3;
  }

  /** Worker `s` scanned when the message had had one delivery, and has not claimed it yet. */
  ghost predicate Paused(st: State, s: Session) {
    s in st.workers && st.workers[s] == Worker(Claiming([0], 30_001), {})
  }

  /** Workers `from` to `to` - 1 have paused between scan and claim. */
  ghost predicate AllPaused(st: State, from: Session, to: Session) {
    forall s :: from <= s < to ==> Paused(st, s)
  }

  lemma PausedClear(st: State, s: Session)
    ensures var scanned := st.(clock := 30_001, workers := st.workers[s := Worker(Scanned([], [0], 30_001), {})]);
            Apply(scanned, Event(DeadLetter(s), 30_001)) ==
            st.(clock := 30_001, workers := st.workers[s := Worker(Claiming([0], 30_001), {})])
  {
  }

  lemma PausedScan(st: State, s: Session)
    requires OnlyMessage(st, 1, 1) && st.group.pending[0] == Entry(0, 1, 0) && s !in st.workers
    ensures JoinAndScan(st, s, 30_001) ==
            st.(clock := 30_001, workers := st.workers[s := Worker(Scanned([], [0], 30_001), {})])
  {
    assert XPending(st.group, SCAN_LIMIT) == [0];
    assert StaleIds(st.group, [0], 30_001) == [0] && DeadIds(st.group, [0], 30_001) == [] by {
      var one: seq<Id> := [0]; assert one[1..] == [];
    }
  }

  lemma PausedClaimer(st: State, s: Session) returns (st': State)
    requires Reachable(st, false) && OnlyMessage(st, 1, 1) && st.clock <= 30_001 && s !in st.workers
    requires st.group.pending[0] == Entry(0, 1, 0)
    ensures Reachable(st', false) && OnlyMessage(st', 1, 1) && st'.clock == 30_001
    ensures st'.group.pending[0] == st.group.pending[0]
    ensures st'.workers == st.workers[s := Worker(Claiming([0], 30_001), {})]
  {
    JoinAndScanIsReachable(st, s, 30_001, false);
    PausedScan(st, s);
    PausedClear(st, s);
    ReachStep(JoinAndScan(st, s, 30_001), Event(DeadLetter(s), 30_001), false);
    st' := st.(clock := 30_001, workers := st.workers[s := Worker(Claiming([0], 30_001), {})]);
  }

  /** Workers 9 to 8 + n pause, while worker 0, stopped, holds the message. */
  lemma {:induction false} PausedClaimers(n: nat) returns (st: State)
    ensures Reachable(st, false) && OnlyMessage(st, 1, 1) && st.clock <= 30_001
    ensures st.group.pending[0] == Entry(0, 1, 0) && AllPaused(st, 9, 9 + n)
    ensures forall s :: s in st.workers ==> s == 0 || 9 <= s < 9 + n
  {
    if n == 0 {
      st := FirstDelivery();
      assert Reachable(st, false);
    } else {
      var before := PausedClaimers(n - 1);
      st := PausedClaimer(before, 9 + n - 1);
      forall s: Session | 9 <= s < 9 + n
        ensures Paused(st, s)
      {
        if s < 9 + n - 1 { assert Paused(before, s); }
      }
    }
  }

  /** A late claim takes no second look at the deliveries, only at the idle time. */
  lemma PausedClaim(st: State, s: Session, count: nat, starts: nat) returns (st': State)
    requires Reachable(st, false) && OnlyMessage(st, count, starts) && st.group.pending[0].last == st.clock
    requires Paused(st, s)
    ensures Reachable(st', false) && OnlyMessage(st', count + 1, starts)
    ensures st'.group.pending[0] == Entry(s, count + 1, st'.clock)
    ensures st'.workers == st.workers[s := Worker(Draining, {})]
  {
    var now := st.clock + IDLE_CLAIM_MS;
    st' := Apply(st, Event(Claim(s), now));
    ReachStep(st, Event(Claim(s), now), false);
    assert st'.group.pending[0] == Entry(s, count + 1, now);
  }

  /** The history read starts the message. */
  lemma LateStart(st: State, s: Session, count: nat, starts: nat) returns (st': State)
    requires Reachable(st, false) && OnlyMessage(st, count, starts) && st.group.pending[0].last == st.clock
    requires Paused(st, s)
    ensures Reachable(st', false) && OnlyMessage(st', count + 2, starts + 1)
    ensures st'.group.pending[0].last == st'.clock && st'.workers == st.workers[s := Worker(Busy(0), {})]
  {
    var claimed := PausedClaim(st, s, count, starts);
    HistoryStartsTheOldest(claimed, s, claimed.clock, 0);
    ReachStep(claimed, Event(History(s), claimed.clock), false);
    st' := Apply(claimed, Event(History(s), claimed.clock));
  }

  lemma {:induction false} LateStarts(st: State, from: Session, n: nat, count: nat, starts: nat) returns (st': State)
    requires Reachable(st, false) && OnlyMessage(st, count, starts) && st.group.pending[0].last == st.clock
    requires AllPaused(st, from, from + n)
    ensures Reachable(st', false) && st'.starts[0] == starts + n
    decreases n
  {
    if n == 0 {
      st' := st;
    } else {
      assert Paused(st, from);
      var next := LateStart(st, from, count, starts);
      forall s: Session | from + 1 <= s < from + n
        ensures Paused(next, s)
      {
        assert Paused(st, s);
      }
      st' := LateStarts(next, from + 1, n - 1, count + 2, starts + 1);
    }
  }

  /** The bound is reached also with late claims: n workers that pause between their scan and their claim for as long as
      two others take to fail claim the message, one after the other, after its fifth delivery, and each starts it once
      more. So there is no bound that does not count them. */
  lemma LateClaimsStartMore(n: nat)
    ensures exists st :: Reachable(st, false) && st.starts[0] == MAX_DELIVERY_ATTEMPTS / 2 + 1 + n
  {
    var st1 := PausedClaimers(n);
    var st2 := Retried(st1, 1, 30_001, false);
    var st3 := Retried(st2, 2, 60_002, false);
    forall s: Session | 9 <= s < 9 + n
      ensures Paused(st3, s)
    {
      assert Paused(st1, s);
    }
    var st4 := LateStarts(st3, 9, n, 5, 3);
    assert st4.starts[0] == 3 + n;
  }

  /** Without the timing condition, then, a fourth start happens. */
  lemma SlowClaimStartsAFourth()
    ensures exists st :: Reachable(st, false) && st.starts[0] == MAX_DELIVERY_ATTEMPTS / 2 + 2
  {
    LateClaimsStartMore(1);
  }

  // ---------------------------------------------------------------- failed messages do not age out

  /** The message failed in session 0, which is still up and has just listed it. */
  ghost predicate FailedAndHeld(st: State, count: nat) {
    && OnlyMessage(st, count, 1) && st.group.pending[0] == Entry(0, count, st.clock)
    && st.workers == map[0 := Worker(Top, {0})] && st.dead == map[]
  }

  /** `st` at a later moment of session 0's next pass. */
  function InPass(st: State, phase: Phase): State {
    st.(clock := st.clock + 5_000, workers := map[0 := Worker(phase, {0})])
  }

  lemma PassScansNothing(st: State, count: nat)
    requires FailedAndHeld(st, count)
    ensures Apply(st, Event(Scan(0), st.clock + 5_000)) == InPass(st, Scanned([], [], st.clock + 5_000))
  {
  }

  lemma PassClaimsNothing(st: State, count: nat)
    requires FailedAndHeld(st, count)
    ensures var now, scanned := st.clock + 5_000, InPass(st, Scanned([], [], st.clock + 5_000));
            && Apply(scanned, Event(DeadLetter(0), now)) == InPass(st, Claiming([], now))
            && Apply(InPass(st, Claiming([], now)), Event(Claim(0), now)) == InPass(st, Draining)
  {
    var now, scanned := st.clock + 5_000, InPass(st, Scanned([], [], st.clock + 5_000));
    var cleared, claiming := Apply(scanned, Event(DeadLetter(0), now)), InPass(st, Claiming([], now));
    assert cleared.group.pending == st.group.pending && cleared.dead == st.dead;
    assert Apply(claiming, Event(Claim(0), now)).group.pending == st.group.pending;
  }

  /** The history read lists the failed message, which counts as a delivery, and passes over it. */
  lemma PassListsAgain(st: State, count: nat)
    requires FailedAndHeld(st, count)
    ensures var now := st.clock + 5_000;
            var read := Apply(InPass(st, Draining), Event(History(0), now));
            && read.workers[0].phase == Reading
            && FailedAndHeld(Apply(read, Event(New(0), now)), count + 1)
  {
    var drain := InPass(st, Draining);
    assert HistoryIds(drain.group, 0, HISTORY_LIMIT) == [0];
    assert Retriable(drain.group, 0, {0}) == [] by { var one: seq<Id> := [0]; assert one[1..] == []; }
  }

  lemma PassDrains(st: State, count: nat)
    requires Reachable(st, true) && FailedAndHeld(st, count)
    ensures Reachable(InPass(st, Draining), true)
  {
    var now := st.clock + 5_000;
    PassScansNothing(st, count);
    ReachStep(st, Event(Scan(0), now), true);
    PassClaimsNothing(st, count);
    ReachStep(InPass(st, Scanned([], [], now)), Event(DeadLetter(0), now), true);
    ReachStep(InPass(st, Claiming([], now)), Event(Claim(0), now), true);
  }

  /** So a pass raises the count and restarts the idle time. */
  lemma PassRefreshes(st: State, count: nat) returns (st': State)
    requires Reachable(st, true) && FailedAndHeld(st, count)
    ensures Reachable(st', true) && FailedAndHeld(st', count + 1)
  {
    var now := st.clock + 5_000;
    PassDrains(st, count);
    PassListsAgain(st, count);
    var drain := InPass(st, Draining);
    var read := Apply(drain, Event(History(0), now));
    ReachStep(drain, Event(History(0), now), true);
    ReachStep(read, Event(New(0), now), true);
    st' := Apply(read, Event(New(0), now));
  }

  /** So a message that fails in a worker that stays up is delivered any number of times and never discarded,
      although the loop means it to age out and reach the guard. */
  lemma {:induction false} FailedMessageNeverAgesOut(n: nat) returns (st: State)
    ensures Reachable(st, true) && FailedAndHeld(st, n + 1)
  {
    if n == 0 {
      var first := FirstDelivery();
      st := Apply(first, Event(Return(0, false), 0));
      assert st.workers[0] == Worker(Top, {0}) by { assert {} + {0} == {0}; }
      ReachStep(first, Event(Return(0, false), 0), true);
    } else {
      var before := FailedMessageNeverAgesOut(n - 1);
      st := PassRefreshes(before, n);
    }
  }
}
