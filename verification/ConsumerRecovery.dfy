/** What becomes of an entry that a scan found idle for too long, whatever the other workers do before the scanning
    worker comes to claim it, and before it comes to read it. */
module ConsumerRecovery {
  import opened StreamGroup
  import opened ConsumerProtocol
  import opened ConsumerProofs
  import opened ConsumerAging

  // ---------------------------------------------------------------- from the scan to the claim

  /** The pass is still the same: its session has not scanned again. */
  predicate NoScan(es: seq<Event>, s: Session) { forall i :: 0 <= i < |es| ==> es[i].step != Scan(s) }

  /** The lists the session made at time t are those it holds, if it still holds any. */
  ghost predicate Listed(w: Worker, dead: seq<Id>, stale: seq<Id>, t: int) {
    w.phase == Scanned(dead, stale, t) || w.phase == Claiming(stale, t) || !(w.phase.Scanned? || w.phase.Claiming?)
  }

  /** Since the entry stood as `e` at time t it has been left alone, delivered again, or settled. */
  ghost predicate SinceThen(st: State, id: Id, e: Entry, t: int) {
    && id < st.group.next && t <= st.clock
    && (id in st.group.pending ==>
          st.group.pending[id] == e || (st.group.pending[id].last >= t && st.group.pending[id].count > e.count))
  }

  lemma StepSince(st: State, ev: Event, id: Id, e: Entry, t: int)
    requires Inv(st) && Enabled(st, ev) && SinceThen(st, id, e, t)
    ensures SinceThen(Apply(st, ev), id, e, t)
  {
    EntriesMoveForward(st, ev);
    if id in Apply(st, ev).group.pending { assert EntryMoved(st, Apply(st, ev), id, ev.now); }
  }

  lemma StepKeepsLists(st: State, ev: Event, s: Session, dead: seq<Id>, stale: seq<Id>, t: int)
    requires Enabled(st, ev) && s in st.workers && Listed(st.workers[s], dead, stale, t) && ev.step != Scan(s)
    ensures s in Apply(st, ev).workers && Listed(Apply(st, ev).workers[s], dead, stale, t)
  {
  }

  lemma {:induction false} RunSince(st: State, es: seq<Event>, st': State, s: Session, dead: seq<Id>, stale: seq<Id>,
                                    id: Id, e: Entry, t: int)
    requires Inv(st) && Leads(st, es, st') && NoScan(es, s) && SinceThen(st, id, e, t)
    requires s in st.workers && Listed(st.workers[s], dead, stale, t)
    ensures Inv(st') && SinceThen(st', id, e, t) && s in st'.workers && Listed(st'.workers[s], dead, stale, t)
    decreases |es|
  {
    if es != [] {
      StepKeepsInv(st, es[0]);
      StepSince(st, es[0], id, e, t);
      StepKeepsLists(st, es[0], s, dead, stale, t);
      assert forall i :: 0 <= i < |es[1..]| ==> es[1..][i] == es[i + 1];
      RunSince(Apply(st, es[0]), es[1..], st', s, dead, stale, id, e, t);
    }
  }

  /** The scan itself. */
  lemma ScanLists(st: State, s: Session, id: Id, t: int)
    requires Inv(st) && Enabled(st, Event(Scan(s), t)) && id in XPending(st.group, SCAN_LIMIT)
    ensures var ids, st' := XPending(st.group, SCAN_LIMIT), Apply(st, Event(Scan(s), t));
            && s in st'.workers
            && st'.workers[s].phase == Scanned(DeadIds(st.group, ids, t), StaleIds(st.group, ids, t), t)
            && SinceThen(st', id, st.group.pending[id], t)
  {
  }

  /** From the scan to any later moment of the same pass. */
  lemma ScanHolds(st: State, s: Session, id: Id, t: int, es: seq<Event>, st': State)
    requires Inv(st) && Enabled(st, Event(Scan(s), t)) && id in XPending(st.group, SCAN_LIMIT)
    requires Leads(Apply(st, Event(Scan(s), t)), es, st') && NoScan(es, s)
    ensures var ids := XPending(st.group, SCAN_LIMIT);
            && Inv(st') && SinceThen(st', id, st.group.pending[id], t) && s in st'.workers
            && Listed(st'.workers[s], DeadIds(st.group, ids, t), StaleIds(st.group, ids, t), t)
  {
    var ids := XPending(st.group, SCAN_LIMIT);
    StepKeepsInv(st, Event(Scan(s), t));
    ScanLists(st, s, id, t);
    RunSince(Apply(st, Event(Scan(s), t)), es, st', s, DeadIds(st.group, ids, t), StaleIds(st.group, ids, t), id,
             st.group.pending[id], t);
  }

  lemma PendingOrSettled(st: State, id: Id)
    requires Partitioned(st) && id < st.group.next
    ensures id in st.group.pending || id in st.done || id in st.dead
  {
  }

  /** The entry stood as `e` at the scan at time t: the claim has taken it over, unless it was settled in between, or
      delivered again in between. */
  ghost predicate TakenUnlessMoved(st: State, after: State, s: Session, id: Id, e: Entry, t: int, now: int) {
    if id !in st.group.pending then id in st.done || id in st.dead
    else if st.group.pending[id] == e then
      id in after.group.pending && after.group.pending[id] == Entry(s, e.count + 1, now)
    else st.group.pending[id].last >= t && st.group.pending[id].count > e.count
  }

  lemma ClaimTakes(st: State, s: Session, id: Id, e: Entry, t: int, now: int)
    requires Partitioned(st) && SinceThen(st, id, e, t) && IsStale(e, t)
    requires Enabled(st, Event(Claim(s), now)) && id in st.workers[s].phase.stale
    ensures TakenUnlessMoved(st, Apply(st, Event(Claim(s), now)), s, id, e, t, now)
  {
    PendingOrSettled(st, id);
  }

  /** An entry that a scan finds stale is taken over when the scanning worker comes to claim it, however much later, and
      whatever all the workers have done by then; unless it was settled in between, or delivered again in between. */
  lemma StaleIsTaken(st: State, s: Session, id: Id, t: int, es: seq<Event>, st': State, now: int)
    requires Inv(st) && Enabled(st, Event(Scan(s), t)) && id in XPending(st.group, SCAN_LIMIT)
    requires IsStale(st.group.pending[id], t)
    requires Leads(Apply(st, Event(Scan(s), t)), es, st') && NoScan(es, s) && Enabled(st', Event(Claim(s), now))
    ensures TakenUnlessMoved(st', Apply(st', Event(Claim(s), now)), s, id, st.group.pending[id], t, now)
  {
    var e := st.group.pending[id];
    ScanHolds(st, s, id, t, es, st');
    ClaimTakes(st', s, id, e, t, now);
  }

  /** An entry that a scan finds spent is off the list once the scanning worker has come to discard it. */
  lemma SpentIsDiscarded(st: State, s: Session, id: Id, t: int, es: seq<Event>, st': State, now: int)
    requires Inv(st) && Enabled(st, Event(Scan(s), t)) && id in XPending(st.group, SCAN_LIMIT)
    requires IsDead(st.group.pending[id], t)
    requires Leads(Apply(st, Event(Scan(s), t)), es, st') && NoScan(es, s) && Enabled(st', Event(DeadLetter(s), now))
    ensures var after := Apply(st', Event(DeadLetter(s), now));
            id !in after.group.pending && (id in after.done || id in after.dead)
  {
    ScanHolds(st, s, id, t, es, st');
    PendingOrSettled(st', id);
  }

  // ---------------------------------------------------------------- from the claim to the history read

  /** The session itself takes no step. */
  predicate Rests(es: seq<Event>, s: Session) { forall i :: 0 <= i < |es| ==> es[i].step.Add? || es[i].step.s != s }

  /** Nobody is about to discard the message. */
  ghost predicate NotDoomed(st: State, id: Id) {
    forall w :: w in st.workers && st.workers[w].phase.Scanned? ==> id !in st.workers[w].phase.dead
  }

  /** The session has the entry as it claimed it, unless its old owner has finished with the message since. */
  ghost predicate HasClaimed(st: State, s: Session, failed: set<Id>, id: Id, e: Entry) {
    && id < st.group.next && s in st.workers && st.workers[s] == Worker(Draining, failed)
    && NotDoomed(st, id)
    && if id in st.group.pending then st.group.pending[id] == e else id in st.done
  }

  lemma OthersLeaveIt(st: State, ev: Event, s: Session, failed: set<Id>, id: Id, e: Entry)
    requires Inv(st) && Enabled(st, ev) && HasClaimed(st, s, failed, id, e) && (ev.step.Add? || ev.step.s != s)
    requires e.owner == s && ev.now - e.last < IDLE_CLAIM_MS
    ensures var st' := Apply(st, ev); if id in st'.group.pending then st'.group.pending[id] == e else id in st'.done
  {
    if ev.step.History? { HistoryLeavesOthers(st, ev, id); }
  }

  lemma HistoryLeavesOthers(st: State, ev: Event, id: Id)
    requires Enabled(st, ev) && ev.step.History?
    ensures id in Apply(st, ev).group.pending <==> id in st.group.pending
    ensures id in st.group.pending && st.group.pending[id].owner != ev.step.s ==>
              Apply(st, ev).group.pending[id] == st.group.pending[id]
  {
  }

  lemma OnlyScansList(st: State, ev: Event, w: Session)
    requires Enabled(st, ev) && w in Apply(st, ev).workers && Apply(st, ev).workers[w].phase.Scanned?
    ensures ev.step == Scan(w) || (w in st.workers && st.workers[w].phase == Apply(st, ev).workers[w].phase)
  {
  }

  lemma ScanPassesOver(st: State, w: Session, now: int, id: Id)
    requires Enabled(st, Event(Scan(w), now)) && (id in st.group.pending ==> !IsDead(st.group.pending[id], now))
    ensures var phase := Apply(st, Event(Scan(w), now)).workers[w].phase; phase.Scanned? && id !in phase.dead
  {
  }

  lemma OthersDoNotDoomIt(st: State, ev: Event, s: Session, failed: set<Id>, id: Id, e: Entry)
    requires Inv(st) && Enabled(st, ev) && HasClaimed(st, s, failed, id, e) && ev.now - e.last < IDLE_CLAIM_MS
    ensures NotDoomed(Apply(st, ev), id)
  {
    var st' := Apply(st, ev);
    forall w | w in st'.workers && st'.workers[w].phase.Scanned?
      ensures id !in st'.workers[w].phase.dead
    {
      OnlyScansList(st, ev, w);
      if ev.step == Scan(w) { ScanPassesOver(st, w, ev.now, id); }
    }
  }

  lemma OthersStep(st: State, ev: Event, s: Session, failed: set<Id>, id: Id, e: Entry)
    requires Inv(st) && Enabled(st, ev) && HasClaimed(st, s, failed, id, e) && (ev.step.Add? || ev.step.s != s)
    requires e.owner == s && ev.now - e.last < IDLE_CLAIM_MS
    ensures HasClaimed(Apply(st, ev), s, failed, id, e)
  {
    OthersLeaveIt(st, ev, s, failed, id, e);
    OthersDoNotDoomIt(st, ev, s, failed, id, e);
    EntriesMoveForward(st, ev);
    assert Apply(st, ev).workers[s] == st.workers[s];
  }

  lemma {:induction false} ClaimStands(st: State, es: seq<Event>, st': State, s: Session, failed: set<Id>, id: Id,
                                       e: Entry)
    requires Inv(st) && Leads(st, es, st') && Rests(es, s) && HasClaimed(st, s, failed, id, e)
    requires e.owner == s && st'.clock - e.last < IDLE_CLAIM_MS
    ensures Inv(st') && HasClaimed(st', s, failed, id, e)
    decreases |es|
  {
    if es != [] {
      var ev, next := es[0], Apply(st, es[0]);
      TimeGoesOn(next, es[1..], st');
      StepKeepsInv(st, ev);
      OthersStep(st, ev, s, failed, id, e);
      assert forall i :: 0 <= i < |es[1..]| ==> es[1..][i] == es[i + 1];
      ClaimStands(next, es[1..], st', s, failed, id, e);
    }
  }

  lemma {:induction false} TimeGoesOn(st: State, es: seq<Event>, st': State)
    requires Leads(st, es, st')
    ensures st.clock <= st'.clock
    decreases |es|
  {
    if es != [] { TimeGoesOn(Apply(st, es[0]), es[1..], st'); }
  }

  lemma ClaimIsMade(st: State, s: Session, id: Id, now: int)
    requires Inv(st) && Enabled(st, Event(Claim(s), now)) && id in st.workers[s].phase.stale && id in st.group.pending
    requires now - st.group.pending[id].last >= IDLE_CLAIM_MS && st.group.pending[id].count < MAX_DELIVERY_ATTEMPTS
    ensures HasClaimed(Apply(st, Event(Claim(s), now)), s, st.workers[s].failed, id,
                       Entry(s, st.group.pending[id].count + 1, now))
  {
    var st' := Apply(st, Event(Claim(s), now));
    forall w | w in st'.workers && st'.workers[w].phase.Scanned?
      ensures id !in st'.workers[w].phase.dead
    {
      assert PhaseValid(st, w);
    }
  }

  /** What a worker took over with deliveries left it still has when it comes to its history read within IDLE_CLAIM_MS,
      whatever the others do, unless the old owner finished after all and acknowledged it; and it starts it in its turn:
      exactly when it is among its first ten entries, has not failed there, and all its entries before it have. */
  lemma TakenIsStarted(st: State, s: Session, id: Id, t: int, es: seq<Event>, st': State, now: int)
    requires Inv(st) && Enabled(st, Event(Claim(s), t)) && id in st.workers[s].phase.stale && id in st.group.pending
    requires t - st.group.pending[id].last >= IDLE_CLAIM_MS && st.group.pending[id].count < MAX_DELIVERY_ATTEMPTS
    requires Leads(Apply(st, Event(Claim(s), t)), es, st') && Rests(es, s) && now - t < IDLE_CLAIM_MS
    requires st'.clock <= now
    ensures Enabled(st', Event(History(s), now))
    ensures if id !in st'.group.pending then id in st'.done
            else
              && st'.group.pending[id] == Entry(s, st.group.pending[id].count + 1, t)
              && (Apply(st', Event(History(s), now)).workers[s].phase == Busy(id)
                  <==> IsRead(st'.group, s, id) && id !in st.workers[s].failed
                       && forall x :: x in Owned(st'.group, s) && x < id ==> x in st.workers[s].failed)
  {
    ClaimIsMade(st, s, id, t);
    StepKeepsInv(st, Event(Claim(s), t));
    ClaimStands(Apply(st, Event(Claim(s), t)), es, st', s, st.workers[s].failed, id,
                Entry(s, st.group.pending[id].count + 1, t));
    HistoryStartsIff(st', s, now, id);
  }
}
