/** What every run of the consumer protocol keeps. */
module ConsumerProofs {
  import opened StreamGroup
  import opened ConsumerProtocol

  // ---------------------------------------------------------------- conservation

  /** Every message delivered so far is in exactly one of: pending, acknowledged, dead-lettered. */
  ghost predicate Partitioned(st: State) {
    && st.group.next <= st.group.added
    && (forall id: Id :: id < st.group.next <==> id in st.group.pending || id in st.done || id in st.dead)
    && st.group.pending.Keys !! st.done
    && st.group.pending.Keys !! st.dead.Keys
    && st.done !! st.dead.Keys
  }

  /** Why a message stopped being pending. */
  ghost predicate Justified(st: State) {
    && st.done <= st.succeeded
    && (forall id :: id in st.dead ==> st.dead[id] >= MAX_DELIVERY_ATTEMPTS)
  }

  ghost predicate EntriesValid(st: State) {
    forall id :: id in st.group.pending ==>
      var e := st.group.pending[id];
      e.last <= st.clock && e.count >= 1 && e.owner in st.workers
  }

  ghost predicate StartsValid(st: State) {
    && (forall p :: p in st.startedBy ==> p.0 < st.group.next && p.1 in st.workers)
    && (forall id :: id in st.starts ==> id < st.group.next)
  }

  /** A dead-letter list names only messages delivered the full number of times; a claim list names messages that
      had not been, unless they were delivered again after the scan. */
  ghost predicate DeadListValid(g: Group, dead: seq<Id>) {
    forall id :: id in dead ==>
      id < g.next && (id in g.pending ==> g.pending[id].count >= MAX_DELIVERY_ATTEMPTS)
  }

  ghost predicate StaleListValid(g: Group, stale: seq<Id>, at: int) {
    forall id :: id in stale ==>
      id < g.next && (id in g.pending && g.pending[id].last < at ==> g.pending[id].count < MAX_DELIVERY_ATTEMPTS)
  }

  ghost predicate PhaseValid(st: State, s: Session)
    requires s in st.workers
  {
    match st.workers[s].phase
    case Scanned(dead, stale, at) =>
      at <= st.clock && DeadListValid(st.group, dead) && StaleListValid(st.group, stale, at)
    case Claiming(stale, at) => at <= st.clock && StaleListValid(st.group, stale, at)
    case Busy(id) => (id, s) in st.startedBy
    case Succeeded(id) => (id, s) in st.startedBy && id in st.succeeded
    case _ => true
  }

  /** A live session will not start again what it started and has not settled. */
  ghost predicate Settled(st: State, s: Session)
    requires s in st.workers
  {
    var w := st.workers[s];
    !w.phase.Crashed? ==>
      forall id :: (id, s) in st.startedBy && id in st.group.pending ==>
        id in w.failed || w.phase == Busy(id) || w.phase == Succeeded(id)
  }

  ghost predicate WorkersValid(st: State) {
    forall s :: s in st.workers ==> PhaseValid(st, s) && Settled(st, s)
  }

  ghost predicate Inv(st: State) {
    Partitioned(st) && Justified(st) && EntriesValid(st) && StartsValid(st) && WorkersValid(st)
  }

  /** The pending list stays as it is, or only moves on what it holds. */
  lemma SamePending(st: State, st': State)
    requires Partitioned(st) && st'.done == st.done && st'.dead == st.dead
    requires st'.group.pending.Keys == st.group.pending.Keys
    requires st'.group.next == st.group.next && st'.group.added >= st.group.added
    ensures Partitioned(st')
  {
  }

  lemma NewKeepsPartition(st: State, e: Event)
    requires Partitioned(st) && Enabled(st, e) && e.step.New?
    ensures Partitioned(Apply(st, e))
  {
    var g, g' := st.group, Apply(st, e).group;
    if g.next < g.added {
      assert g'.pending.Keys == g.pending.Keys + {g.next} && g'.next == g.next + 1;
    }
  }

  lemma DeadLetterKeepsPartition(st: State, e: Event)
    requires Partitioned(st) && Enabled(st, e) && e.step.DeadLetter?
    ensures Partitioned(Apply(st, e))
  {
    var gone := Gone(st.group, st.workers[e.step.s].phase.dead);
    assert Apply(st, e).group.pending.Keys == st.group.pending.Keys - gone;
    assert Apply(st, e).dead.Keys == st.dead.Keys + gone;
  }

  lemma AckKeepsPartition(st: State, e: Event)
    requires Partitioned(st) && Enabled(st, e) && e.step.Ack?
    ensures Partitioned(Apply(st, e))
  {
    var id := st.workers[e.step.s].phase.id;
    assert Apply(st, e).group.pending.Keys == st.group.pending.Keys - {id};
  }

  lemma StepKeepsPartition(st: State, e: Event)
    requires Inv(st) && Enabled(st, e)
    ensures Partitioned(Apply(st, e))
  {
    if e.step.New? {
      NewKeepsPartition(st, e);
    } else if e.step.DeadLetter? {
      DeadLetterKeepsPartition(st, e);
    } else if e.step.Ack? {
      AckKeepsPartition(st, e);
    } else {
      SamePending(st, Apply(st, e));
    }
  }

  lemma StepKeepsReasons(st: State, e: Event)
    requires Inv(st) && Enabled(st, e)
    ensures Justified(Apply(st, e))
  {
  }

  /** What a history read starts is pending with the session, and did not fail there before. */
  lemma HistoryStartsItsOwn(st: State, s: Session)
    requires Partitioned(st) && s in st.workers && Retriable(st.group, s, st.workers[s].failed) != []
    ensures var id := Retriable(st.group, s, st.workers[s].failed)[0];
            id < st.group.next && id in st.group.pending && st.group.pending[id].owner == s
            && id !in st.workers[s].failed && id in HistoryIds(st.group, s, HISTORY_LIMIT)
  {
    var todo := Retriable(st.group, s, st.workers[s].failed);
    assert todo[0] in todo;
  }

  /** A pending entry is untouched by a step, or its count rises and its idle time starts again. */
  ghost predicate EntryMoved(st: State, st': State, id: Id, now: int)
    requires id in st'.group.pending
  {
    var e' := st'.group.pending[id];
    if id in st.group.pending then
      var e := st.group.pending[id];
      e' == e || (e'.count == e.count + 1 && e'.last == now && e'.owner in st.workers)
    else id == st.group.next < st'.group.next && e'.count == 1 && e'.last == now && e'.owner in st.workers
  }

  lemma EntriesMoveForward(st: State, e: Event)
    requires Partitioned(st) && Enabled(st, e)
    ensures forall id :: id in Apply(st, e).group.pending ==> EntryMoved(st, Apply(st, e), id, e.now)
    ensures st.workers.Keys <= Apply(st, e).workers.Keys
    ensures st.group.next <= Apply(st, e).group.next
  {
  }

  lemma StepKeepsEntries(st: State, e: Event)
    requires Inv(st) && Enabled(st, e)
    ensures EntriesValid(Apply(st, e))
  {
    var st' := Apply(st, e);
    EntriesMoveForward(st, e);
    forall id | id in st'.group.pending
      ensures st'.group.pending[id].last <= e.now && st'.group.pending[id].count >= 1
      ensures st'.group.pending[id].owner in st'.workers
    {
      assert EntryMoved(st, st', id, e.now);
    }
  }

  lemma StepKeepsStarts(st: State, e: Event)
    requires Inv(st) && Enabled(st, e)
    ensures StartsValid(Apply(st, e))
  {
    if e.step.History? {
      HistoryKeepsStarts(st, e);
    } else if e.step.New? {
      NewKeepsStarts(st, e);
    } else {
      SameStarts(st, Apply(st, e));
    }
  }

  lemma SameStarts(st: State, st': State)
    requires StartsValid(st) && st'.startedBy == st.startedBy && st'.starts == st.starts
    requires st.group.next <= st'.group.next && st.workers.Keys <= st'.workers.Keys
    ensures StartsValid(st')
  {
  }

  lemma HistoryKeepsStarts(st: State, e: Event)
    requires Inv(st) && Enabled(st, e) && e.step.History?
    ensures StartsValid(Apply(st, e))
  {
    var s := e.step.s;
    if Retriable(st.group, s, st.workers[s].failed) == [] {
      SameStarts(st, Apply(st, e));
    } else {
      HistoryStartsItsOwn(st, s);
    }
  }

  lemma NewKeepsStarts(st: State, e: Event)
    requires StartsValid(st) && Enabled(st, e) && e.step.New?
    ensures StartsValid(Apply(st, e))
  {
  }

  lemma StepKeepsWorkers(st: State, e: Event)
    requires Inv(st) && Enabled(st, e)
    ensures WorkersValid(Apply(st, e))
  {
    var st' := Apply(st, e);
    forall s | s in st'.workers
      ensures PhaseValid(st', s) && Settled(st', s)
    {
      StepKeepsPhase(st, e, s);
      StepKeepsSettled(st, e, s);
    }
  }

  lemma StepKeepsPhase(st: State, e: Event, s: Session)
    requires Inv(st) && Enabled(st, e) && s in Apply(st, e).workers
    ensures PhaseValid(Apply(st, e), s)
  {
    if s in st.workers { assert PhaseValid(st, s); }
    if s in st.workers && Apply(st, e).workers[s].phase == st.workers[s].phase {
      UntouchedPhaseStaysValid(st, e, s);
    } else if e.step.Scan? {
      ScannedPhaseIsValid(st, e);
    } else if e.step.DeadLetter? {
      DeadLetteredPhaseIsValid(st, e);
    } else {
      NewPhaseIsValid(st, e);
    }
  }

  /** The steps after which the session holds no list. */
  lemma NewPhaseIsValid(st: State, e: Event)
    requires Enabled(st, e) && !e.step.Add? && !e.step.Scan? && !e.step.DeadLetter?
    requires e.step.Join? || PhaseValid(st, e.step.s)
    ensures PhaseValid(Apply(st, e), e.step.s)
  {
  }

  lemma DeadLetteredPhaseIsValid(st: State, e: Event)
    requires Inv(st) && Enabled(st, e) && e.step.DeadLetter?
    ensures PhaseValid(Apply(st, e), e.step.s)
  {
    var phase := st.workers[e.step.s].phase;
    EntriesMoveForward(st, e);
    assert PhaseValid(st, e.step.s);
    ListsStayValid(st, Apply(st, e), e.now, [], phase.stale, phase.at);
  }

  lemma UntouchedPhaseStaysValid(st: State, e: Event, s: Session)
    requires Inv(st) && Enabled(st, e) && s in st.workers && Apply(st, e).workers[s].phase == st.workers[s].phase
    ensures PhaseValid(Apply(st, e), s)
  {
    var st' := Apply(st, e);
    EntriesMoveForward(st, e);
    assert PhaseValid(st, s);
    match st.workers[s].phase
    case Scanned(dead, stale, at) =>
      ListsStayValid(st, st', e.now, dead, stale, at);
    case Claiming(stale, at) =>
      ListsStayValid(st, st', e.now, [], stale, at);
    case _ =>
  }

  lemma ListsStayValid(st: State, st': State, now: int, dead: seq<Id>, stale: seq<Id>, at: int)
    requires at <= st.clock <= now && st.group.next <= st'.group.next
    requires DeadListValid(st.group, dead) && StaleListValid(st.group, stale, at)
    requires forall id :: id in st'.group.pending ==> EntryMoved(st, st', id, now)
    ensures DeadListValid(st'.group, dead) && StaleListValid(st'.group, stale, at)
  {
  }

  lemma ScannedPhaseIsValid(st: State, e: Event)
    requires Inv(st) && Enabled(st, e) && e.step.Scan?
    ensures PhaseValid(Apply(st, e), e.step.s)
  {
  }

  lemma StepKeepsSettled(st: State, e: Event, s: Session)
    requires Inv(st) && Enabled(st, e) && s in Apply(st, e).workers
    ensures Settled(Apply(st, e), s)
  {
    if e.step.Join? && e.step.s == s {
      assert forall id :: (id, s) !in st.startedBy;
    } else {
      assert PhaseValid(st, s) && Settled(st, s);
      StartsArePending(st, e);
      if e.step.Add? || e.step.s != s {
        OthersKeepSettled(st, e, s);
      } else {
        OwnStepKeepsSettled(st, e);
      }
    }
  }

  /** What a step can begin, and what it can put on the pending list. */
  ghost predicate Begins(st: State, e: Event, st': State, id: Id, s: Session) {
    (id, s) in st.startedBy || (!e.step.Add? && e.step.s == s && s in st'.workers && st'.workers[s].phase == Busy(id))
  }

  lemma StartsArePending(st: State, e: Event)
    requires Inv(st) && Enabled(st, e)
    ensures forall id, s :: (id, s) in Apply(st, e).startedBy ==> Begins(st, e, Apply(st, e), id, s)
    ensures forall id, s :: (id, s) in st.startedBy && id in Apply(st, e).group.pending ==> id in st.group.pending
  {
    EntriesMoveForward(st, e);
    forall id, s | (id, s) in st.startedBy && id in Apply(st, e).group.pending
      ensures id in st.group.pending
    {
      assert EntryMoved(st, Apply(st, e), id, e.now);
      assert id < st.group.next;
    }
  }

  lemma OthersKeepSettled(st: State, e: Event, s: Session)
    requires Enabled(st, e) && s in st.workers && Settled(st, s) && (e.step.Add? || e.step.s != s)
    requires forall id, s :: (id, s) in Apply(st, e).startedBy ==> Begins(st, e, Apply(st, e), id, s)
    requires forall id, s :: (id, s) in st.startedBy && id in Apply(st, e).group.pending ==> id in st.group.pending
    ensures s in Apply(st, e).workers && Settled(Apply(st, e), s)
  {
    assert Apply(st, e).workers[s] == st.workers[s];
    forall id | (id, s) in Apply(st, e).startedBy
      ensures (id, s) in st.startedBy
    {
      assert Begins(st, e, Apply(st, e), id, s);
    }
  }

  lemma OwnStepKeepsSettled(st: State, e: Event)
    requires Enabled(st, e) && !e.step.Add? && !e.step.Join? && Settled(st, e.step.s)
    requires forall id, s :: (id, s) in Apply(st, e).startedBy ==> Begins(st, e, Apply(st, e), id, s)
    requires forall id, s :: (id, s) in st.startedBy && id in Apply(st, e).group.pending ==> id in st.group.pending
    ensures Settled(Apply(st, e), e.step.s)
  {
    var st', s := Apply(st, e), e.step.s;
    forall id | (id, s) in st'.startedBy && id in st'.group.pending && !st'.workers[s].phase.Crashed?
      ensures id in st'.workers[s].failed || st'.workers[s].phase == Busy(id) || st'.workers[s].phase == Succeeded(id)
    {
      assert Begins(st, e, st', id, s);
    }
  }

  lemma {:induction false} RunKeepsInv(sts: seq<State>, es: seq<Event>, i: nat)
    requires Run(sts, es) && i <= |es|
    ensures Inv(sts[i])
  {
    if i == 0 {
      assert Inv(INIT);
    } else {
      RunKeepsInv(sts, es, i - 1);
      assert StepAt(sts, es, i - 1);
      StepKeepsInv(sts[i - 1], es[i - 1]);
    }
  }

  lemma StepKeepsInv(st: State, e: Event)
    requires Inv(st) && Enabled(st, e)
    ensures Inv(Apply(st, e))
  {
    StepKeepsPartition(st, e);
    StepKeepsReasons(st, e);
    StepKeepsEntries(st, e);
    StepKeepsStarts(st, e);
    StepKeepsWorkers(st, e);
  }

  lemma ReachableKeepsInv(st: State, prompt: bool)
    requires Reachable(st, prompt)
    ensures Inv(st)
  {
    var sts, es :| Run(sts, es) && sts[|es|] == st && (prompt ==> Prompt(sts, es));
    RunKeepsInv(sts, es, |es|);
  }

  // ---------------------------------------------------------------- how often a message is started

  /** A claim that takes the message although its deliveries were spent by then. */
  predicate TakesSpent(st: State, e: Event, id: Id) {
    && e.step.Claim? && e.step.s in st.workers && st.workers[e.step.s].phase.Claiming?
    && id in st.workers[e.step.s].phase.stale && id in st.group.pending
    && e.now - st.group.pending[id].last >= IDLE_CLAIM_MS && st.group.pending[id].count >= MAX_DELIVERY_ATTEMPTS
  }

  /** Each start of a pending message has cost a delivery and, but for the first, a claim as well; `late` of the claims
      took it when its deliveries were spent. */
  ghost predicate Counted(st: State, id: Id, late: nat) {
    && st.starts[id] <= MAX_DELIVERY_ATTEMPTS / 2 + 1 + late
    && (id in st.group.pending ==>
          var e := st.group.pending[id];
          && 2 * st.starts[id] <= e.count + 1
          && ((id, e.owner) !in st.startedBy ==>
                2 * st.starts[id] <= e.count && st.starts[id] <= MAX_DELIVERY_ATTEMPTS / 2 + late))
  }

  /** Only a history read and a new read start anything. */
  lemma OtherStepsKeepCounted(st: State, e: Event, id: Id, late: nat)
    requires Inv(st) && Counted(st, id, late) && Enabled(st, e)
    requires !e.step.Claim? && !e.step.History? && !e.step.New?
    ensures Counted(Apply(st, e), id, late)
  {
  }

  lemma ClaimKeepsCounted(st: State, e: Event, id: Id, late: nat)
    requires Inv(st) && Counted(st, id, late) && Enabled(st, e) && e.step.Claim?
    ensures Counted(Apply(st, e), id, late + if TakesSpent(st, e, id) then 1 else 0)
  {
  }

  lemma HistoryKeepsCounted(st: State, e: Event, id: Id, late: nat)
    requires Inv(st) && Counted(st, id, late) && Enabled(st, e) && e.step.History?
    ensures Counted(Apply(st, e), id, late)
  {
    var s := e.step.s;
    assert Settled(st, s);
    if Retriable(st.group, s, st.workers[s].failed) != [] { HistoryStartsItsOwn(st, s); }
  }

  lemma NewKeepsCounted(st: State, e: Event, id: Id, late: nat)
    requires Inv(st) && Counted(st, id, late) && Enabled(st, e) && e.step.New?
    ensures Counted(Apply(st, e), id, late)
  {
    assert st.group.next !in st.starts;
  }

  lemma StepKeepsCounted(st: State, e: Event, id: Id, late: nat)
    requires Inv(st) && Counted(st, id, late) && Enabled(st, e)
    ensures Counted(Apply(st, e), id, late + if TakesSpent(st, e, id) then 1 else 0)
  {
    if e.step.Claim? {
      ClaimKeepsCounted(st, e, id, late);
    } else if e.step.History? {
      HistoryKeepsCounted(st, e, id, late);
    } else if e.step.New? {
      NewKeepsCounted(st, e, id, late);
    } else {
      OtherStepsKeepCounted(st, e, id, late);
    }
  }

  /** Those of the first n commands that were such claims. */
  ghost function LateClaims(sts: seq<State>, es: seq<Event>, id: Id, n: nat): set<nat>
    requires n <= |es| < |sts|
  {
    set i: nat | i < n && TakesSpent(sts[i], es[i], id)
  }

  lemma LateClaimsGrow(sts: seq<State>, es: seq<Event>, id: Id, n: nat)
    requires n < |es| < |sts|
    ensures |LateClaims(sts, es, id, n + 1)|
         == |LateClaims(sts, es, id, n)| + if TakesSpent(sts[n], es[n], id) then 1 else 0
  {
    OneMore(LateClaims(sts, es, id, n), LateClaims(sts, es, id, n + 1), n, TakesSpent(sts[n], es[n], id));
  }

  lemma OneMore(before: set<nat>, after: set<nat>, n: nat, more: bool)
    requires n !in before && forall i :: i in after <==> i in before || (i == n && more)
    ensures |after| == |before| + if more then 1 else 0
  {
    assert after == if more then before + {n} else before;
  }

  /** In every run of any number of workers, crashing anywhere and however slow, process_fn is started at most three
      times for one message, and once more for each claim that took it when its deliveries were spent: every other
      retry spends two of its five deliveries, one on the claim and one on the history read. */
  lemma {:induction false} StartsAreCounted(sts: seq<State>, es: seq<Event>, id: Id, n: nat)
    requires Run(sts, es) && n <= |es|
    ensures Counted(sts[n], id, |LateClaims(sts, es, id, n)|)
    ensures sts[n].starts[id] <= MAX_DELIVERY_ATTEMPTS / 2 + 1 + |LateClaims(sts, es, id, n)|
  {
    if n == 0 {
      assert LateClaims(sts, es, id, 0) == {};
      assert Counted(INIT, id, 0);
    } else {
      StartsAreCounted(sts, es, id, n - 1);
      RunKeepsInv(sts, es, n - 1);
      assert StepAt(sts, es, n - 1);
      LateClaimsGrow(sts, es, id, n - 1);
      StepKeepsCounted(sts[n - 1], es[n - 1], id, |LateClaims(sts, es, id, n - 1)|);
    }
  }

  /** A claim that follows its scan promptly finds no message delivered in between, so it takes none that is spent. */
  lemma PromptTakesNoneSpent(st: State, e: Event, id: Id)
    requires Inv(st) && Enabled(st, e) && PromptStep(st, e)
    ensures !TakesSpent(st, e, id)
  {
    if e.step.Claim? { assert PhaseValid(st, e.step.s); }
  }

  lemma {:induction false} PromptRunsClaimInTime(sts: seq<State>, es: seq<Event>, id: Id, n: nat)
    requires Run(sts, es) && Prompt(sts, es) && n <= |es|
    ensures LateClaims(sts, es, id, n) == {}
  {
    if n > 0 {
      PromptRunsClaimInTime(sts, es, id, n - 1);
      RunKeepsInv(sts, es, n - 1);
      assert StepAt(sts, es, n - 1) && PromptAt(sts, es, n - 1);
      PromptTakesNoneSpent(sts[n - 1], es[n - 1], id);
    }
  }

  /** So at most three times where every claim follows its scan promptly. */
  lemma StartsAreBounded(st: State, id: Id)
    requires Reachable(st, true)
    ensures st.starts[id] <= MAX_DELIVERY_ATTEMPTS / 2 + 1
  {
    var sts, es :| Run(sts, es) && sts[|es|] == st && Prompt(sts, es);
    PromptRunsClaimInTime(sts, es, id, |es|);
    StartsAreCounted(sts, es, id, |es|);
  }
}
