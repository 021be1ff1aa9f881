/** Any number of workers sharing one consumer group, one Redis command at a time.

    A worker session runs the loop of run_consumer_loop; between two of its
    commands any other worker may run any number of its own, and a session can
    stop at any point. Session names are never reused. The stream's own clock
    never runs backwards. */
module ConsumerProtocol {
  import opened StreamGroup

  const MAX_DELIVERY_ATTEMPTS := 5
  const IDLE_CLAIM_MS := 30_000
  const SCAN_LIMIT := 100
  const HISTORY_LIMIT := 10

  /** Where a session is in its loop. */
  datatype Phase =
    | Top
    | Scanned(dead: seq<Id>, stale: seq<Id>, at: int)
    | Claiming(stale: seq<Id>, at: int)
    | Draining
    | Reading
    | Busy(id: Id)
    | Succeeded(id: Id)
    | Crashed

  datatype Worker = Worker(phase: Phase, failed: set<Id>)

  /** `succeeded`, `dead`, `starts` and `startedBy` record what happened: the messages process_fn returned for, the
      delivery count at which each dead letter was discarded, how often each message was begun, and by whom. */
  datatype State = State(
    clock: int, group: Group, workers: map<Session, Worker>,
    done: set<Id>, dead: map<Id, nat>, succeeded: set<Id>, starts: multiset<Id>, startedBy: set<(Id, Session)>)

  datatype Step =
    | Add
    | Join(s: Session)
    | Scan(s: Session)
    | DeadLetter(s: Session)
    | Claim(s: Session)
    | History(s: Session)
    | New(s: Session)
    | Return(s: Session, ok: bool)
    | Ack(s: Session)
    | Crash(s: Session)

  datatype Event = Event(step: Step, now: int)

  const INIT := State(0, Group(0, 0, map[]), map[], {}, map[], {}, multiset{}, {})

  /** claim_stale_messages looks at the first hundred entries and keeps the ids idle for too long. */
  predicate IsStale(e: Entry, now: int) { now - e.last > IDLE_CLAIM_MS && e.count < MAX_DELIVERY_ATTEMPTS }

  predicate IsDead(e: Entry, now: int) { now - e.last > IDLE_CLAIM_MS && e.count >= MAX_DELIVERY_ATTEMPTS }

  function StaleIds(g: Group, ids: seq<Id>, now: int): (stale: seq<Id>)
    requires forall id :: id in ids ==> id in g.pending
    ensures forall id :: id in stale <==> id in ids && IsStale(g.pending[id], now)
    ensures (forall id :: id in ids ==> !IsStale(g.pending[id], now)) ==> stale == []
  {
    if ids == [] then []
    else
      var last := |ids| - 1;
      StaleIds(g, ids[..last], now) + if IsStale(g.pending[ids[last]], now) then [ids[last]] else []
  }

  function DeadIds(g: Group, ids: seq<Id>, now: int): (dead: seq<Id>)
    requires forall id :: id in ids ==> id in g.pending
    ensures forall id :: id in dead <==> id in ids && IsDead(g.pending[id], now)
    ensures (forall id :: id in ids ==> !IsDead(g.pending[id], now)) ==> dead == []
  {
    if ids == [] then []
    else
      var last := |ids| - 1;
      DeadIds(g, ids[..last], now) + if IsDead(g.pending[ids[last]], now) then [ids[last]] else []
  }

  function Without(ids: seq<Id>, failed: set<Id>): (r: seq<Id>)
    ensures forall id :: id in r <==> id in ids && id !in failed
  {
    if ids == [] then []
    else (if ids[0] in failed then [] else [ids[0]]) + Without(ids[1..], failed)
  }

  /** The entries of the session's own history that it may still try. */
  function Retriable(g: Group, s: Session, failed: set<Id>): seq<Id> {
    Without(HistoryIds(g, s, HISTORY_LIMIT), failed)
  }

  predicate Enabled(st: State, e: Event) {
    && st.clock <= e.now
    && match e.step
       case Add => true
       case Join(s) => s !in st.workers
       case Scan(s) => s in st.workers && st.workers[s].phase.Top?
       case DeadLetter(s) => s in st.workers && st.workers[s].phase.Scanned?
       case Claim(s) => s in st.workers && st.workers[s].phase.Claiming?
       case History(s) => s in st.workers && st.workers[s].phase.Draining?
       case New(s) => s in st.workers && st.workers[s].phase.Reading?
       case Return(s, _) => s in st.workers && st.workers[s].phase.Busy?
       case Ack(s) => s in st.workers && st.workers[s].phase.Succeeded?
       case Crash(s) => s in st.workers && !st.workers[s].phase.Crashed?
  }

  function Moved(st: State, s: Session, phase: Phase): State
    requires s in st.workers
  {
    st.(workers := st.workers[s := st.workers[s].(phase := phase)])
  }

  /** A worker given message `id` starts process_fn on it. */
  function Begun(st: State, s: Session, id: Id): State
    requires s in st.workers
  {
    Moved(st, s, Busy(id)).(starts := st.starts + multiset{id}, startedBy := st.startedBy + {(id, s)})
  }

  /** The listed messages that an XACK takes off the pending list now. */
  function Gone(g: Group, ids: seq<Id>): set<Id> {
    set id | id in ids && id in g.pending
  }

  function WithDead(dead: map<Id, nat>, g: Group, gone: set<Id>): map<Id, nat>
    requires gone <= g.pending.Keys
  {
    map id | id in dead.Keys + gone :: if id in gone then g.pending[id].count else dead[id]
  }

  /** The scan sorts the first entries into spent and idle ones; entries with a recent delivery are in neither list. */
  function Scanning(st: State, s: Session): State
    requires s in st.workers
  {
    var ids := XPending(st.group, SCAN_LIMIT);
    Moved(st, s, Scanned(DeadIds(st.group, ids, st.clock), StaleIds(st.group, ids, st.clock), st.clock))
  }

  function DeadLettering(st: State, s: Session): State
    requires s in st.workers && st.workers[s].phase.Scanned?
  {
    var gone := Gone(st.group, st.workers[s].phase.dead);
    Moved(st, s, Claiming(st.workers[s].phase.stale, st.workers[s].phase.at)).(
    group := XAck(st.group, gone), dead := WithDead(st.dead, st.group, gone))
  }

  function TakingOver(st: State, s: Session): State
    requires s in st.workers && st.workers[s].phase.Claiming?
  {
    Moved(st, s, Draining).(
    group := XClaim(st.group, s, IDLE_CLAIM_MS, st.workers[s].phase.stale, st.clock))
  }

  function ReadingHistory(st: State, s: Session): State
    requires s in st.workers
  {
    var todo := Retriable(st.group, s, st.workers[s].failed);
    var read := st.(group := XReadHistory(st.group, s, HISTORY_LIMIT, st.clock));
    if todo == [] then Moved(read, s, Reading) else Begun(read, s, todo[0])
  }

  function ReadingNew(st: State, s: Session): State
    requires s in st.workers
  {
    var read := st.(group := XReadNew(st.group, s, st.clock));
    if st.group.next < st.group.added then Begun(read, s, st.group.next) else Moved(read, s, Top)
  }

  function Returning(st: State, s: Session, ok: bool): State
    requires s in st.workers && st.workers[s].phase.Busy?
  {
    var id := st.workers[s].phase.id;
    if ok then Moved(st, s, Succeeded(id)).(succeeded := st.succeeded + {id})
    else st.(workers := st.workers[s := Worker(Top, st.workers[s].failed + {id})])
  }

  function Acknowledging(st: State, s: Session): State
    requires s in st.workers && st.workers[s].phase.Succeeded?
  {
    var id := st.workers[s].phase.id;
    st.(workers := st.workers[s := Worker(Top, st.workers[s].failed - {id})],
    group := XAck(st.group, {id}),
    done := if id in st.group.pending then st.done + {id} else st.done)
  }

  function Apply(st0: State, e: Event): State
    requires Enabled(st0, e)
  {
    var st := st0.(clock := e.now);
    match e.step
    case Add => st.(group := st.group.(added := st.group.added + 1))
    case Join(s) => st.(workers := st.workers[s := Worker(Top, {})])
    case Scan(s) => Scanning(st, s)
    case DeadLetter(s) => DeadLettering(st, s)
    case Claim(s) => TakingOver(st, s)
    case History(s) => ReadingHistory(st, s)
    case New(s) => ReadingNew(st, s)
    case Return(s, ok) => Returning(st, s, ok)
    case Ack(s) => Acknowledging(st, s)
    case Crash(s) => Moved(st, s, Crashed)
  }

  /** The commands `es`, one after the other, lead from st to st'. */
  ghost predicate Leads(st: State, es: seq<Event>, st': State)
    decreases |es|
  {
    if es == [] then st == st' else Enabled(st, es[0]) && Leads(Apply(st, es[0]), es[1..], st')
  }

  /** A run since the group was made: the states passed through, and the event between each two of them. */
  ghost predicate StepAt(sts: seq<State>, es: seq<Event>, i: nat)
    requires i < |es| < |sts|
  {
    Enabled(sts[i], es[i]) && sts[i + 1] == Apply(sts[i], es[i])
  }

  ghost predicate Run(sts: seq<State>, es: seq<Event>) {
    |sts| == |es| + 1 && sts[0] == INIT && forall i | 0 <= i < |es| :: StepAt(sts, es, i)
  }

  /** An XCLAIM follows its scan within the idle time, if there is anything to claim. */
  predicate PromptStep(st: State, e: Event) {
    e.step.Claim? && e.step.s in st.workers && st.workers[e.step.s].phase.Claiming?
    && st.workers[e.step.s].phase.stale != []
    ==> e.now - st.workers[e.step.s].phase.at < IDLE_CLAIM_MS
  }

  ghost predicate PromptAt(sts: seq<State>, es: seq<Event>, i: nat)
    requires i < |es| < |sts|
  {
    PromptStep(sts[i], es[i])
  }

  ghost predicate Prompt(sts: seq<State>, es: seq<Event>)
    requires |sts| == |es| + 1
  {
    forall i | 0 <= i < |es| :: PromptAt(sts, es, i)
  }

  /** Some run leads to this state; with `prompt`, one whose claims all follow their scans promptly. */
  ghost predicate Reachable(st: State, prompt: bool) {
    exists sts, es :: Run(sts, es) && sts[|es|] == st && (prompt ==> Prompt(sts, es))
  }
}
