/** Any number of footage workers on one video, one database transaction at a time.

    Every transaction of the pipeline is one step, so between two steps of one worker any other worker, and any sweep,
    may take steps. A worker can stop for good after any of its steps. Each frame and each finding carries the number
    of the attempt that wrote it. */
module FootageAttempts {
  import opened FootageQueue
  import opened Wrappers

  const BATCH := 16

  type WorkerId = nat

  /** The video's row and its rows in footage_frames, keyed by second, and footage_findings. */
  datatype Video = Video(row: Row, frames: map<nat, nat>, findings: multiset<nat>)

  /** What an attempt has behind it. */
  datatype Stage = Claimed | Probed | Hashed | FramesCleared | Sampling | Flushed | Listed | Searched

  datatype Job = Job(attempt: nat, stage: Stage, expected: nat, written: nat, shown: int)

  datatype State = State(video: Video, jobs: map<WorkerId, Job>)

  datatype Step =
    | Sweep
    | Claim(w: WorkerId)
    | Probe(w: WorkerId, seconds: nat)
    | Hash(w: WorkerId)
    | ClearFrames(w: WorkerId)
    | ClearFindings(w: WorkerId)
    | Flush(w: WorkerId, n: nat)
    | Show(w: WorkerId)
    | AddEvents(w: WorkerId, n: nat)
    | AddAltercations(w: WorkerId, n: nat)
    | Finish(w: WorkerId)
    | Refuse(w: WorkerId)
    | Stop(w: WorkerId)
    | Crash(w: WorkerId)

  datatype Event = Event(step: Step, now: int)

  function Max(a: nat, b: nat): nat { if a > b then a else b }

  function Min(a: nat, b: nat): nat { if a < b then a else b }

  /** The progress to show once `written` of the expected frames are in the table. */
  function Progress(written: nat, expected: nat): int {
    if expected == 0 then 80 else 5 + 75 * Min(written, expected) / expected
  }

  /** The rows of one batch: n seconds one after the other. */
  function Batch(from: nat, n: nat, attempt: nat): (rows: map<nat, nat>)
    ensures forall k: nat :: k in rows <==> from <= k < from + n
    ensures forall k :: k in rows ==> rows[k] == attempt
  {
    if n == 0 then map[] else Batch(from, n - 1, attempt)[from + n - 1 := attempt]
  }

  /** The insert of a batch meets no second that is in the table already. */
  predicate Inserts(frames: map<nat, nat>, from: nat, n: nat) {
    forall k: nat :: from <= k < from + n ==> k !in frames
  }

  predicate MayDo(job: Job, frames: map<nat, nat>, step: Step) {
    match step
    case Sweep => false
    case Claim(_) => false
    case Probe(_, _) => job.stage.Claimed?
    case Hash(_) => job.stage.Probed?
    case ClearFrames(_) => job.stage.Hashed?
    case ClearFindings(_) => job.stage.FramesCleared?
    case Flush(_, n) => job.stage.Sampling? && 0 < n <= BATCH && Inserts(frames, job.written, n)
    case Show(_) => job.stage.Flushed?
    case AddEvents(_, _) => job.stage.Sampling? && job.written > 0
    case AddAltercations(_, _) => job.stage.Listed?
    case Finish(_) => job.stage.Searched?
    case Refuse(_) => job.stage.Claimed? || (job.stage.Sampling? && job.written == 0)
    case Stop(_) => true
    case Crash(_) => true
  }

  predicate Enabled(s: State, e: Event) {
    e.step.Sweep? || (if e.step.Claim? then e.step.w !in s.jobs
                      else e.step.w in s.jobs && MayDo(s.jobs[e.step.w], s.video.frames, e.step))
  }

  /** The statement on the row the step sends, if it sends one. */
  function Sent(s: State, step: Step): Option<Statement>
    requires Enabled(s, Event(step, 0))
  {
    match step
    case Sweep => Some(Statement.Release)
    case Claim(_) => Some(Statement.Claim)
    case Probe(_, _) => Some(Report(2))
    case Hash(_) => Some(Report(5))
    case Show(w) =>
      var now := Progress(s.jobs[w].written, s.jobs[w].expected);
      if now > s.jobs[w].shown then Some(Report(now)) else None
    case Finish(w) => Some(Statement.Finish(s.jobs[w].written))
    case Refuse(_) => Some(Fail)
    case Stop(_) => Some(FailAgain)
    case _ => None
  }

  function RowAfter(s: State, e: Event): Row
    requires Enabled(s, e)
  {
    assert Enabled(s, Event(e.step, 0));
    var sent := Sent(s, e.step);
    if sent.Some? then After(s.video.row, sent.value, e.now) else s.video.row
  }

  function FramesAfter(s: State, step: Step): map<nat, nat>
    requires Enabled(s, Event(step, 0))
  {
    match step
    case ClearFrames(_) => map[]
    case Flush(w, n) => s.video.frames + Batch(s.jobs[w].written, n, s.jobs[w].attempt)
    case _ => s.video.frames
  }

  function FindingsAfter(s: State, step: Step): multiset<nat>
    requires Enabled(s, Event(step, 0))
  {
    match step
    case ClearFindings(_) => multiset{}
    case AddEvents(w, n) => s.video.findings + multiset{}[s.jobs[w].attempt := n]
    case AddAltercations(w, n) => s.video.findings + multiset{}[s.jobs[w].attempt := n]
    case _ => s.video.findings
  }

  /** The job after one of its own steps; None when the attempt is over. */
  function JobAfter(job: Job, step: Step): Option<Job> {
    match step
    case Probe(_, seconds) => Some(job.(stage := Probed, expected := Max(1, seconds)))
    case Hash(_) => Some(job.(stage := Hashed))
    case ClearFrames(_) => Some(job.(stage := FramesCleared))
    case ClearFindings(_) => Some(job.(stage := Sampling, written := 0, shown := 5))
    case Flush(_, n) => Some(job.(stage := Flushed, written := job.written + n))
    case Show(_) =>
      var now := Progress(job.written, job.expected);
      Some(job.(stage := Sampling, shown := if now > job.shown then now else job.shown))
    case AddEvents(_, _) => Some(job.(stage := Listed))
    case AddAltercations(_, _) => Some(job.(stage := Searched))
    case _ => None
  }

  function JobsAfter(s: State, step: Step): map<WorkerId, Job>
    requires Enabled(s, Event(step, 0))
  {
    if step.Sweep? then s.jobs
    else if step.Claim? then
      if s.video.row.status.QUEUED? then s.jobs[step.w := Job(s.video.row.attempts + 1, Claimed, 1, 0, 0)] else s.jobs
    else
      var job := JobAfter(s.jobs[step.w], step);
      if job.Some? then s.jobs[step.w := job.value] else s.jobs - {step.w}
  }

  function Apply(s: State, e: Event): State
    requires Enabled(s, e)
  {
    assert Enabled(s, Event(e.step, 0));
    State(Video(RowAfter(s, e), FramesAfter(s, e.step), FindingsAfter(s, e.step)), JobsAfter(s, e.step))
  }

  /** An idle worker may always try to claim, a busy one may crash or stop at any stage, and a sweep may come at any
      time; a crash changes nothing in the database. */
  lemma AnythingMayHappen(s: State, w: WorkerId, now: int)
    ensures Enabled(s, Event(Sweep, now)) && (w !in s.jobs ==> Enabled(s, Event(Step.Claim(w), now)))
    ensures w in s.jobs ==>
              && Enabled(s, Event(Stop(w), now)) && Enabled(s, Event(Crash(w), now))
              && Apply(s, Event(Crash(w), now)) == State(s.video, s.jobs - {w})
  {
    if w in s.jobs { assert Enabled(s, Event(Crash(w), 0)); }
  }

  /** Finishing, refusing and stopping are one statement on the row, and the worker is done. */
  lemma EndingIsOneStatement(s: State, e: Event)
    requires Enabled(s, e) && (e.step.Finish? || e.step.Refuse? || e.step.Stop?)
    ensures Enabled(s, Event(e.step, 0)) && Sent(s, e.step).Some?
    ensures Apply(s, e) == State(s.video.(row := After(s.video.row, Sent(s, e.step).value, e.now)), s.jobs - {e.step.w})
  {
    assert Enabled(s, Event(e.step, 0));
  }

  /** The steps `es`, one after the other, lead from s to s'. */
  ghost predicate Runs(s: State, es: seq<Event>, s': State)
    decreases |es|
  {
    if es == [] then s == s' else Enabled(s, es[0]) && Runs(Apply(s, es[0]), es[1..], s')
  }

  /** A step this worker takes, or a sweep. */
  ghost predicate IsOf(step: Step, w: WorkerId) { step.Sweep? || step.w == w }

  /** Each step is this worker's or a sweep, and leads from one of the states to the next. */
  ghost predicate Passes(states: seq<State>, es: seq<Event>, w: WorkerId) {
    && |states| == |es| + 1
    && forall i :: 0 <= i < |es| ==>
         IsOf(es[i].step, w) && Enabled(states[i], es[i]) && states[i + 1] == Apply(states[i], es[i])
  }

  /** This worker's own steps, and sweeps, lead from s to s'. */
  ghost predicate IsLed(s: State, es: seq<Event>, s': State, w: WorkerId) {
    exists states :: Passes(states, es, w) && states[0] == s && states[|es|] == s'
  }

  lemma LedOn(s: State, es: seq<Event>, s': State, w: WorkerId, e: Event)
    requires IsLed(s, es, s', w) && IsOf(e.step, w) && Enabled(s', e)
    ensures IsLed(s, es + [e], Apply(s', e), w)
  {
    var states :| Passes(states, es, w) && states[0] == s && states[|es|] == s';
    assert Passes(states + [Apply(s', e)], es + [e], w);
  }

  lemma {:induction false} RunsThrough(states: seq<State>, es: seq<Event>, w: WorkerId)
    requires Passes(states, es, w)
    ensures Runs(states[0], es, states[|es|])
    decreases |es|
  {
    if es != [] {
      assert Passes(states[1..], es[1..], w);
      RunsThrough(states[1..], es[1..], w);
    }
  }

  /** What leads from one state to another is a run. */
  lemma LedIsRun(s: State, es: seq<Event>, s': State, w: WorkerId)
    requires IsLed(s, es, s', w)
    ensures Runs(s, es, s')
  {
    var states :| Passes(states, es, w) && states[0] == s && states[|es|] == s';
    RunsThrough(states, es, w);
  }

  // ---------------------------------------------------------------- what holds under any interleaving

  /** The statements of a run, in order. */
  ghost function Calls(s: State, es: seq<Event>, s': State): seq<Call>
    requires Runs(s, es, s')
    decreases |es|
  {
    if es == [] then []
    else
      assert Enabled(s, Event(es[0].step, 0));
      var sent := Sent(s, es[0].step);
      (if sent.Some? then [Call(sent.value, es[0].now)] else []) + Calls(Apply(s, es[0]), es[1..], s')
  }

  lemma {:induction false} RowFollowsItsStatements(s: State, es: seq<Event>, s': State)
    requires Runs(s, es, s')
    ensures s'.video.row == AfterAll(s.video.row, Calls(s, es, s'))
    decreases |es|
  {
    if es != [] {
      RowFollowsItsStatements(Apply(s, es[0]), es[1..], s');
      var rest := Calls(Apply(s, es[0]), es[1..], s');
      assert Enabled(s, Event(es[0].step, 0));
      var sent := Sent(s, es[0].step);
      if sent.Some? {
        assert ([Call(sent.value, es[0].now)] + rest)[1..] == rest;
      } else {
        assert [] + rest == rest;
      }
    }
  }

  /** Each worker on the video holds an attempt number of its own. */
  ghost predicate OwnNumbers(s: State) {
    && (forall w :: w in s.jobs ==> 0 < s.jobs[w].attempt <= s.video.row.attempts)
    && (forall v, w :: v in s.jobs && w in s.jobs && v != w ==> s.jobs[v].attempt != s.jobs[w].attempt)
  }

  /** A claim that is granted gives out a number nobody has. */
  lemma ClaimKeepsOwnNumbers(s: State, e: Event)
    requires OwnNumbers(s) && Enabled(s, e) && e.step.Claim?
    ensures OwnNumbers(Apply(s, e)) && Apply(s, e).video.row.attempts >= s.video.row.attempts
  {
    assert Enabled(s, Event(e.step, 0));
  }

  lemma OnlyClaimsAttempt(s: State, e: Event)
    requires Enabled(s, e) && !e.step.Claim?
    ensures RowAfter(s, e).attempts == s.video.row.attempts
  {
  }

  lemma JobsKeepTheirNumbers(s: State, step: Step)
    requires Enabled(s, Event(step, 0)) && !step.Claim?
    ensures forall w :: w in JobsAfter(s, step) ==> w in s.jobs && JobsAfter(s, step)[w].attempt == s.jobs[w].attempt
  {
  }

  lemma OthersKeepOwnNumbers(s: State, e: Event)
    requires OwnNumbers(s) && Enabled(s, e) && !e.step.Claim?
    ensures OwnNumbers(Apply(s, e)) && Apply(s, e).video.row.attempts == s.video.row.attempts
  {
    assert Enabled(s, Event(e.step, 0));
    OnlyClaimsAttempt(s, e);
    JobsKeepTheirNumbers(s, e.step);
  }

  lemma StepKeepsOwnNumbers(s: State, e: Event)
    requires OwnNumbers(s) && Enabled(s, e)
    ensures OwnNumbers(Apply(s, e)) && Apply(s, e).video.row.attempts >= s.video.row.attempts
  {
    if e.step.Claim? {
      ClaimKeepsOwnNumbers(s, e);
    } else {
      OthersKeepOwnNumbers(s, e);
    }
  }

  lemma {:induction false} RunKeepsOwnNumbers(s: State, es: seq<Event>, s': State)
    requires OwnNumbers(s) && Runs(s, es, s')
    ensures OwnNumbers(s')
    decreases |es|
  {
    if es != [] {
      StepKeepsOwnNumbers(s, es[0]);
      RunKeepsOwnNumbers(Apply(s, es[0]), es[1..], s');
    }
  }

  lemma SettledForGood(s: State, e: Event)
    requires Enabled(s, e) && WellFormed(s.video.row) && Settled(s.video.row)
    ensures Apply(s, e).video.row.status == s.video.row.status
  {
  }

  /** With takeovers, crashes and sweeps in any order, a new video is attempted at most three times in all, each attempt
      by one worker only, and once it is READY or FAILED no step of any worker changes that. */
  lemma AtMostThreeAttempts(s: State, es: seq<Event>, s': State)
    requires Fresh(s.video.row) && s.jobs == map[] && Runs(s, es, s')
    ensures s'.video.row.attempts <= MOST_ATTEMPTS && OwnNumbers(s')
    ensures s'.video.row.status.QUEUED? ==> s'.video.row.attempts < MOST_ATTEMPTS
    ensures Grants(s.video.row, Calls(s, es, s')) == s'.video.row.attempts
    ensures forall e | Enabled(s', e) && Settled(s'.video.row) :: Apply(s', e).video.row.status == s'.video.row.status
  {
    RowFollowsItsStatements(s, es, s');
    VideoSettles(s.video.row, Calls(s, es, s'));
    RunKeepsOwnNumbers(s, es, s');
    forall e | Enabled(s', e) && Settled(s'.video.row)
      ensures Apply(s', e).video.row.status == s'.video.row.status
    {
      SettledForGood(s', e);
    }
  }
}
