/** What a finished video holds, as long as no sweep gives it to another worker while one is still at it. */
module FootageContents {
  import opened FootageQueue
  import opened FootageAttempts
  import opened Wrappers

  /** A sweep that puts the video back in the queue comes only when nobody is at it. */
  ghost predicate Untaken(s: State, e: Event) {
    e.step.Sweep? && IsStale(s.video.row, e.now) && s.video.row.attempts < MOST_ATTEMPTS ==> s.jobs == map[]
  }

  ghost predicate SoloRuns(s: State, es: seq<Event>, s': State)
    decreases |es|
  {
    if es == [] then s == s'
    else Enabled(s, es[0]) && Untaken(s, es[0]) && SoloRuns(Apply(s, es[0]), es[1..], s')
  }

  /** Seconds 0 to n-1, each once, all written by this attempt. */
  ghost predicate OwnFrames(frames: map<nat, nat>, n: nat, attempt: nat) {
    && (forall k: nat :: k in frames <==> k < n)
    && (forall k: nat :: k in frames ==> frames[k] == attempt)
  }

  ghost predicate OwnFindings(findings: multiset<nat>, attempt: nat) {
    forall t :: t in findings ==> t == attempt
  }

  /** A finished video: every second up to the number of frames indexed, and nothing of an earlier attempt. */
  ghost predicate Complete(v: Video) {
    && v.row.framesIndexed > 0 && v.row.progress == 100
    && OwnFrames(v.frames, v.row.framesIndexed, v.row.attempts)
    && OwnFindings(v.findings, v.row.attempts)
  }

  ghost predicate HasSampled(stage: Stage) { stage.Sampling? || stage.Flushed? || stage.Listed? || stage.Searched? }

  /** Where the one worker at the video stands. */
  ghost predicate Working(v: Video, job: Job) {
    && v.row.status.PROCESSING? && v.row.attempts == job.attempt && job.expected > 0
    && (job.stage.Claimed? ==> v.row.progress == 0)
    && (job.stage.Probed? ==> v.row.progress == 2)
    && (job.stage.Hashed? || job.stage.FramesCleared? ==> v.row.progress == 5)
    && (job.stage.FramesCleared? ==> v.frames == map[])
    && (HasSampled(job.stage) ==>
          && OwnFrames(v.frames, job.written, job.attempt) && OwnFindings(v.findings, job.attempt)
          && v.row.progress == job.shown && 5 <= job.shown <= 80)
    && (HasSampled(job.stage) && !job.stage.Flushed? ==> job.shown >= Progress(job.written, job.expected))
    && (job.stage.Flushed? || job.stage.Listed? || job.stage.Searched? ==> job.written > 0)
  }

  ghost predicate OneWorker(s: State, w: WorkerId) {
    w in s.jobs && s.jobs == map[w := s.jobs[w]] && Working(s.video, s.jobs[w])
  }

  ghost predicate NoWorker(s: State) {
    s.jobs == map[] && (s.video.row.status.READY? ==> Complete(s.video))
  }

  /** Nobody is at it, one worker is, or it has failed for good, whoever may still be at it. */
  ghost predicate Inv(s: State) {
    NoWorker(s) || s.video.row.status.FAILED? || exists w :: OneWorker(s, w)
  }

  lemma DivisionBounds(a: nat, d: nat)
    requires d > 0 && a <= 75 * d
    ensures 0 <= a / d <= 75
  {
    var q := a / d;
    assert q * d <= a;
    Monotone(76, q, d);
  }

  lemma Monotone(a: nat, b: nat, d: nat)
    ensures a <= b ==> a * d <= b * d
  {
    if a <= b { assert b * d == a * d + (b - a) * d; }
  }

  lemma ProgressIsAPercentage(written: nat, expected: nat)
    ensures 5 <= Progress(written, expected) <= 80
  {
    if expected > 0 { DivisionBounds(75 * Min(written, expected), expected); }
  }

  lemma QuotientIs(n: nat, d: nat)
    requires d > 0
    ensures 0 <= n - n / d * d < d
  {
  }

  lemma QuotientOfProduct(a: nat, d: nat)
    requires d > 0
    ensures a * d / d == a
  {
    QuotientIs(a * d, d);
    var q := a * d / d;
    assert 0 <= (a - q) * d < d;
    assert !(a - q >= 1) by { if a - q >= 1 { Monotone(1, a - q, d); } }
  }

  /** From 5 to 80, in proportion to the frames written, rounded down. */
  lemma ProgressIsTheShare(written: nat, expected: nat)
    ensures written >= expected ==> Progress(written, expected) == 80
    ensures written < expected ==> 0 <= 75 * written - (Progress(written, expected) - 5) * expected < expected
  {
    if 0 < expected <= written {
      QuotientOfProduct(75, expected);
    } else if written < expected {
      QuotientIs(75 * written, expected);
    }
  }

  /** The frames after a batch are the seconds up to its end. */
  lemma BatchExtends(frames: map<nat, nat>, from: nat, n: nat, attempt: nat)
    requires OwnFrames(frames, from, attempt)
    ensures OwnFrames(frames + Batch(from, n, attempt), from + n, attempt)
  {
    var more := frames + Batch(from, n, attempt);
    forall k: nat
      ensures k in more <==> k < from + n
      ensures k in more ==> more[k] == attempt
    {
      assert k in Batch(from, n, attempt) <==> from <= k < from + n;
    }
  }

  /** Once an attempt has cleared the table its inserts meet nothing an earlier attempt left. */
  lemma InsertsNeverCollide(s: State, w: WorkerId, n: nat)
    requires OneWorker(s, w) && HasSampled(s.jobs[w].stage)
    ensures Inserts(s.video.frames, s.jobs[w].written, n)
  {
  }

  /** The row after one of the worker's own steps that does not end the attempt. */
  lemma WorkOnRow(s: State, e: Event, w: WorkerId)
    requires OneWorker(s, w) && Enabled(s, e) && !e.step.Sweep? && !e.step.Claim? && e.step.w == w
    requires JobAfter(s.jobs[w], e.step).Some?
    ensures var row, row', job' := s.video.row, RowAfter(s, e), JobAfter(s.jobs[w], e.step).value;
            && row'.status.PROCESSING? && row'.attempts == row.attempts == job'.attempt
            && (job'.stage.Probed? ==> row'.progress == 2)
            && (job'.stage.Hashed? || job'.stage.FramesCleared? ==> row'.progress == 5)
            && (HasSampled(job'.stage) ==> row'.progress == job'.shown && 5 <= job'.shown <= 80)
  {
    assert Enabled(s, Event(e.step, 0));
    ProgressIsAPercentage(s.jobs[w].written, s.jobs[w].expected);
  }

  /** The tables after it. */
  lemma WorkOnTables(s: State, e: Event, w: WorkerId)
    requires OneWorker(s, w) && Enabled(s, e) && !e.step.Sweep? && !e.step.Claim? && e.step.w == w
    requires JobAfter(s.jobs[w], e.step).Some? && Enabled(s, Event(e.step, 0))
    ensures var job' := JobAfter(s.jobs[w], e.step).value;
            && (job'.stage.FramesCleared? ==> FramesAfter(s, e.step) == map[])
            && (HasSampled(job'.stage) ==>
                  && OwnFrames(FramesAfter(s, e.step), job'.written, job'.attempt)
                  && OwnFindings(FindingsAfter(s, e.step), job'.attempt))
  {
    if e.step.Flush? { BatchExtends(s.video.frames, s.jobs[w].written, e.step.n, s.jobs[w].attempt); }
  }

  lemma WorkGoesOn(s: State, e: Event, w: WorkerId)
    requires OneWorker(s, w) && Enabled(s, e) && !e.step.Sweep? && !e.step.Claim? && e.step.w == w
    requires JobAfter(s.jobs[w], e.step).Some?
    ensures OneWorker(Apply(s, e), w)
  {
    assert Enabled(s, Event(e.step, 0));
    WorkOnRow(s, e, w);
    WorkOnTables(s, e, w);
    assert Apply(s, e).jobs == map[w := JobAfter(s.jobs[w], e.step).value];
  }

  /** A step that ends the attempt. */
  lemma WorkEnds(s: State, e: Event, w: WorkerId)
    requires OneWorker(s, w) && Enabled(s, e) && !e.step.Sweep? && !e.step.Claim? && e.step.w == w
    requires JobAfter(s.jobs[w], e.step).None?
    ensures NoWorker(Apply(s, e))
  {
    assert Enabled(s, Event(e.step, 0));
    assert Apply(s, e).jobs == map[];
  }

  /** No statement takes a video out of FAILED. */
  lemma FailedStays(s: State, e: Event)
    requires s.video.row.status.FAILED? && Enabled(s, e)
    ensures Apply(s, e).video.row.status.FAILED?
  {
  }

  lemma OneWorkerStep(s: State, e: Event, w: WorkerId)
    requires OneWorker(s, w) && Enabled(s, e) && Untaken(s, e)
    ensures OneWorker(Apply(s, e), w) || NoWorker(Apply(s, e)) || Apply(s, e).video.row.status.FAILED?
  {
    assert Enabled(s, Event(e.step, 0));
    if e.step.Sweep? || e.step.Claim? {
      assert Apply(s, e).jobs == s.jobs && Apply(s, e).video.frames == s.video.frames;
      assert Apply(s, e).video.row == s.video.row || Apply(s, e).video.row.status.FAILED?;
    } else if JobAfter(s.jobs[w], e.step).Some? {
      WorkGoesOn(s, e, w);
    } else {
      WorkEnds(s, e, w);
    }
  }

  lemma NoWorkerStep(s: State, e: Event)
    requires NoWorker(s) && Enabled(s, e) && !e.step.Sweep?
    ensures NoWorker(Apply(s, e)) || OneWorker(Apply(s, e), e.step.w)
  {
    assert Enabled(s, Event(e.step, 0));
  }

  lemma StepKeepsInv(s: State, e: Event)
    requires Inv(s) && Enabled(s, e) && Untaken(s, e)
    ensures Inv(Apply(s, e))
  {
    if s.video.row.status.FAILED? {
      FailedStays(s, e);
    } else if NoWorker(s) {
      if e.step.Sweep? {
        assert Enabled(s, Event(Sweep, 0));
        assert NoWorker(Apply(s, e));
      } else {
        NoWorkerStep(s, e);
      }
    } else {
      var w :| OneWorker(s, w);
      OneWorkerStep(s, e, w);
    }
  }

  lemma {:induction false} RunKeepsInv(s: State, es: seq<Event>, s': State)
    requires Inv(s) && SoloRuns(s, es, s')
    ensures Inv(s')
    decreases |es|
  {
    if es != [] {
      StepKeepsInv(s, es[0]);
      RunKeepsInv(Apply(s, es[0]), es[1..], s');
    }
  }

  /** Whatever rows earlier attempts left, and however often workers stopped along the way: a video that is READY holds
      one frame for each second from 0 to framesIndexed - 1, and those frames and all findings are from its last
      attempt. */
  lemma ReadyIsComplete(s: State, es: seq<Event>, s': State)
    requires s.jobs == map[] && !s.video.row.status.READY? && SoloRuns(s, es, s')
    ensures s'.video.row.status.READY? ==> Complete(s'.video)
  {
    RunKeepsInv(s, es, s');
  }

  /** Between its claim and its end an attempt's progress never falls, and stays at most 80 until it finishes. */
  lemma ProgressClimbs(s: State, e: Event, w: WorkerId)
    requires OneWorker(s, w) && Enabled(s, e)
    ensures var row, row' := s.video.row, Apply(s, e).video.row;
            && row.progress <= 80 && row'.progress >= row.progress
            && (row'.progress > 80 ==> row'.status.READY?)
  {
    assert Enabled(s, Event(e.step, 0));
    ProgressIsAPercentage(s.jobs[w].written, s.jobs[w].expected);
  }

  /** What process returns for an attempt that ends with this step. */
  function Outcome(job: Job, step: Step): Status
    requires step.Finish? || step.Refuse? || step.Stop?
  {
    if step.Finish? then READY
    else if step.Refuse? then FAILED
    else if job.attempt < MOST_ATTEMPTS then QUEUED else FAILED
  }

  /** process returns what the row says. */
  lemma OutcomeIsTheStatus(s: State, e: Event, w: WorkerId)
    requires OneWorker(s, w) && Enabled(s, e) && (e.step.Finish? || e.step.Refuse? || e.step.Stop?)
    ensures e.step.w == w && Apply(s, e).video.row.status == Outcome(s.jobs[w], e.step)
  {
    assert Enabled(s, Event(e.step, 0));
  }
}
