/** What happens when a sweep frees a video that a worker is still at, exactly. */
module FootageTakeover {
  import opened FootageQueue
  import opened FootageAttempts
  import opened FootageContents

  ghost predicate Leads(s: State, s': State) { exists es :: Runs(s, es, s') }

  lemma LeadsToItself(s: State)
    ensures Leads(s, s)
  {
    assert Runs(s, [], s);
  }

  lemma RunsFirst(s: State, e: Event, es: seq<Event>, s': State)
    requires Enabled(s, e) && Runs(Apply(s, e), es, s')
    ensures Runs(s, [e] + es, s')
  {
    assert ([e] + es)[1..] == es;
  }

  lemma LeadsFrom(s: State, e: Event, s': State)
    requires Enabled(s, e) && Leads(Apply(s, e), s')
    ensures Leads(s, s')
  {
    var es :| Runs(Apply(s, e), es, s');
    RunsFirst(s, e, es, s');
  }

  // ---------------------------------------------------------------- the worker that was taken over goes on

  /** The video is PROCESSING, whoever claimed it last, and the frames in the table are those this worker wrote. */
  ghost predicate AtWork(s: State, w: WorkerId) {
    && w in s.jobs && s.video.row.status.PROCESSING?
    && (s.jobs[w].stage.FramesCleared? ==> s.video.frames == map[])
    && (HasSampled(s.jobs[w].stage) ==> OwnFrames(s.video.frames, s.jobs[w].written, s.jobs[w].attempt))
    && (s.jobs[w].stage.Flushed? || s.jobs[w].stage.Listed? || s.jobs[w].stage.Searched? ==> s.jobs[w].written > 0)
  }

  /** The step that takes it nearer to the end, with one frame to sample and nothing to find. */
  function Next(job: Job, w: WorkerId): Step
    requires !job.stage.Searched?
  {
    match job.stage
    case Claimed => Probe(w, 1)
    case Probed => Hash(w)
    case Hashed => ClearFrames(w)
    case FramesCleared => ClearFindings(w)
    case Sampling => if job.written == 0 then Flush(w, 1) else AddEvents(w, 0)
    case Flushed => Show(w)
    case Listed => AddAltercations(w, 0)
  }

  function Ahead(job: Job): nat {
    match job.stage
    case Claimed => 9
    case Probed => 8
    case Hashed => 7
    case FramesCleared => 6
    case Sampling => if job.written == 0 then 5 else 3
    case Flushed => 4
    case Listed => 2
    case Searched => 0
  }

  /** The frames stay its own. */
  lemma NextKeepsFrames(s: State, w: WorkerId)
    requires AtWork(s, w) && !s.jobs[w].stage.Searched?
    ensures var job := s.jobs[w];
            && Enabled(s, Event(Next(job, w), 0)) && JobAfter(job, Next(job, w)).Some?
            && var job', frames := JobAfter(job, Next(job, w)).value, FramesAfter(s, Next(job, w));
               && Ahead(job') < Ahead(job)
               && (job'.stage.FramesCleared? ==> frames == map[])
               && (HasSampled(job'.stage) ==> OwnFrames(frames, job'.written, job'.attempt))
               && (job'.stage.Flushed? || job'.stage.Listed? || job'.stage.Searched? ==> job'.written > 0)
  {
    var job := s.jobs[w];
    if job.stage.Sampling? && job.written == 0 { BatchExtends(s.video.frames, 0, 1, job.attempt); }
  }

  lemma NextKeepsRow(s: State, w: WorkerId, now: int)
    requires AtWork(s, w) && !s.jobs[w].stage.Searched? && Enabled(s, Event(Next(s.jobs[w], w), now))
    ensures var row := RowAfter(s, Event(Next(s.jobs[w], w), now));
            row.status.PROCESSING? && row.attempts == s.video.row.attempts
  {
  }

  lemma GoesOn(s: State, w: WorkerId, now: int) returns (e: Event, t: State)
    requires AtWork(s, w) && !s.jobs[w].stage.Searched?
    ensures Enabled(s, e) && t == Apply(s, e) && AtWork(t, w) && Ahead(t.jobs[w]) < Ahead(s.jobs[w])
    ensures t.jobs == s.jobs[w := t.jobs[w]]
  {
    e := Event(Next(s.jobs[w], w), now);
    NextKeepsFrames(s, w);
    NextKeepsRow(s, w, now);
    t := Apply(s, e);
  }

  // ---------------------------------------------------------------- while another worker begins

  /** Worker v has just claimed the video. */
  ghost predicate HasClaimed(s: State, v: WorkerId) {
    v in s.jobs && s.jobs[v].stage.Claimed? && s.video.row.status.PROCESSING?
  }

  ghost predicate IsSpoilt(s: State) {
    s.video.row.status.READY? && s.video.row.framesIndexed > 0 && s.video.frames == map[]
  }

  lemma SpoiltIsNotComplete(s: State)
    requires IsSpoilt(s)
    ensures !Complete(s.video)
  {
    assert 0 !in s.video.frames;
  }

  lemma FinishSpoils(s: State, w: WorkerId, now: int) returns (s': State)
    requires w in s.jobs && s.jobs[w].stage.Searched? && s.jobs[w].written > 0
    requires s.video.row.status.PROCESSING? && s.video.frames == map[]
    ensures Leads(s, s') && IsSpoilt(s')
  {
    var finish := Event(Step.Finish(w), now);
    s' := Apply(s, finish);
    LeadsToItself(s');
    LeadsFrom(s, finish, s');
  }

  /** v reads what the file is and deletes the frames; then w marks the video READY. */
  lemma OtherClears(s: State, w: WorkerId, v: WorkerId, now: int) returns (s': State)
    requires AtWork(s, w) && s.jobs[w].stage.Searched? && HasClaimed(s, v) && v != w
    ensures Leads(s, s') && IsSpoilt(s')
  {
    var s1 := Apply(s, Event(Probe(v, 1), now));
    var s2 := Apply(s1, Event(Hash(v), now));
    var s3 := Apply(s2, Event(ClearFrames(v), now));
    s' := FinishSpoils(s3, w, now);
    LeadsFrom(s2, Event(ClearFrames(v), now), s');
    LeadsFrom(s1, Event(Hash(v), now), s');
    LeadsFrom(s, Event(Probe(v, 1), now), s');
  }

  /** w goes on to its end before v deletes the frames. */
  lemma EndsSpoilt(s: State, w: WorkerId, v: WorkerId, now: int) returns (s': State)
    requires AtWork(s, w) && HasClaimed(s, v) && v != w
    ensures Leads(s, s') && IsSpoilt(s')
    decreases Ahead(s.jobs[w])
  {
    if s.jobs[w].stage.Searched? {
      s' := OtherClears(s, w, v, now);
    } else {
      var e, t := GoesOn(s, w, now);
      s' := EndsSpoilt(t, w, v, now);
      LeadsFrom(s, e, s');
    }
  }

  /** A video in the queue that a worker is still at: another claims it, the first goes on to its end, the other deletes
      the frames, and the first marks the video READY. */
  lemma QueuedWhileAtWork(s: State, w: WorkerId, now: int) returns (s': State)
    requires w in s.jobs && s.video.row.status.QUEUED? && (w + 1) !in s.jobs
    requires AtWork(s.(video := s.video.(row := s.video.row.(status := PROCESSING))), w)
    ensures Leads(s, s') && IsSpoilt(s')
  {
    var v: WorkerId := w + 1;
    var claim := Event(Step.Claim(v), now);
    s' := EndsSpoilt(Apply(s, claim), w, v, now);
    LeadsFrom(s, claim, s');
  }

  lemma {:induction false} FailedIsFinal(s: State, es: seq<Event>, s': State)
    requires s.video.row.status.FAILED? && Runs(s, es, s')
    ensures s'.video.row.status.FAILED?
    decreases |es|
  {
    if es != [] {
      FailedStays(s, es[0]);
      FailedIsFinal(Apply(s, es[0]), es[1..], s');
    }
  }

  ghost predicate CanBeSpoilt(s: State) {
    exists s' :: Leads(s, s') && s'.video.row.status.READY? && !Complete(s'.video)
  }

  /** A stale sweep under a worker that is still at the video, at whatever stage, can end in a READY video that is not
      complete if and only if the sweep puts it back in the queue: with attempts left it can end READY with no frames at
      all, and after the last attempt it never ends READY. */
  lemma TakeoverSpoilsIff(s: State, w: WorkerId, now: int)
    requires OneWorker(s, w) && IsStale(s.video.row, now)
    ensures CanBeSpoilt(Apply(s, Event(Sweep, now))) <==> s.video.row.attempts < MOST_ATTEMPTS
  {
    assert Enabled(s, Event(Sweep, 0));
    var freed := Apply(s, Event(Sweep, now));
    if s.video.row.attempts < MOST_ATTEMPTS {
      var s' := QueuedWhileAtWork(freed, w, now);
      SpoiltIsNotComplete(s');
    } else {
      forall s' | Leads(freed, s')
        ensures s'.video.row.status.FAILED?
      {
        var es :| Runs(freed, es, s');
        FailedIsFinal(freed, es, s');
      }
    }
  }

  /** So it happens to a video fresh in the queue: one worker claims it and is slow, a sweep frees it, and in the end it
      is READY with frames indexed and none in the table. */
  lemma FreshVideoCanBeSpoilt(s: State)
    requires Fresh(s.video.row) && s.jobs == map[]
    ensures exists s' :: Leads(s, s') && IsSpoilt(s')
  {
    var claim := Event(Step.Claim(0), 0);
    var s1 := Apply(s, claim);
    assert Enabled(s, claim) && s1.video.row == Row(PROCESSING, 1, 0, 0, s.video.row.framesIndexed);
    assert Enabled(s1, Event(Sweep, 0));
    var sweep := Event(Sweep, STALE_AFTER + 1);
    var s2 := Apply(s1, sweep);
    var s' := QueuedWhileAtWork(s2, 0, STALE_AFTER + 1);
    LeadsFrom(s1, sweep, s');
    LeadsFrom(s, claim, s');
  }
}
