/** The pipeline of one footage worker: an attempt at a video, from its claim to what becomes of it. */
module FootageWorker {
  import opened FootageQueue
  import opened FightWindows
  import opened Sorting
  import opened Stretches
  import opened Wrappers
  import Attempts = FootageAttempts
  import FootageContents

  const MAX_SECONDS := 6 * 3600
  const SHARE := 0.5
  const LEAST_PEOPLE := 2

  /** What the detector and the screen make of one sampled frame. */
  datatype Picture = Picture(people: Count, vehicles: Count, share: real, described: nat)

  /** Which of the models are installed. */
  datatype Models = Models(detector: bool, screen: bool, poser: bool)

  /** A row of footage_frames. */
  datatype FrameRow = FrameRow(people: Option<int>, vehicles: Option<int>)

  datatype Finding = Seen(event: Event) | Altercation(window: Window)

  datatype Outcome = Became(status: Status) | SKIPPED

  /** What an analysis comes to: its end, an error that is the file's own, or any other. */
  datatype Ending = Done | NotAVideo | Broke

  // ---------------------------------------------------------------- what the tables should hold

  function RowOf(p: Picture, m: Models): FrameRow {
    if m.detector then FrameRow(Some(p.people.n), Some(p.vehicles.n)) else FrameRow(None, None)
  }

  function Rows(pictures: seq<Picture>, m: Models, k: nat): map<int, FrameRow>
    requires k <= |pictures|
  {
    if k == 0 then map[] else Rows(pictures, m, k - 1)[k - 1 := RowOf(pictures[k - 1], m)]
  }

  /** One row for each second from 0 to k - 1, and no other. */
  lemma {:induction false} RowsAreTheSeconds(pictures: seq<Picture>, m: Models, k: nat)
    requires k <= |pictures|
    ensures forall s :: s in Rows(pictures, m, k) <==> 0 <= s < k
    ensures forall s :: 0 <= s < k ==>
              Rows(pictures, m, k)[s].people == (if m.detector then Some(pictures[s].people.n) else None)
    ensures forall s :: 0 <= s < k ==>
              Rows(pictures, m, k)[s].vehicles == (if m.detector then Some(pictures[s].vehicles.n) else None)
  {
    if k > 0 { RowsAreTheSeconds(pictures, m, k - 1); }
  }

  lemma RowAdded(table: map<int, FrameRow>, rows: map<int, FrameRow>, second: int, row: FrameRow)
    ensures table + rows[second := row] == (table + rows)[second := row]
  {
  }

  function CountOf(p: Picture, kind: Kind): Count { if kind.PEOPLE? then p.people else p.vehicles }

  /** What was counted in each of the first k seconds. */
  function Counts(pictures: seq<Picture>, kind: Kind, k: nat): map<int, Count>
    requires k <= |pictures|
  {
    if k == 0 then map[] else Counts(pictures, kind, k - 1)[k - 1 := CountOf(pictures[k - 1], kind)]
  }

  function SampleOf(p: Picture, m: Models): Sample {
    Sample(p.share, if m.detector then p.people.n else 0, p.described)
  }

  function Samples(pictures: seq<Picture>, m: Models, k: nat): map<int, Sample>
    requires k <= |pictures|
  {
    if k == 0 then map[] else Samples(pictures, m, k - 1)[k - 1 := SampleOf(pictures[k - 1], m)]
  }

  /** What was counted is, for each second, the count of that kind with its best score. */
  lemma {:induction false} CountsAreThePictures(pictures: seq<Picture>, kind: Kind, k: nat)
    requires k <= |pictures|
    ensures forall s :: s in Counts(pictures, kind, k) <==> 0 <= s < k
    ensures forall s :: 0 <= s < k ==>
              Counts(pictures, kind, k)[s] == match kind
                                              case PEOPLE => pictures[s].people
                                              case VEHICLES => pictures[s].vehicles
  {
    if k > 0 { CountsAreThePictures(pictures, kind, k - 1); }
  }

  /** What is screened is, for each second, the share and description of its picture, with the people counted in it. */
  lemma {:induction false} SamplesAreThePictures(pictures: seq<Picture>, m: Models, k: nat)
    requires k <= |pictures|
    ensures forall s :: s in Samples(pictures, m, k) <==> 0 <= s < k
    ensures forall s :: 0 <= s < k ==>
              var sample := Samples(pictures, m, k)[s];
              && sample.share == pictures[s].share && sample.which == pictures[s].described
              && (m.detector ==> sample.people == pictures[s].people.n) && (!m.detector ==> sample.people == 0)
  {
    if k > 0 { SamplesAreThePictures(pictures, m, k - 1); }
  }

  function AsFindings(events: seq<Event>): (found: seq<Finding>)
    ensures |found| == |events| && forall i :: 0 <= i < |found| ==> found[i] == Seen(events[i])
  {
    seq(|events|, i requires 0 <= i < |events| => Seen(events[i]))
  }

  /** The windows the pose model confirms, in order. */
  function Confirmed(windows: seq<Window>, confirms: Window -> bool, k: nat): seq<Finding>
    requires k <= |windows|
  {
    if k == 0 then []
    else
      var before := Confirmed(windows, confirms, k - 1);
      if confirms(windows[k - 1]) then before + [Altercation(windows[k - 1])] else before
  }

  /** The places, among the first k, of the windows it confirms. */
  function Places(windows: seq<Window>, confirms: Window -> bool, k: nat): seq<nat>
    requires k <= |windows|
  {
    if k == 0 then []
    else
      var before := Places(windows, confirms, k - 1);
      if confirms(windows[k - 1]) then before + [k - 1] else before
  }

  lemma {:induction false} PlacesAre(windows: seq<Window>, confirms: Window -> bool, k: nat)
    requires k <= |windows|
    ensures forall i :: i in Places(windows, confirms, k) <==> 0 <= i < k && confirms(windows[i])
  {
    if k > 0 { PlacesAre(windows, confirms, k - 1); }
  }

  lemma {:induction false} PlacesInOrder(windows: seq<Window>, confirms: Window -> bool, k: nat)
    requires k <= |windows|
    ensures Increasing(Places(windows, confirms, k))
  {
    if k > 0 {
      PlacesInOrder(windows, confirms, k - 1);
      PlacesAre(windows, confirms, k - 1);
      var before := Places(windows, confirms, k - 1);
      forall i | 0 <= i < |before| ensures before[i] < k - 1 { assert before[i] in before; }
    }
  }

  /** `found` lists the windows at these places. */
  ghost predicate AreAt(windows: seq<Window>, found: seq<Finding>, at: seq<nat>) {
    && |found| == |at|
    && forall j :: 0 <= j < |at| ==> at[j] < |windows| && found[j] == Altercation(windows[at[j]])
  }

  lemma OneMoreAt(windows: seq<Window>, found: seq<Finding>, at: seq<nat>, i: nat)
    requires AreAt(windows, found, at) && i < |windows|
    ensures AreAt(windows, found + [Altercation(windows[i])], at + [i])
  {
  }

  lemma {:induction false} ConfirmedAreAt(windows: seq<Window>, confirms: Window -> bool, k: nat)
    requires k <= |windows|
    ensures AreAt(windows, Confirmed(windows, confirms, k), Places(windows, confirms, k))
  {
    if k > 0 {
      ConfirmedAreAt(windows, confirms, k - 1);
      OneMoreAt(windows, Confirmed(windows, confirms, k - 1), Places(windows, confirms, k - 1), k - 1);
    }
  }

  /** What is confirmed are the windows the pose model confirms, each once for its place, and in the windows' order. */
  lemma ConfirmedInOrder(windows: seq<Window>, confirms: Window -> bool)
    ensures var found, at := Confirmed(windows, confirms, |windows|), Places(windows, confirms, |windows|);
            AreAt(windows, found, at) && Increasing(at)
    ensures forall i :: i in Places(windows, confirms, |windows|) <==> 0 <= i < |windows| && confirms(windows[i])
  {
    ConfirmedAreAt(windows, confirms, |windows|);
    PlacesAre(windows, confirms, |windows|);
    PlacesInOrder(windows, confirms, |windows|);
  }

  ghost predicate AreEvents(pictures: seq<Picture>, kind: Kind, events: seq<Event>) {
    var counts := Counts(pictures, kind, |pictures|);
    AreStretches(Positive(counts), counts, 3, kind, events)
  }

  ghost predicate AreScreened(pictures: seq<Picture>, m: Models, windows: seq<Window>) {
    var samples := Samples(pictures, m, |pictures|);
    AreWindows(Flagged(Candidates(samples, 0.5, 2)), samples, windows)
  }

  ghost predicate EventsFound(pictures: seq<Picture>, m: Models, people: seq<Event>, vehicles: seq<Event>) {
    if m.detector then AreEvents(pictures, PEOPLE, people) && AreEvents(pictures, VEHICLES, vehicles)
    else people == [] && vehicles == []
  }

  ghost predicate WindowsFound(pictures: seq<Picture>, m: Models, windows: seq<Window>) {
    if m.detector && m.screen && m.poser then AreScreened(pictures, m, windows) else windows == []
  }

  /** The events people and vehicles make, and the windows that may be altercations, found in these pictures. */
  ghost predicate AreFindings(pictures: seq<Picture>, m: Models, confirms: Window -> bool, findings: seq<Finding>) {
    exists people, vehicles, windows ::
      HaveFound(pictures, m, confirms, findings, people, vehicles, windows)
  }

  ghost predicate HaveFound(pictures: seq<Picture>, m: Models, confirms: Window -> bool, findings: seq<Finding>,
                            people: seq<Event>, vehicles: seq<Event>, windows: seq<Window>)
  {
    && findings == AsFindings(people) + AsFindings(vehicles) + Confirmed(windows, confirms, |windows|)
    && EventsFound(pictures, m, people, vehicles) && WindowsFound(pictures, m, windows)
  }

  // ---------------------------------------------------------------- the database

  /** The video in the database, and the worker that is connected to it. The clock is the database's own. `machine` is
      where the interleaved workers of FootageAttempts stand, and `steps` what led them there. */
  class FootageDb {
    ghost const w: Attempts.WorkerId
    ghost const begun: Attempts.State
    var row: Row
    var frames: map<int, FrameRow>
    var findings: seq<Finding>
    var clock: int
    ghost var machine: Attempts.State
    ghost var steps: seq<Attempts.Event>

    /** The machine holds the same row, the same seconds and as many findings. */
    ghost predicate Agrees()
      reads this`row, this`frames, this`findings, this`machine
    {
      && machine.video.row == row
      && (forall k: nat :: k in machine.video.frames <==> k in frames)
      && |machine.video.findings| == |findings|
    }

    /** Its steps, all of this worker or sweeps, led to where the tables are. */
    ghost predicate Valid()
      reads this
    {
      Attempts.IsLed(begun, steps, machine, w) && Agrees()
    }

    /** So what is proved of the machine's runs is proved of the tables. */
    lemma TablesFollowARun()
      requires Valid()
      ensures Attempts.Runs(begun, steps, machine)
      ensures row == AfterAll(begun.video.row, Attempts.Calls(begun, steps, machine))
    {
      Attempts.LedIsRun(begun, steps, machine, w);
      Attempts.RowFollowsItsStatements(begun, steps, machine);
    }

    /** The attempt of this worker that is under way. */
    ghost predicate IsAt(stage: Attempts.Stage)
      reads this
    {
      w in machine.jobs && machine.jobs[w].stage == stage && machine.jobs[w].attempt == row.attempts
    }

    /** The machine takes a step, and only one. */
    ghost method Follow(step: Attempts.Step)
      requires Attempts.IsLed(begun, steps, machine, w)
      requires Attempts.IsOf(step, w) && Attempts.Enabled(machine, Attempts.Event(step, clock))
      modifies this`machine, this`steps
      ensures Attempts.IsLed(begun, steps, machine, w)
      ensures steps == old(steps) + [Attempts.Event(step, clock)]
      ensures machine == Attempts.Apply(old(machine), Attempts.Event(step, clock))
    {
      var e := Attempts.Event(step, clock);
      Attempts.LedOn(begun, steps, machine, w, e);
      machine, steps := Attempts.Apply(machine, e), steps + [e];
    }

    /** The step that ends the attempt, the row being what its statement makes of it. */
    ghost method End(step: Attempts.Step)
      requires Attempts.IsLed(begun, steps, machine, w)
      requires (step.Finish? || step.Refuse? || step.Stop?) && step.w == w
      requires Attempts.Enabled(machine, Attempts.Event(step, clock))
      requires Attempts.Enabled(machine, Attempts.Event(step, 0))
      requires Attempts.Sent(machine, step).Some?
      requires row == After(machine.video.row, Attempts.Sent(machine, step).value, clock)
      requires forall k: nat :: k in machine.video.frames <==> k in frames
      requires |machine.video.findings| == |findings|
      modifies this`machine, this`steps
      ensures Valid() && steps == old(steps) + [Attempts.Event(step, clock)] && w !in machine.jobs
    {
      Attempts.EndingIsOneStatement(machine, Attempts.Event(step, clock));
      Follow(step);
    }

    method Tick()
      modifies this`clock
      ensures clock >= old(clock)
    {
      var passed: int := *;
      if passed > 0 { clock := clock + passed; }
    }

    method Claim() returns (claimed: bool)
      requires Valid() && w !in machine.jobs
      modifies this`row, this`clock, this`machine, this`steps
      ensures row == Claimed(old(row), clock) && claimed == old(row).status.QUEUED?
      ensures Valid() && steps == old(steps) + [Attempts.Event(Attempts.Step.Claim(w), clock)]
      ensures if claimed then IsAt(Attempts.Stage.Claimed) else w !in machine.jobs
    {
      Tick();
      claimed := row.status.QUEUED?;
      if claimed {
        row := row.(status := PROCESSING, attempts := row.attempts + 1, progress := 0, updatedAt := clock);
      }
      Follow(Attempts.Step.Claim(w));
    }

    /** What the row became, when it was stale. */
    method ReleaseStale() returns (became: Option<Status>)
      requires Valid()
      modifies this`row, this`clock, this`machine, this`steps
      ensures clock >= old(clock) && row == Released(old(row), clock)
      ensures became == if old(row).status == PROCESSING && clock - old(row).updatedAt > STALE_AFTER
                        then Some(row.status) else None
      ensures Valid() && steps == old(steps) + [Attempts.Event(Attempts.Sweep, clock)]
      ensures machine.jobs == old(machine).jobs
    {
      Tick();
      became := None;
      if IsStale(row, clock) {
        row := row.(status := if row.attempts >= MOST_ATTEMPTS then FAILED else QUEUED, updatedAt := clock);
        became := Some(row.status);
      }
      Follow(Attempts.Sweep);
    }

    /** The statement of this step of the attempt. */
    method Update(progress: int, ghost step: Attempts.Step)
      requires Valid() && !step.Sweep? && step.w == w && Attempts.Enabled(machine, Attempts.Event(step, 0))
      requires Attempts.Sent(machine, step) == Some(Report(progress))
      modifies this`row, this`clock, this`machine, this`steps
      ensures row == FootageQueue.Reported(old(row), progress, clock)
      ensures Valid() && steps == old(steps) + [Attempts.Event(step, clock)]
      ensures w in machine.jobs && Attempts.JobAfter(old(machine).jobs[w], step) == Some(machine.jobs[w])
    {
      Tick();
      row := row.(progress := progress, updatedAt := clock);
      Follow(step);
    }

    method ClearFrames()
      requires Valid() && IsAt(Attempts.Hashed)
      modifies this`frames, this`machine, this`steps
      ensures frames == map[]
      ensures Valid() && steps == old(steps) + [Attempts.Event(Attempts.Step.ClearFrames(w), clock)]
      ensures IsAt(Attempts.FramesCleared) && machine.jobs[w].expected == old(machine).jobs[w].expected
    {
      frames := map[];
      Follow(Attempts.Step.ClearFrames(w));
    }

    method ClearFindings()
      requires Valid() && IsAt(Attempts.FramesCleared)
      modifies this`findings, this`machine, this`steps
      ensures findings == []
      ensures Valid() && steps == old(steps) + [Attempts.Event(Attempts.Step.ClearFindings(w), clock)]
      ensures w in machine.jobs
      ensures machine.jobs[w] == Attempts.Job(row.attempts, Attempts.Sampling, old(machine).jobs[w].expected, 0, 5)
    {
      findings := [];
      Follow(Attempts.Step.ClearFindings(w));
    }

    /** One batch: all the rows, or none and an error when a second is in the table already. */
    method AddFrames(rows: map<int, FrameRow>, ghost from: nat, ghost n: nat) returns (ok: bool)
      requires Valid() && IsAt(Attempts.Sampling) && machine.jobs[w].written == from && 0 < n <= Attempts.BATCH
      requires forall k :: k in rows <==> from <= k < from + n
      modifies this`frames, this`machine, this`steps
      ensures ok == (rows.Keys !! old(frames).Keys)
      ensures frames == if ok then old(frames) + rows else old(frames)
      ensures Valid() && w in machine.jobs
      ensures steps == if ok then old(steps) + [Attempts.Event(Attempts.Step.Flush(w, n), clock)] else old(steps)
      ensures machine.jobs[w] == if ok then old(machine).jobs[w].(stage := Attempts.Flushed, written := from + n)
                                 else old(machine).jobs[w]
    {
      ok := rows.Keys !! frames.Keys;
      if ok {
        assert forall k: nat :: from <= k < from + n ==> k in rows.Keys && k !in frames.Keys;
        frames := frames + rows;
        Follow(Attempts.Step.Flush(w, n));
      }
    }

    /** The findings of one of the two searches. */
    method AddFindings(found: seq<Finding>, ghost step: Attempts.Step)
      requires Valid() && (step.AddEvents? || step.AddAltercations?) && step.w == w && step.n == |found|
      requires Attempts.Enabled(machine, Attempts.Event(step, 0))
      modifies this`findings, this`machine, this`steps
      ensures findings == old(findings) + found
      ensures Valid() && steps == old(steps) + [Attempts.Event(step, clock)]
      ensures w in machine.jobs && Attempts.JobAfter(old(machine).jobs[w], step) == Some(machine.jobs[w])
    {
      findings := findings + found;
      Follow(step);
    }

    method Finish(n: nat)
      requires Valid() && IsAt(Attempts.Searched) && machine.jobs[w].written == n
      modifies this`row, this`clock, this`machine, this`steps
      ensures row == Finished(old(row), n, clock)
      ensures Valid() && steps == old(steps) + [Attempts.Event(Attempts.Step.Finish(w), clock)]
      ensures w !in machine.jobs
    {
      Tick();
      if row.status.PROCESSING? {
        row := row.(status := READY, progress := 100, updatedAt := clock, framesIndexed := n);
      }
      End(Attempts.Step.Finish(w));
    }

    /** The end of an attempt the file stands in the way of, or, with `again`, any other error. */
    method Fail(again: bool)
      requires Valid() && w in machine.jobs
      requires !again ==> Attempts.MayDo(machine.jobs[w], machine.video.frames, Attempts.Refuse(w))
      modifies this`row, this`clock, this`machine, this`steps
      ensures row == if again then FailedAgain(old(row), clock) else FailedFor(old(row), clock)
      ensures Valid() && w !in machine.jobs
      ensures steps == old(steps) + [Attempts.Event(if again then Attempts.Stop(w) else Attempts.Refuse(w), clock)]
    {
      Tick();
      if again && row.status.PROCESSING? && row.attempts < MOST_ATTEMPTS {
        row := row.(status := QUEUED, updatedAt := clock);
      } else if row.status.PROCESSING? {
        row := row.(status := FAILED, updatedAt := clock);
      }
      End(if again then Attempts.Stop(w) else Attempts.Refuse(w));
    }
  }

  // ---------------------------------------------------------------- an attempt

  /** Any call out of the pipeline may raise, if anything goes wrong at all. */
  method Raises(faulty: bool) returns (raised: bool)
    ensures raised ==> faulty
  {
    var luck: bool := *;
    raised := faulty && luck;
  }

  /** The variables of the frame loop, which flush updates. */
  class Sampler {
    const expected: nat
    const models: Models
    var written: nat
    var shown: int
    var batch: seq<(int, Picture)>
    var people: map<int, Count>
    var vehicles: map<int, Count>
    var fighting: map<int, Sample>

    constructor (expected: nat, models: Models)
      ensures this.expected == expected && this.models == models
      ensures written == 0 && shown == 5 && batch == [] && people == map[] && vehicles == map[] && fighting == map[]
    {
      this.expected, this.models := expected, models;
      written, shown, batch, people, vehicles, fighting := 0, 5, [], map[], map[], map[];
    }

    /** The dictionaries hold the first k pictures. */
    ghost predicate HasCounted(pictures: seq<Picture>, k: nat)
      requires k <= |pictures|
      reads this`people, this`vehicles, this`fighting
    {
      && people == (if models.detector then Counts(pictures, PEOPLE, k) else map[])
      && vehicles == (if models.detector then Counts(pictures, VEHICLES, k) else map[])
      && fighting == (if models.screen then Samples(pictures, models, k) else map[])
    }

    /** The first k pictures have been taken: those written are in the table, the others wait in the batch. */
    ghost predicate HasTaken(pictures: seq<Picture>, k: nat, db: FootageDb)
      reads this, db
    {
      && written + |batch| == k <= |pictures| && |batch| <= Attempts.BATCH
      && (forall i :: 0 <= i < |batch| ==> batch[i] == (written + i, pictures[written + i]))
      && HasCounted(pictures, written)
      && db.row.status.PROCESSING? && db.row.progress == shown && 5 <= shown <= 80
      && db.frames == Rows(pictures, models, written) && db.findings == []
    }

    /** The attempt stands where the loop does. */
    ghost predicate IsAt(stage: Attempts.Stage, db: FootageDb)
      reads this, db
    {
      && db.Valid() && db.w in db.machine.jobs
      && db.machine.jobs[db.w] == Attempts.Job(db.row.attempts, stage, expected, written, shown)
    }

    ghost predicate Valid(pictures: seq<Picture>, k: nat, db: FootageDb)
      reads this, db
    {
      HasTaken(pictures, k, db) && IsAt(Attempts.Sampling, db)
    }

    method Take(second: nat, picture: Picture, ghost pictures: seq<Picture>, ghost db: FootageDb)
      requires Valid(pictures, second, db) && second < |pictures| && picture == pictures[second]
      requires |batch| < Attempts.BATCH
      modifies this`batch
      ensures Valid(pictures, second + 1, db) && batch == old(batch) + [(second, picture)]
    {
      batch := batch + [(second, picture)];
    }

    /** What was seen in one frame. */
    method Note(second: nat, picture: Picture, ghost pictures: seq<Picture>)
      requires second < |pictures| && picture == pictures[second] && HasCounted(pictures, second)
      modifies this`people, this`vehicles, this`fighting
      ensures HasCounted(pictures, second + 1)
    {
      if models.detector {
        people, vehicles := people[second := picture.people], vehicles[second := picture.vehicles];
      }
      if models.screen {
        fighting := fighting[second := SampleOf(picture, models)];
      }
    }

    /** The loop over the batch: the row of each frame, and what was seen in it. */
    method Read(ghost pictures: seq<Picture>) returns (rows: map<int, FrameRow>)
      requires written + |batch| <= |pictures| && HasCounted(pictures, written)
      requires forall i :: 0 <= i < |batch| ==> batch[i] == (written + i, pictures[written + i])
      modifies this`people, this`vehicles, this`fighting
      ensures HasCounted(pictures, written + |batch|)
      ensures Rows(pictures, models, written) + rows == Rows(pictures, models, written + |batch|)
      ensures forall s :: s in rows <==> written <= s < written + |batch|
    {
      rows := map[];
      ghost var table := Rows(pictures, models, written);
      assert table + rows == table;
      for j := 0 to |batch|
        invariant HasCounted(pictures, written + j)
        invariant table + rows == Rows(pictures, models, written + j)
        invariant forall s :: s in rows <==> written <= s < written + j
      {
        var second, picture := batch[j].0, batch[j].1;
        Note(second, picture, pictures);
        RowAdded(table, rows, second, RowOf(picture, models));
        rows := rows[second := RowOf(picture, models)];
      }
    }

    /** The rows go into the table, and the batch is empty. */
    method Store(db: FootageDb, ghost pictures: seq<Picture>, ghost k: nat, rows: map<int, FrameRow>)
      requires batch != [] && written + |batch| == k <= |pictures| && |batch| <= Attempts.BATCH
      requires IsAt(Attempts.Sampling, db) && db.frames == Rows(pictures, models, written)
      requires Rows(pictures, models, written) + rows == Rows(pictures, models, k)
      requires forall s :: s in rows <==> written <= s < k
      modifies this`written, this`batch, db`frames, db`machine, db`steps
      ensures batch == [] && written == k && db.frames == Rows(pictures, models, k)
      ensures IsAt(Attempts.Flushed, db) && old(db.steps) <= db.steps
    {
      RowsAreTheSeconds(pictures, models, written);
      assert forall s :: s in rows.Keys ==> s !in db.frames.Keys;
      var ok := db.AddFrames(rows, written, k - written);
      written, batch := written + |batch|, [];
    }

    method Show(db: FootageDb)
      requires IsAt(Attempts.Flushed, db) && db.row.progress == shown && 5 <= shown <= 80
      modifies db`row, db`clock, db`machine, db`steps, this`shown
      ensures IsAt(Attempts.Sampling, db) && old(db.steps) <= db.steps
      ensures db.row.progress == shown && 5 <= old(shown) <= shown <= 80
      ensures var now := Attempts.Progress(written, expected);
              shown == if now > old(shown) then now else old(shown)
      ensures db.row.status == old(db.row.status) && db.row.attempts == old(db.row.attempts)
    {
      var now := Attempts.Progress(written, expected);
      FootageContents.ProgressIsAPercentage(written, expected);
      if now > shown {
        db.Update(now, Attempts.Step.Show(db.w));
        shown := now;
      } else {
        db.Follow(Attempts.Step.Show(db.w));
      }
    }

    /** The batch goes into the table, and what was seen in it into the dictionaries. */
    method Write(db: FootageDb, faulty: bool, ghost pictures: seq<Picture>) returns (ok: bool)
      requires Valid(pictures, written + |batch|, db) && batch != []
      modifies this`people, this`vehicles, this`fighting, this`written, this`batch
      modifies db`frames, db`machine, db`steps
      ensures ok ==> batch == [] && written == old(written + |batch|)
      ensures ok ==> HasTaken(pictures, written, db) && IsAt(Attempts.Flushed, db)
      ensures db.Valid() && db.w in db.machine.jobs && old(db.steps) <= db.steps
      ensures !ok ==> faulty
    {
      var rows := Read(pictures);
      var raised := Raises(faulty);
      if raised { return false; }
      Store(db, pictures, written + |batch|, rows);
      ok := true;
    }

    method Flush(db: FootageDb, faulty: bool, ghost pictures: seq<Picture>) returns (ok: bool)
      requires Valid(pictures, written + |batch|, db)
      modifies this, db
      ensures db.row.status.PROCESSING? && db.row.attempts == old(db.row.attempts)
      ensures ok ==> batch == [] && written == old(written + |batch|) && Valid(pictures, written, db)
      ensures db.Valid() && db.w in db.machine.jobs && old(db.steps) <= db.steps
      ensures !ok ==> faulty
    {
      if batch == [] { return true; }
      ok := Write(db, faulty, pictures);
      if !ok { return; }
      var raised := Raises(faulty);
      if raised { return false; }
      Show(db);
    }
  }

  /** Steps 2 and 3, and the rows of an earlier attempt go. */
  method Prepare(db: FootageDb, expected: nat, ghost lasts: nat, faulty: bool) returns (ok: bool)
    requires db.row.status.PROCESSING? && db.Valid() && db.IsAt(Attempts.Stage.Claimed)
    requires expected == Attempts.Max(1, lasts)
    modifies db
    ensures db.row.status.PROCESSING? && db.row.attempts == old(db.row.attempts)
    ensures db.Valid() && old(db.steps) <= db.steps && db.w in db.machine.jobs
    ensures ok ==> db.frames == map[] && db.findings == [] && db.row.progress == 5
    ensures ok ==> db.machine.jobs[db.w] == Attempts.Job(db.row.attempts, Attempts.Sampling, expected, 0, 5)
    ensures !ok ==> faulty
  {
    db.Update(2, Attempts.Probe(db.w, lasts));
    db.Update(5, Attempts.Hash(db.w));
    var raised := Raises(faulty);
    if raised { return false; }
    db.ClearFrames();
    raised := Raises(faulty);
    if raised { return false; }
    db.ClearFindings();
    ok := true;
  }

  /** Step 4: one frame a second, in batches. */
  method SampleFrames(db: FootageDb, sampler: Sampler, pictures: seq<Picture>, faulty: bool) returns (ok: bool)
    requires sampler.Valid(pictures, 0, db)
    modifies db, sampler
    ensures db.row.status.PROCESSING? && db.row.attempts == old(db.row.attempts)
    ensures ok ==> sampler.written == |pictures| && sampler.Valid(pictures, |pictures|, db)
    ensures db.Valid() && db.w in db.machine.jobs && old(db.steps) <= db.steps
    ensures !ok ==> faulty
  {
    for second := 0 to |pictures|
      invariant sampler.Valid(pictures, second, db) && db.row.attempts == old(db.row.attempts)
      invariant |sampler.batch| < Attempts.BATCH && old(db.steps) <= db.steps
    {
      var raised := Raises(faulty);
      if raised { return false; }
      sampler.Take(second, pictures[second], pictures, db);
      if |sampler.batch| >= Attempts.BATCH {
        var flushed := sampler.Flush(db, faulty, pictures);
        if !flushed { return false; }
      }
    }
    ok := sampler.Flush(db, faulty, pictures);
  }

  /** altercations: the windows stage 1 flagged that the pose model confirms. */
  method Altercations(windows: seq<Window>, confirms: Window -> bool) returns (found: seq<Finding>)
    ensures found == Confirmed(windows, confirms, |windows|)
  {
    found := [];
    for k := 0 to |windows|
      invariant found == Confirmed(windows, confirms, k)
    {
      if confirms(windows[k]) { found := found + [Altercation(windows[k])]; }
    }
  }

  method EventsOf(kind: Kind, counts: map<int, Count>, ghost pictures: seq<Picture>) returns (events: seq<Event>)
    requires counts == Counts(pictures, kind, |pictures|)
    ensures AreEvents(pictures, kind, events)
  {
    events := FindStretches(kind, counts, GAP);
  }

  method WindowsOf(samples: map<int, Sample>, m: Models, ghost pictures: seq<Picture>) returns (windows: seq<Window>)
    requires samples == Samples(pictures, m, |pictures|)
    ensures AreScreened(pictures, m, windows)
  {
    windows := FindWindows(samples, SHARE, LEAST_PEOPLE);
  }

  method FindEvents(db: FootageDb, sampler: Sampler, ghost pictures: seq<Picture>)
    returns (ghost people: seq<Event>, ghost vehicles: seq<Event>)
    requires sampler.HasCounted(pictures, |pictures|)
    requires sampler.IsAt(Attempts.Sampling, db) && sampler.written > 0
    modifies db`findings, db`machine, db`steps
    ensures EventsFound(pictures, sampler.models, people, vehicles)
    ensures db.findings == old(db.findings) + (AsFindings(people) + AsFindings(vehicles))
    ensures sampler.IsAt(Attempts.Listed, db) && old(db.steps) <= db.steps
  {
    people, vehicles := [], [];
    if sampler.models.detector {
      var p := EventsOf(PEOPLE, sampler.people, pictures);
      var v := EventsOf(VEHICLES, sampler.vehicles, pictures);
      var found := AsFindings(p) + AsFindings(v);
      db.AddFindings(found, Attempts.AddEvents(db.w, |found|));
      people, vehicles := p, v;
    } else {
      db.Follow(Attempts.AddEvents(db.w, 0));
    }
  }

  method FindAltercations(db: FootageDb, sampler: Sampler, confirms: Window -> bool, ghost pictures: seq<Picture>)
    returns (ghost windows: seq<Window>)
    requires sampler.HasCounted(pictures, |pictures|) && sampler.IsAt(Attempts.Listed, db)
    modifies db`findings, db`machine, db`steps
    ensures WindowsFound(pictures, sampler.models, windows)
    ensures db.findings == old(db.findings) + Confirmed(windows, confirms, |windows|)
    ensures sampler.IsAt(Attempts.Searched, db) && old(db.steps) <= db.steps
  {
    windows := [];
    if sampler.models.detector && sampler.models.screen && sampler.models.poser {
      var w := WindowsOf(sampler.fighting, sampler.models, pictures);
      var found := Altercations(w, confirms);
      db.AddFindings(found, Attempts.AddAltercations(db.w, |found|));
      windows := w;
    } else {
      db.Follow(Attempts.AddAltercations(db.w, 0));
    }
  }

  /** Step 5: what is in the sampled frames. */
  method Find(db: FootageDb, sampler: Sampler, confirms: Window -> bool, ghost pictures: seq<Picture>)
    requires sampler.HasCounted(pictures, |pictures|) && db.findings == []
    requires sampler.IsAt(Attempts.Sampling, db) && sampler.written > 0
    modifies db`findings, db`machine, db`steps
    ensures AreFindings(pictures, sampler.models, confirms, db.findings)
    ensures sampler.IsAt(Attempts.Searched, db) && old(db.steps) <= db.steps
  {
    ghost var people, vehicles := FindEvents(db, sampler, pictures);
    ghost var windows := FindAltercations(db, sampler, confirms, pictures);
    FromNothing(AsFindings(people) + AsFindings(vehicles), Confirmed(windows, confirms, |windows|));
    FoundAre(pictures, sampler.models, confirms, db.findings, people, vehicles, windows);
  }

  lemma FoundAre(pictures: seq<Picture>, m: Models, confirms: Window -> bool, findings: seq<Finding>,
                 people: seq<Event>, vehicles: seq<Event>, windows: seq<Window>)
    requires EventsFound(pictures, m, people, vehicles) && WindowsFound(pictures, m, windows)
    requires findings == AsFindings(people) + AsFindings(vehicles) + Confirmed(windows, confirms, |windows|)
    ensures AreFindings(pictures, m, confirms, findings)
  {
    assert HaveFound(pictures, m, confirms, findings, people, vehicles, windows);
  }

  lemma FromNothing(a: seq<Finding>, b: seq<Finding>)
    ensures [] + a + b == a + b
  {
  }

  /** A file of at most six hours with a picture in it. */
  ghost predicate Readable(seconds: Option<real>, pictures: seq<Picture>) {
    seconds.Some? && seconds.value <= 21_600.0 && pictures != []
  }

  /** A finished video: one row for every picture, and what there is to find in them. */
  ghost predicate Holds(db: FootageDb, pictures: seq<Picture>, m: Models, confirms: Window -> bool)
    reads db
  {
    && db.row.status.READY? && db.row.progress == 100
    && db.row.framesIndexed == |pictures| > 0
    && db.frames == Rows(pictures, m, |pictures|)
    && AreFindings(pictures, m, confirms, db.findings)
  }

  /** Steps 5 to 7. */
  method Conclude(db: FootageDb, sampler: Sampler, pictures: seq<Picture>, confirms: Window -> bool, faulty: bool)
    returns (ok: bool)
    requires sampler.Valid(pictures, |pictures|, db) && sampler.written == |pictures| > 0
    modifies db
    ensures db.row.attempts == old(db.row.attempts)
    ensures if ok then Holds(db, pictures, sampler.models, confirms) else db.row.status.PROCESSING?
    ensures db.Valid() && old(db.steps) <= db.steps && (ok <==> db.w !in db.machine.jobs)
    ensures !ok ==> faulty
  {
    var raised := Raises(faulty);
    if raised { return false; }
    Find(db, sampler, confirms, pictures);
    raised := Raises(faulty);
    if raised { return false; }
    db.Finish(sampler.written);
    ok := true;
  }

  /** Steps 4 to 7. */
  method Index(db: FootageDb, expected: nat, pictures: seq<Picture>, m: Models, confirms: Window -> bool, faulty: bool)
    returns (e: Ending)
    requires db.row.status.PROCESSING? && db.frames == map[] && db.findings == [] && db.row.progress == 5
    requires db.Valid() && db.w in db.machine.jobs
    requires db.machine.jobs[db.w] == Attempts.Job(db.row.attempts, Attempts.Sampling, expected, 0, 5)
    modifies db
    ensures db.row.attempts == old(db.row.attempts)
    ensures if e.Done? then Holds(db, pictures, m, confirms) else db.row.status.PROCESSING?
    ensures e.Broke? ==> faulty
    ensures !e.Broke? ==> (e.Done? <==> pictures != [])
    ensures db.Valid() && old(db.steps) <= db.steps && (e.Done? <==> db.w !in db.machine.jobs)
    ensures e.NotAVideo? ==> Attempts.MayDo(db.machine.jobs[db.w], db.machine.video.frames, Attempts.Refuse(db.w))
  {
    var sampler := new Sampler(expected, m);
    var sampled := SampleFrames(db, sampler, pictures, faulty);
    if !sampled { return Broke; }
    if sampler.written == 0 { return NotAVideo; }
    var finished := Conclude(db, sampler, pictures, confirms, faulty);
    e := if finished then Done else Broke;
  }

  /** Steps 2 to 7, inside the try. `seconds` is the probed duration, None when the file is not a video. */
  method Analyse(db: FootageDb, seconds: Option<real>, pictures: seq<Picture>, m: Models, confirms: Window -> bool,
                 faulty: bool)
    returns (e: Ending)
    requires db.row.status.PROCESSING? && db.Valid() && db.IsAt(Attempts.Stage.Claimed)
    modifies db
    ensures db.row.attempts == old(db.row.attempts)
    ensures e.Done? ==> Holds(db, pictures, m, confirms)
    ensures !e.Done? ==> db.row.status.PROCESSING?
    ensures e.Broke? ==> faulty
    ensures !e.Broke? ==> (e.Done? <==> Readable(seconds, pictures))
    ensures db.Valid() && old(db.steps) <= db.steps && (e.Done? <==> db.w !in db.machine.jobs)
    ensures e.NotAVideo? ==> Attempts.MayDo(db.machine.jobs[db.w], db.machine.video.frames, Attempts.Refuse(db.w))
  {
    if seconds.None? || seconds.value > MAX_SECONDS as real { return NotAVideo; }
    var whole := seconds.value.Floor;
    var expected := if whole > 1 then whole else 1;
    var prepared := Prepare(db, expected, if whole > 0 then whole else 0, faulty);
    if !prepared { return Broke; }
    e := Index(db, expected, pictures, m, confirms, faulty);
  }

  /** The try, and what becomes of the video when it raises. */
  method Attempt(db: FootageDb, seconds: Option<real>, pictures: seq<Picture>, m: Models, confirms: Window -> bool,
                 faulty: bool)
    returns (became: Status)
    requires db.row.status.PROCESSING? && db.Valid() && db.IsAt(Attempts.Stage.Claimed)
    modifies db
    ensures db.row.status == became && !became.PROCESSING? && db.row.attempts == old(db.row.attempts)
    ensures became.READY? ==> Holds(db, pictures, m, confirms) && Readable(seconds, pictures)
    ensures became.QUEUED? ==> faulty && db.row.attempts < MOST_ATTEMPTS
    ensures !faulty ==> became == if Readable(seconds, pictures) then READY else FAILED
    ensures db.Valid() && old(db.steps) <= db.steps && db.w !in db.machine.jobs
  {
    var attempts := db.row.attempts;
    var e := Analyse(db, seconds, pictures, m, confirms, faulty);
    match e
    case Done =>
      became := READY;
    case NotAVideo =>
      db.Fail(false);
      became := FAILED;
    case Broke =>
      db.Fail(true);
      became := if attempts < MOST_ATTEMPTS then QUEUED else FAILED;
  }

  /** process: what it returns is what the row says, READY exactly when the video holds what was sampled; without a
      fault the ending depends on the file alone. It takes the steps of FootageAttempts, from a claim to the end of the
      attempt. */
  method Process(db: FootageDb, seconds: Option<real>, pictures: seq<Picture>, m: Models, confirms: Window -> bool,
                 faulty: bool)
    returns (outcome: Outcome)
    requires WellFormed(db.row) && db.Valid() && db.w !in db.machine.jobs
    modifies db
    ensures old(db.row).status.QUEUED? <==> outcome.Became?
    ensures outcome.SKIPPED? ==> db.row == old(db.row) && db.frames == old(db.frames) && db.findings == old(db.findings)
    ensures outcome.Became? ==> db.row.status == outcome.status && db.row.attempts == old(db.row.attempts) + 1
    ensures outcome.Became? ==> !outcome.status.PROCESSING?
    ensures outcome == Became(READY) ==> Holds(db, pictures, m, confirms)
    ensures outcome == Became(QUEUED) ==> faulty && db.row.attempts < MOST_ATTEMPTS
    ensures outcome.Became? && !faulty ==> outcome.status == if Readable(seconds, pictures) then READY else FAILED
    ensures outcome == Became(READY) ==> Readable(seconds, pictures)
    ensures db.Valid() && old(db.steps) <= db.steps && db.w !in db.machine.jobs
  {
    var claimed := db.Claim();
    if !claimed { return SKIPPED; }
    var became := Attempt(db, seconds, pictures, m, confirms, faulty);
    outcome := Became(became);
  }

  /** One turn of sweep's loop, for a video listed with this status, which may be out of date by now: it takes the video
      only if the video is in the queue, or was stale and had an attempt left. */
  method TakeWaiting(db: FootageDb, listed: Status, seconds: Option<real>, pictures: seq<Picture>, m: Models,
                     confirms: Window -> bool, faulty: bool)
    returns (outcome: Outcome)
    requires WellFormed(db.row) && db.Valid() && db.w !in db.machine.jobs
    modifies db
    ensures WellFormed(db.row)
    ensures outcome.Became? ==> db.row.attempts == old(db.row.attempts) + 1 && db.row.status == outcome.status
    ensures !listed.PROCESSING? ==> (outcome.Became? <==> old(db.row).status.QUEUED?)
    ensures listed.PROCESSING? ==>
              && |old(db.steps)| < |db.steps| && db.steps[|old(db.steps)|].step.Sweep?
              && (outcome.Became? <==>
                    && old(db.row).status.PROCESSING? && old(db.row).attempts < MOST_ATTEMPTS
                    && db.steps[|old(db.steps)|].now - old(db.row).updatedAt > STALE_AFTER)
    ensures outcome == Became(READY) ==> Holds(db, pictures, m, confirms)
    ensures outcome.SKIPPED? ==> db.frames == old(db.frames) && db.findings == old(db.findings)
    ensures outcome.SKIPPED? && db.row != old(db.row) ==>
              db.row.status.FAILED? && listed.PROCESSING? && old(db.row).status.PROCESSING?
              && old(db.row.attempts) == MOST_ATTEMPTS
    ensures Settled(old(db.row)) ==> outcome.SKIPPED? && db.row == old(db.row)
    ensures db.Valid() && old(db.steps) <= db.steps && db.w !in db.machine.jobs
  {
    if listed.PROCESSING? {
      var became := db.ReleaseStale();
      if became != Some(QUEUED) { return SKIPPED; }
    }
    outcome := Process(db, seconds, pictures, m, confirms, faulty);
  }
}
