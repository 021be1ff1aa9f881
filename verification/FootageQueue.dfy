/** One video's row of footage_videos, under the statements the footage workers send. */
module FootageQueue {
  const MOST_ATTEMPTS := 3
  const STALE_AFTER := 15 * 60

  datatype Status = QUEUED | PROCESSING | READY | FAILED

  datatype Row = Row(status: Status, attempts: nat, progress: int, updatedAt: int, framesIndexed: nat)

  /** claim: what UPDATE … WHERE status = 'QUEUED' leaves. */
  function Claimed(row: Row, now: int): Row {
    if row.status.QUEUED?
    then row.(status := PROCESSING, attempts := row.attempts + 1, progress := 0, updatedAt := now) else row
  }

  predicate IsStale(row: Row, now: int) { row.status.PROCESSING? && row.updatedAt < now - STALE_AFTER }

  /** release_stale. */
  function Released(row: Row, now: int): Row {
    if IsStale(row, now)
    then row.(status := if row.attempts >= MOST_ATTEMPTS then FAILED else QUEUED, updatedAt := now) else row
  }

  /** update: it does not look at the status. */
  function Reported(row: Row, progress: int, now: int): Row { row.(progress := progress, updatedAt := now) }

  function Finished(row: Row, frames: nat, now: int): Row {
    if row.status.PROCESSING?
    then row.(status := READY, progress := 100, updatedAt := now, framesIndexed := frames) else row
  }

  function FailedFor(row: Row, now: int): Row {
    if row.status.PROCESSING? then row.(status := FAILED, updatedAt := now) else row
  }

  /** fail with again: the second statement runs only if the first matched no row. */
  function FailedAgain(row: Row, now: int): Row {
    if row.status.PROCESSING? && row.attempts < MOST_ATTEMPTS then row.(status := QUEUED, updatedAt := now)
    else FailedFor(row, now)
  }

  datatype Statement = Claim | Release | Report(progress: int) | Finish(frames: nat) | Fail | FailAgain

  function After(row: Row, s: Statement, now: int): Row {
    match s
    case Claim => Claimed(row, now)
    case Release => Released(row, now)
    case Report(progress) => Reported(row, progress, now)
    case Finish(frames) => Finished(row, frames, now)
    case Fail => FailedFor(row, now)
    case FailAgain => FailedAgain(row, now)
  }

  /** A row as it is put in the queue. */
  predicate Fresh(row: Row) { row.status.QUEUED? && row.attempts == 0 }

  ghost predicate WellFormed(row: Row) {
    && row.attempts <= MOST_ATTEMPTS
    && (row.status.QUEUED? ==> row.attempts < MOST_ATTEMPTS)
    && (row.status.PROCESSING? ==> row.attempts > 0)
  }

  predicate Settled(row: Row) { row.status.READY? || row.status.FAILED? }

  /** How many changes of status are still to come at most; it is 0 exactly when the row is settled. */
  function Rank(row: Row): (n: int)
    ensures WellFormed(row) ==> n >= 0 && (n == 0 <==> Settled(row))
  {
    match row.status
    case QUEUED => 2 * (MOST_ATTEMPTS - row.attempts)
    case PROCESSING => 2 * (MOST_ATTEMPTS - row.attempts) + 1
    case _ => 0
  }

  /** Any statement, from any worker, at any time: attempts stay within bounds, a change of status brings the row
      closer to the end, nothing else changes attempts, and a settled row stays as it is settled. */
  lemma StatementKeeps(row: Row, s: Statement, now: int)
    requires WellFormed(row)
    ensures var row' := After(row, s, now);
            && WellFormed(row')
            && (row'.status != row.status ==> Rank(row') < Rank(row))
            && (row'.status == row.status ==> row'.attempts == row.attempts)
            && (Settled(row) ==> row'.status == row.status && row'.framesIndexed == row.framesIndexed)
            && (s.Report? ==> row'.status == row.status)
  {
  }

  /** A sweep frees a video that has been PROCESSING without a word for more than fifteen minutes, and no other. */
  lemma SweepFreesTheSilent(row: Row, now: int)
    ensures var row' := After(row, Release, now);
            if row.status == PROCESSING && now - row.updatedAt > 900 then
              row' == Row(if row.attempts < 3 then QUEUED else FAILED, row.attempts, row.progress, now,
                          row.framesIndexed)
            else row' == row
  {
  }

  /** So a worker that reports at least every fifteen minutes is never swept. */
  lemma SweepSparesTheBusy(row: Row, progress: int, heard: int, now: int)
    requires now - heard <= 900
    ensures After(After(row, Report(progress), heard), Release, now) == After(row, Report(progress), heard)
  {
  }

  // ---------------------------------------------------------------- over whole runs

  datatype Call = Call(statement: Statement, now: int)

  function AfterAll(row: Row, calls: seq<Call>): Row
    decreases |calls|
  {
    if calls == [] then row else AfterAll(After(row, calls[0].statement, calls[0].now), calls[1..])
  }

  predicate IsGranted(row: Row, s: Statement) { s.Claim? && row.status.QUEUED? }

  /** How many claims were granted. */
  function Grants(row: Row, calls: seq<Call>): nat
    decreases |calls|
  {
    if calls == [] then 0
    else (if IsGranted(row, calls[0].statement) then 1 else 0)
         + Grants(After(row, calls[0].statement, calls[0].now), calls[1..])
  }

  /** How often the row changed its status. */
  function Changes(row: Row, calls: seq<Call>): nat
    decreases |calls|
  {
    if calls == [] then 0
    else
      var row' := After(row, calls[0].statement, calls[0].now);
      (if row'.status != row.status then 1 else 0) + Changes(row', calls[1..])
  }

  /** How often the row left PROCESSING: was finished, failed, or put back in the queue. */
  function Leavings(row: Row, calls: seq<Call>): nat
    decreases |calls|
  {
    if calls == [] then 0
    else
      var row' := After(row, calls[0].statement, calls[0].now);
      (if row.status.PROCESSING? && !row'.status.PROCESSING? then 1 else 0) + Leavings(row', calls[1..])
  }

  function Held(row: Row): nat { if row.status.PROCESSING? then 1 else 0 }

  /** Each granted claim is one attempt, every change of status uses up rank, and between two granted claims the row
      must have left PROCESSING, so one stay in the queue is claimed at most once. */
  lemma {:induction false} RunKeeps(row: Row, calls: seq<Call>)
    requires WellFormed(row)
    ensures var row' := AfterAll(row, calls);
            && WellFormed(row')
            && Grants(row, calls) == row'.attempts - row.attempts
            && Changes(row, calls) <= Rank(row) - Rank(row')
            && Grants(row, calls) + Held(row) == Leavings(row, calls) + Held(row')
            && (Settled(row) ==> row'.status == row.status && row'.framesIndexed == row.framesIndexed)
    decreases |calls|
  {
    if calls != [] {
      var s, now := calls[0].statement, calls[0].now;
      StatementKeeps(row, s, now);
      RunKeeps(After(row, s, now), calls[1..]);
    }
  }

  /** From a fresh row, whatever the workers and sweeps do and however they interleave: at most three claims are
      granted and six changes of status happen; once three attempts have been left, the video is settled. */
  lemma VideoSettles(row: Row, calls: seq<Call>)
    requires Fresh(row)
    ensures Grants(row, calls) <= MOST_ATTEMPTS && Changes(row, calls) <= 2 * MOST_ATTEMPTS
    ensures var row' := AfterAll(row, calls);
            && row'.attempts == Grants(row, calls)
            && (row'.status.QUEUED? ==> row'.attempts < MOST_ATTEMPTS)
            && (Changes(row, calls) == 2 * MOST_ATTEMPTS ==> Settled(row'))
            && (Leavings(row, calls) == MOST_ATTEMPTS ==> Settled(row'))
  {
    RunKeeps(row, calls);
  }
}
