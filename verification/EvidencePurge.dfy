/** The purge of expired evidence on local storage: files on disk, rows in the table, one transaction a tenant.

    A crash or an error can come before any statement. The files deleted by then stay deleted; the transaction's row
    deletions are undone. */
module EvidencePurge {
  import opened Sorting

  type Path = nat
  type Tenant = nat

  datatype Row = Row(tenant: Tenant, path: Path, captured: int, held: bool)

  /** The committed rows by id, and the files on disk. */
  datatype Store = Store(rows: map<int, Row>, disk: set<Path>)

  predicate IsExpired(r: Row, tenant: Tenant, cutoff: int) { r.tenant == tenant && r.captured < cutoff && !r.held }

  /** The SELECT: row-level security shows a tenant its own rows only. */
  function Expired(rows: map<int, Row>, tenant: Tenant, cutoff: int): set<int> {
    set id | id in rows && IsExpired(rows[id], tenant, cutoff)
  }

  ghost predicate HasRow(rows: map<int, Row>, p: Path) { exists id :: id in rows && rows[id].path == p }

  /** No file on disk is without a row. */
  ghost predicate NoOrphanFile(s: Store) {
    forall p {:trigger HasRow(s.rows, p)} :: p in s.disk ==> HasRow(s.rows, p)
  }

  /** An expired row of the tenant has this path. */
  ghost predicate IsDoomed(s: Store, tenant: Tenant, cutoff: int, p: Path) {
    exists id :: id in Expired(s.rows, tenant, cutoff) && s.rows[id].path == p
  }

  // ---------------------------------------------------------------- what one tenant's turn may do

  /** From s to s': only expired rows and their files go, a row never before its file. */
  ghost predicate Purged(s: Store, s': Store, tenant: Tenant, cutoff: int) {
    && s'.disk <= s.disk
    && (forall id :: id in s'.rows ==> id in s.rows && s'.rows[id] == s.rows[id])
    && (forall id :: id in s.rows && id !in s'.rows ==>
          id in Expired(s.rows, tenant, cutoff) && s.rows[id].path !in s'.disk)
    && (forall p {:trigger IsDoomed(s, tenant, cutoff, p)} :: p in s.disk && p !in s'.disk ==>
          IsDoomed(s, tenant, cutoff, p))
  }

  /** A turn that ends with its commit: an expired row is left exactly when its file could not be removed, and a
      removable file of an expired row is gone. */
  ghost predicate Completed(s: Store, s': Store, tenant: Tenant, cutoff: int, locked: set<Path>) {
    && Purged(s, s', tenant, cutoff)
    && (forall id :: id in Expired(s.rows, tenant, cutoff) ==>
          (id in s'.rows <==> s.rows[id].path in s.disk && s.rows[id].path in locked)
          && (s.rows[id].path in s'.disk <==> s.rows[id].path in s.disk && s.rows[id].path in locked))
  }

  /** A turn cut short: the rows are as they were. */
  ghost predicate CutShort(s: Store, s': Store, tenant: Tenant, cutoff: int) {
    Purged(s, s', tenant, cutoff) && s'.rows == s.rows
  }

  lemma PurgeLeavesNoOrphanFile(s: Store, s': Store, tenant: Tenant, cutoff: int)
    requires NoOrphanFile(s) && Purged(s, s', tenant, cutoff)
    ensures NoOrphanFile(s')
  {
    forall p | p in s'.disk
      ensures HasRow(s'.rows, p)
    {
      assert HasRow(s.rows, p);
      var id :| id in s.rows && s.rows[id].path == p;
      assert id in s'.rows && s'.rows[id].path == p;
    }
  }

  /** A row that is held, another tenant's, or not older than the cutoff stays. Its file stays unless an unheld older
      row of the tenant has the same path, and a completed turn removes it just then, if it can be removed at all. */
  lemma KeptRowKeepsItsFile(s: Store, s': Store, tenant: Tenant, cutoff: int, locked: set<Path>, id: int)
    requires Completed(s, s', tenant, cutoff, locked) && id in s.rows && s.rows[id].path in s.disk
    requires s.rows[id].held || s.rows[id].tenant != tenant || s.rows[id].captured >= cutoff
    ensures id in s'.rows && s'.rows[id] == s.rows[id]
    ensures s.rows[id].path !in s'.disk
            <==> s.rows[id].path !in locked
                 && exists other :: other in s.rows && s.rows[other].path == s.rows[id].path && !s.rows[other].held
                                    && s.rows[other].tenant == tenant && s.rows[other].captured < cutoff
  {
    assert s.rows[id].path !in s'.disk ==> IsDoomed(s, tenant, cutoff, s.rows[id].path);
  }

  // ---------------------------------------------------------------- over many days

  /** One tenant's turn of a purge; an erasure a person asked for; or anything else that happens to the table. */
  datatype Step = Turn(tenant: Tenant, cutoff: int) | Erase(id: int) | Meanwhile

  /** An erasure on request: it is refused, or cut short after the file, or done, row after file. */
  ghost predicate Erased(s: Store, s': Store, id: int) {
    || s' == s
    || (id in s.rows && s'.disk == s.disk - {s.rows[id].path} && (s'.rows == s.rows || s'.rows == s.rows - {id}))
  }

  /** A row stays what it is; holds come and go. */
  predicate Stays(r: Row, r': Row) { r' == r.(held := r'.held) }

  /** Evidence arrives, each new file with its row; holds are set and released. */
  ghost predicate Between(s: Store, s': Store) {
    && s.disk <= s'.disk
    && (forall p {:trigger HasRow(s'.rows, p)} :: p in s'.disk && p !in s.disk ==> HasRow(s'.rows, p))
    && (forall id :: id in s.rows ==> id in s'.rows && Stays(s.rows[id], s'.rows[id]))
  }

  ghost predicate Stepped(s: Store, s': Store, step: Step) {
    match step
    case Turn(tenant, cutoff) => Purged(s, s', tenant, cutoff)
    case Erase(id) => Erased(s, s', id)
    case Meanwhile => Between(s, s')
  }

  ghost predicate StepAt(ss: seq<Store>, steps: seq<Step>, i: nat)
    requires i < |steps| < |ss|
  {
    Stepped(ss[i], ss[i + 1], steps[i])
  }

  /** Any number of turns, of any tenants, on any days, completed or cut short, and whatever happens between them. */
  ghost predicate Runs(ss: seq<Store>, steps: seq<Step>) {
    |ss| == |steps| + 1 && forall i :: 0 <= i < |steps| ==> StepAt(ss, steps, i)
  }

  lemma RunsGrow(ss: seq<Store>, steps: seq<Step>, s: Store, step: Step)
    requires Runs(ss, steps) && Stepped(ss[|steps|], s, step)
    ensures Runs(ss + [s], steps + [step])
  {
    var more, longer := ss + [s], steps + [step];
    forall i | 0 <= i < |longer|
      ensures StepAt(more, longer, i)
    {
      if i < |steps| { assert StepAt(ss, steps, i); }
    }
  }

  lemma RunsShrink(ss: seq<Store>, steps: seq<Step>, n: nat)
    requires Runs(ss, steps) && n <= |steps|
    ensures Runs(ss[..n + 1], steps[..n])
  {
    var before, first := ss[..n + 1], steps[..n];
    forall i | 0 <= i < n
      ensures StepAt(before, first, i)
    {
      assert StepAt(ss, steps, i);
    }
  }

  /** The step is there to take this row: it finds the row expired and not held, or the row is to be erased. */
  ghost predicate Takes(s: Store, step: Step, id: int) {
    match step
    case Turn(tenant, cutoff) =>
      id in s.rows && s.rows[id].tenant == tenant && s.rows[id].captured < cutoff && !s.rows[id].held
    case Erase(other) => id == other && id in s.rows
    case Meanwhile => false
  }

  /** ... and so the file of this path. */
  ghost predicate Dooms(s: Store, step: Step, p: Path) {
    exists id :: Takes(s, step, id) && s.rows[id].path == p
  }

  lemma StepKeepsFiles(s: Store, s': Store, step: Step)
    requires NoOrphanFile(s) && Stepped(s, s', step)
    ensures NoOrphanFile(s')
  {
    match step {
      case Turn(tenant, cutoff) => PurgeLeavesNoOrphanFile(s, s', tenant, cutoff);
      case _ =>
        forall p | p in s'.disk
          ensures HasRow(s'.rows, p)
        {
          if p in s.disk {
            assert HasRow(s.rows, p);
            var id :| id in s.rows && s.rows[id].path == p;
            assert id in s'.rows && s'.rows[id].path == p;
          }
        }
    }
  }

  /** A row goes only with a step that takes it, after its file, and a file only with a row a step takes. */
  lemma StepTakesOnly(s: Store, s': Store, step: Step)
    requires Stepped(s, s', step)
    ensures forall id :: id in s.rows && id !in s'.rows ==> Takes(s, step, id) && s.rows[id].path !in s'.disk
    ensures forall id :: id in s.rows && id in s'.rows ==> Stays(s.rows[id], s'.rows[id])
    ensures forall p :: p in s.disk && p !in s'.disk ==> Dooms(s, step, p)
  {
    forall p | p in s.disk && p !in s'.disk
      ensures Dooms(s, step, p)
    {
      match step {
        case Turn(tenant, cutoff) =>
          assert IsDoomed(s, tenant, cutoff, p);
          var id :| id in Expired(s.rows, tenant, cutoff) && s.rows[id].path == p;
          assert Takes(s, step, id);
        case Erase(id) => assert Takes(s, step, id);
        case Meanwhile =>
      }
    }
  }

  /** In step i the row went: the step was there to take it, and its file was gone. */
  ghost predicate Went(ss: seq<Store>, steps: seq<Step>, i: nat, id: int) {
    && i < |steps| && i + 1 < |ss| && Takes(ss[i], steps[i], id)
    && id in ss[i].rows && id !in ss[i + 1].rows && ss[i].rows[id].path !in ss[i + 1].disk
  }

  ghost predicate HasGone(ss: seq<Store>, steps: seq<Step>, id: int) { exists i :: Went(ss, steps, i, id) }

  ghost predicate TakenAt(ss: seq<Store>, steps: seq<Step>, i: nat, id: int) {
    i < |steps| && i < |ss| && Takes(ss[i], steps[i], id)
  }

  ghost predicate WasTaken(ss: seq<Store>, steps: seq<Step>, id: int) { exists i :: TakenAt(ss, steps, i, id) }

  ghost predicate DoomedAt(ss: seq<Store>, steps: seq<Step>, i: nat, p: Path) {
    i < |steps| && i < |ss| && Dooms(ss[i], steps[i], p)
  }

  ghost predicate WasDoomed(ss: seq<Store>, steps: seq<Step>, p: Path) { exists i :: DoomedAt(ss, steps, i, p) }

  /** However often it crashes, and whatever happens in between: a file on disk always has its row, and a row is only
      ever removed by a turn that found it expired and not held, or on request, with its file already gone. */
  lemma {:induction false} CrashSafe(ss: seq<Store>, steps: seq<Step>, id: int)
    requires Runs(ss, steps) && NoOrphanFile(ss[0])
    ensures NoOrphanFile(ss[|steps|])
    ensures id in ss[0].rows && id !in ss[|steps|].rows ==> HasGone(ss, steps, id)
    decreases |steps|
  {
    if steps != [] {
      var n := |steps| - 1;
      RunsShrink(ss, steps, n);
      CrashSafe(ss[..n + 1], steps[..n], id);
      assert StepAt(ss, steps, n);
      StepKeepsFiles(ss[n], ss[n + 1], steps[n]);
      StepTakesOnly(ss[n], ss[n + 1], steps[n]);
      if id in ss[n].rows && id !in ss[n + 1].rows { assert Went(ss, steps, n, id); }
      if HasGone(ss[..n + 1], steps[..n], id) {
        var i :| Went(ss[..n + 1], steps[..n], i, id);
        assert Went(ss, steps, i, id);
      }
    }
  }

  /** A file only ever goes in a step that takes a row with its path. */
  lemma {:induction false} OnlyDoomedFilesGo(ss: seq<Store>, steps: seq<Step>, p: Path)
    requires Runs(ss, steps) && p in ss[0].disk && p !in ss[|steps|].disk
    ensures WasDoomed(ss, steps, p)
    decreases |steps|
  {
    var n := |steps| - 1;
    if p in ss[n].disk {
      assert StepAt(ss, steps, n);
      StepTakesOnly(ss[n], ss[n + 1], steps[n]);
      assert DoomedAt(ss, steps, n, p);
    } else {
      RunsShrink(ss, steps, n);
      OnlyDoomedFilesGo(ss[..n + 1], steps[..n], p);
      var i :| DoomedAt(ss[..n + 1], steps[..n], i, p);
      assert DoomedAt(ss, steps, i, p);
    }
  }

  /** So a row that no step takes is there after all of them, and so is its file unless some step took a row with the
      same path. */
  lemma {:induction false} KeptThroughAll(ss: seq<Store>, steps: seq<Step>, id: int)
    requires Runs(ss, steps) && id in ss[0].rows && !WasTaken(ss, steps, id)
    ensures id in ss[|steps|].rows && Stays(ss[0].rows[id], ss[|steps|].rows[id])
    ensures ss[0].rows[id].path in ss[0].disk && !WasDoomed(ss, steps, ss[0].rows[id].path) ==>
              ss[0].rows[id].path in ss[|steps|].disk
    decreases |steps|
  {
    var p := ss[0].rows[id].path;
    if p in ss[0].disk && p !in ss[|steps|].disk { OnlyDoomedFilesGo(ss, steps, p); }
    if steps != [] {
      var n := |steps| - 1;
      RunsShrink(ss, steps, n);
      if WasTaken(ss[..n + 1], steps[..n], id) {
        var i :| TakenAt(ss[..n + 1], steps[..n], i, id);
        assert TakenAt(ss, steps, i, id);
      }
      KeptThroughAll(ss[..n + 1], steps[..n], id);
      assert StepAt(ss, steps, n);
      StepTakesOnly(ss[n], ss[n + 1], steps[n]);
      assert !TakenAt(ss, steps, n, id);
    }
  }

  /** At this step the row is held, another tenant's or not older than the cutoff, or it is not the one erased. */
  ghost predicate IsSafe(s: Store, step: Step, id: int) {
    id in s.rows ==>
      match step
      case Turn(tenant, cutoff) => s.rows[id].held || s.rows[id].tenant != tenant || s.rows[id].captured >= cutoff
      case Erase(other) => other != id
      case Meanwhile => true
  }

  ghost predicate AlwaysSafe(ss: seq<Store>, steps: seq<Step>, id: int) {
    |ss| > |steps| && forall i :: 0 <= i < |steps| ==> IsSafe(ss[i], steps[i], id)
  }

  /** The same of the rows with this path. */
  ghost predicate IsSafePath(ss: seq<Store>, steps: seq<Step>, p: Path) {
    |ss| > |steps|
    && forall i, id :: 0 <= i < |steps| && id in ss[i].rows && ss[i].rows[id].path == p ==> IsSafe(ss[i], steps[i], id)
  }

  /** What holds protect: over any purges, erasures, crashes and arrivals a row that is held, another tenant's or young
      enough at every turn, and never erased, is there in the end, and its file too if that is so of every row with its
      path. */
  lemma HeldIsKept(ss: seq<Store>, steps: seq<Step>, id: int)
    requires Runs(ss, steps) && id in ss[0].rows && AlwaysSafe(ss, steps, id)
    ensures id in ss[|steps|].rows && Stays(ss[0].rows[id], ss[|steps|].rows[id])
    ensures ss[0].rows[id].path in ss[0].disk && IsSafePath(ss, steps, ss[0].rows[id].path) ==>
              ss[0].rows[id].path in ss[|steps|].disk
  {
    KeptThroughAll(ss, steps, id);
  }

  // ---------------------------------------------------------------- one purge

  /** A purge goes through turns only. */
  type PurgeTurn = step: Step | step.Turn? witness Turn(0, 0)

  /** The row is not held, and some turn was its tenant's with a cutoff after its capture. */
  ghost predicate WasExpired(r: Row, turns: seq<PurgeTurn>) {
    !r.held && exists i :: 0 <= i < |turns| && turns[i].tenant == r.tenant && r.captured < turns[i].cutoff
  }

  lemma MoreTurns(r: Row, turns: seq<PurgeTurn>, n: nat)
    requires n == |turns| - 1
    ensures WasExpired(r, turns) <==> WasExpired(r, turns[..n]) || IsExpired(r, turns[n].tenant, turns[n].cutoff)
  {
    if WasExpired(r, turns[..n]) {
      var i :| 0 <= i < n && turns[..n][i].tenant == r.tenant && r.captured < turns[..n][i].cutoff;
      assert turns[i].tenant == r.tenant && r.captured < turns[i].cutoff;
    }
    if WasExpired(r, turns) {
      var i :| 0 <= i < |turns| && turns[i].tenant == r.tenant && r.captured < turns[i].cutoff;
      if i < n { assert turns[..n][i].tenant == r.tenant && r.captured < turns[..n][i].cutoff; }
    }
  }

  /** A purge, completed or cut short, only removes: rows that had expired for one of its turns, after their files. */
  lemma {:induction false} TurnsOnlyRemove(ss: seq<Store>, turns: seq<PurgeTurn>)
    requires Runs(ss, turns)
    ensures forall id :: id in ss[0].rows && id !in ss[|turns|].rows ==>
              ss[0].rows[id].path !in ss[|turns|].disk && WasExpired(ss[0].rows[id], turns)
    ensures forall id :: id in ss[|turns|].rows ==> id in ss[0].rows && ss[|turns|].rows[id] == ss[0].rows[id]
    ensures ss[|turns|].disk <= ss[0].disk
    decreases |turns|
  {
    if turns != [] {
      var n := |turns| - 1;
      RunsShrink(ss, turns, n);
      TurnsOnlyRemove(ss[..n + 1], turns[..n]);
      assert StepAt(ss, turns, n);
      forall id | id in ss[0].rows && id !in ss[n + 1].rows
        ensures ss[0].rows[id].path !in ss[n + 1].disk && WasExpired(ss[0].rows[id], turns)
      {
        MoreTurns(ss[0].rows[id], turns, n);
      }
    }
  }

  ghost predicate CompletedAt(ss: seq<Store>, turns: seq<PurgeTurn>, locked: set<Path>, i: nat)
    requires i < |turns| < |ss|
  {
    Completed(ss[i], ss[i + 1], turns[i].tenant, turns[i].cutoff, locked)
  }

  /** Every turn came to its commit. */
  ghost predicate Clean(ss: seq<Store>, turns: seq<PurgeTurn>, locked: set<Path>) {
    |ss| == |turns| + 1 && forall i :: 0 <= i < |turns| ==> CompletedAt(ss, turns, locked, i)
  }

  lemma CleanShrinks(ss: seq<Store>, turns: seq<PurgeTurn>, locked: set<Path>, n: nat)
    requires Clean(ss, turns, locked) && n <= |turns|
    ensures Clean(ss[..n + 1], turns[..n], locked) && Runs(ss, turns)
  {
    var before, first := ss[..n + 1], turns[..n];
    forall i | 0 <= i < n
      ensures CompletedAt(before, first, locked, i)
    {
      assert CompletedAt(ss, turns, locked, i);
    }
    forall i | 0 <= i < |turns|
      ensures StepAt(ss, turns, i)
    {
      assert CompletedAt(ss, turns, locked, i);
    }
  }

  /** A file nobody may remove. */
  predicate IsStuck(s: Store, p: Path, locked: set<Path>) { p in s.disk && p in locked }

  lemma {:induction false} StuckStays(ss: seq<Store>, turns: seq<PurgeTurn>, locked: set<Path>, p: Path)
    requires Clean(ss, turns, locked)
    ensures IsStuck(ss[|turns|], p, locked) == IsStuck(ss[0], p, locked)
    decreases |turns|
  {
    if turns != [] {
      var n := |turns| - 1;
      CleanShrinks(ss, turns, locked, n);
      StuckStays(ss[..n + 1], turns[..n], locked, p);
      assert CompletedAt(ss, turns, locked, n);
      TurnKeepsStuck(ss[n], ss[n + 1], turns[n].tenant, turns[n].cutoff, locked, p);
    }
  }

  lemma TurnKeepsStuck(s: Store, s': Store, tenant: Tenant, cutoff: int, locked: set<Path>, p: Path)
    requires Completed(s, s', tenant, cutoff, locked)
    ensures IsStuck(s', p, locked) == IsStuck(s, p, locked)
  {
    if p in s.disk && p !in s'.disk {
      assert IsDoomed(s, tenant, cutoff, p);
    }
  }

  /** A purge in which nothing breaks removes exactly the rows that have expired, without a hold, for one of its turns,
      but for those whose file is there and cannot be removed. Rows an earlier crash left without files go with them. */
  lemma {:induction false} CleanPurgeRemovesExactly(ss: seq<Store>, turns: seq<PurgeTurn>, locked: set<Path>, id: int)
    requires Clean(ss, turns, locked) && id in ss[0].rows
    ensures var r := ss[0].rows[id];
            id !in ss[|turns|].rows <==> WasExpired(r, turns) && !IsStuck(ss[0], r.path, locked)
    decreases |turns|
  {
    if turns != [] {
      var n := |turns| - 1;
      CleanShrinks(ss, turns, locked, n);
      CleanPurgeRemovesExactly(ss[..n + 1], turns[..n], locked, id);
      TurnsOnlyRemove(ss[..n + 1], turns[..n]) by { RunsShrink(ss, turns, n); }
      StuckStays(ss[..n + 1], turns[..n], locked, ss[0].rows[id].path);
      MoreTurns(ss[0].rows[id], turns, n);
      assert CompletedAt(ss, turns, locked, n);
    }
  }

  /** The rows a crash left without files are gone after the next turn that completes. */
  lemma CleanTurnRemovesWhatACrashLeft(s: Store, s1: Store, s2: Store, tenant: Tenant, cutoff: int, later: int,
                                       locked: set<Path>)
    requires CutShort(s, s1, tenant, cutoff) && Completed(s1, s2, tenant, later, locked) && cutoff <= later
    ensures forall id :: id in Expired(s.rows, tenant, cutoff) && s.rows[id].path !in s1.disk ==> id !in s2.rows
    ensures forall id :: id in Expired(s.rows, tenant, cutoff) && id in s2.rows ==>
              s.rows[id].path in s2.disk && s.rows[id].path in locked
  {
  }

  // ---------------------------------------------------------------- the code

  /** The rows of the first k ids, on a disk where no locked file can be removed, whose files could not be. */
  function Stuck(rows: map<int, Row>, disk: set<Path>, locked: set<Path>, ids: set<int>): set<int>
    requires ids <= rows.Keys
  {
    set id | id in ids && rows[id].path in disk && rows[id].path in locked
  }

  function Paths(rows: map<int, Row>, ids: set<int>): set<Path>
    requires ids <= rows.Keys
  {
    set id | id in ids :: rows[id].path
  }

  /** What the transaction sees and the disk holds once these ids have been dealt with. */
  ghost predicate Done(s: Store, view: map<int, Row>, disk: set<Path>, locked: set<Path>, ids: set<int>) {
    && ids <= s.rows.Keys
    && view == s.rows - (ids - Stuck(s.rows, s.disk, locked, ids))
    && disk == s.disk - (Paths(s.rows, ids) - locked)
  }

  lemma DoneIsPurged(s: Store, view: map<int, Row>, disk: set<Path>, locked: set<Path>, ids: set<int>, tenant: Tenant,
                     cutoff: int)
    requires Done(s, view, disk, locked, ids) && ids <= Expired(s.rows, tenant, cutoff)
    ensures CutShort(s, Store(s.rows, disk), tenant, cutoff)
    ensures ids == Expired(s.rows, tenant, cutoff) ==> Completed(s, Store(view, disk), tenant, cutoff, locked)
  {
  }

  class Evidence {
    var rows: map<int, Row>
    var disk: set<Path>
    const locked: set<Path>

    ghost function Now(): Store
      reads this
    {
      Store(rows, disk)
    }

    /** Where anything can go wrong, an error or a crash may come before any statement. */
    method Breaks(faulty: bool) returns (broken: bool)
      ensures broken ==> faulty
    {
      var luck: bool := *;
      broken := faulty && luck;
    }

    /** unlink: refused for a file this process may not remove. */
    method Unlink(p: Path) returns (ok: bool)
      modifies this`disk
      ensures ok == (p !in locked) && disk == if ok then old(disk) - {p} else old(disk)
    {
      ok := p !in locked;
      if ok { disk := disk - {p}; }
    }

    /** The file of a row about to go, if there is one. */
    method RemoveFile(p: Path) returns (gone: bool)
      modifies this`disk
      ensures gone == !(p in old(disk) && p in locked)
      ensures disk == if gone then old(disk) - {p} else old(disk)
    {
      gone := true;
      if p in disk { gone := Unlink(p); }
    }

    /** One tenant's turn, up to its commit. */
    method PurgeTenant(tenant: Tenant, cutoff: int, faulty: bool) returns (committed: bool)
      modifies this
      ensures !committed ==> faulty
      ensures committed ==> Completed(old(Now()), Now(), tenant, cutoff, locked)
      ensures !committed ==> CutShort(old(Now()), Now(), tenant, cutoff)
      ensures forall id :: id in old(rows) && id !in rows ==>
                var r := old(rows)[id]; r.tenant == tenant && r.captured < cutoff && !r.held
      ensures committed ==> forall id :: id in old(rows) ==>
                var r := old(rows)[id];
                (id !in rows <==> r.tenant == tenant && r.captured < cutoff && !r.held
                                  && !(r.path in old(disk) && r.path in locked))
      ensures forall p :: p in old(disk) && p !in disk ==>
                exists id :: id in old(rows) && old(rows)[id].path == p && old(rows)[id].tenant == tenant
                             && old(rows)[id].captured < cutoff && !old(rows)[id].held
    {
      var view := rows;
      var left := Expired(rows, tenant, cutoff);
      ghost var s, all := Now(), Expired(rows, tenant, cutoff);
      DoneIsPurged(s, view, disk, locked, {}, tenant, cutoff);
      while left != {}
        invariant left <= all && rows == s.rows && Done(s, view, disk, locked, all - left)
        invariant CutShort(s, Now(), tenant, cutoff)
        decreases |left|
      {
        EmptyOrNot(left);
        var id :| id in left;
        Next(s, view, disk, locked, all, left, id, tenant, cutoff);
        left := left - {id};
        var broken := Breaks(faulty);
        if broken { return false; }
        var gone := RemoveFile(rows[id].path);
        broken := Breaks(faulty);
        if broken { return false; }
        if gone { view := view - {id}; }
      }
      assert all - left == all;
      DoneIsPurged(s, view, disk, locked, all, tenant, cutoff);
      rows := view;
      committed := true;
      assert forall p :: p in s.disk && p !in disk ==> IsDoomed(s, tenant, cutoff, p);
    }

    /** purge_expired_evidence: one tenant after the other, each with its own cutoff, until something breaks: every turn
        but the one it breaks in is completed, and without a fault all of them are. */
    method Purge(turns: seq<PurgeTurn>, faulty: bool) returns (ghost ss: seq<Store>, done: nat, committed: bool)
      modifies this
      ensures done <= |turns| && |ss| == done + 1 && ss[0] == old(Now()) && ss[done] == Now()
      ensures Runs(ss, turns[..done])
      ensures committed ==> done == |turns| && Clean(ss, turns, locked)
      ensures committed ==> forall id :: id in old(rows) ==>
                (id !in rows <==> WasExpired(old(rows)[id], turns) && !IsStuck(old(Now()), old(rows)[id].path, locked))
      ensures !committed ==> faulty && done > 0 && Clean(ss[..done], turns[..done - 1], locked)
                             && CutShort(ss[done - 1], Now(), turns[done - 1].tenant, turns[done - 1].cutoff)
      ensures NoOrphanFile(old(Now())) ==> NoOrphanFile(Now())
    {
      done, ss, committed := 0, [Now()], true;
      while done < |turns| && committed
        invariant done <= |turns| && |ss| == done + 1 && ss[0] == old(Now()) && ss[done] == Now()
        invariant Runs(ss, turns[..done])
        invariant committed ==> Clean(ss, turns[..done], locked)
        invariant !committed ==> faulty && done > 0 && Clean(ss[..done], turns[..done - 1], locked)
                                 && CutShort(ss[done - 1], Now(), turns[done - 1].tenant, turns[done - 1].cutoff)
      {
        ghost var s := Now();
        committed := PurgeTenant(turns[done].tenant, turns[done].cutoff, faulty);
        OneMoreTurn(ss, turns, done, Now(), locked);
        ss, done := ss + [Now()], done + 1;
      }
      assert turns[..|turns|] == turns;
      if committed {
        forall id | id in ss[0].rows
          ensures id !in ss[done].rows
             <==> WasExpired(ss[0].rows[id], turns) && !IsStuck(ss[0], ss[0].rows[id].path, locked)
        {
          CleanPurgeRemovesExactly(ss, turns, locked, id);
        }
      }
      if NoOrphanFile(old(Now())) { CrashSafe(ss, turns[..done], 0); }
    }
  }

  lemma OneMoreTurn(ss: seq<Store>, turns: seq<PurgeTurn>, done: nat, s: Store, locked: set<Path>)
    requires done < |turns| && |ss| == done + 1 && Runs(ss, turns[..done]) && Clean(ss, turns[..done], locked)
    requires Purged(ss[done], s, turns[done].tenant, turns[done].cutoff)
    ensures Runs(ss + [s], turns[..done + 1])
    ensures (ss + [s])[..done + 1] == ss
    ensures Completed(ss[done], s, turns[done].tenant, turns[done].cutoff, locked) ==>
              Clean(ss + [s], turns[..done + 1], locked)
  {
    assert turns[..done + 1] == turns[..done] + [turns[done]];
    RunsGrow(ss, turns[..done], s, turns[done]);
    var more, longer := ss + [s], turns[..done + 1];
    if Completed(ss[done], s, turns[done].tenant, turns[done].cutoff, locked) {
      forall i | 0 <= i < done + 1
        ensures CompletedAt(more, longer, locked, i)
      {
        if i < done { assert CompletedAt(ss, turns[..done], locked, i); }
      }
    }
  }

  lemma Next(s: Store, view: map<int, Row>, disk: set<Path>, locked: set<Path>, all: set<int>, left: set<int>, id: int,
             tenant: Tenant, cutoff: int)
    requires Done(s, view, disk, locked, all - left) && all == Expired(s.rows, tenant, cutoff)
    requires left <= all && id in left
    ensures var p := s.rows[id].path;
            if p in disk && p in locked then
              Done(s, view, disk, locked, all - (left - {id})) && CutShort(s, Store(s.rows, disk), tenant, cutoff)
            else
              && Done(s, view - {id}, disk - {p}, locked, all - (left - {id}))
              && CutShort(s, Store(s.rows, disk - {p}), tenant, cutoff)
    ensures id in view
  {
  }
}
