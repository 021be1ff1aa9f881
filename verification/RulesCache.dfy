/** A tenant's alert-rule overrides, read through a cache that any number of callers share while the rows change. */
module RulesCache {
  import opened AlertRules
  import opened TimedLog
  import opened Wrappers

  const CACHE_TTL_SECONDS := 30

  type Key = (string, string)

  /** A row of alert_rules. */
  datatype Row = Row(key: Key, severity: string, createIncident: bool, incidentSeverity: Option<string>,
                     isEnabled: bool)

  /** None means disabled; an absent key means no override. */
  type Overrides = map<Key, Option<AlertRule>>

  function RuleOf(r: Row): Option<AlertRule> { Make(r.severity, r.createIncident, r.incidentSeverity) }

  /** What the loop over the rows makes of them: an invalid row is passed over. */
  function OverridesOf(rows: seq<Row>): Overrides {
    if rows == [] then map[]
    else
      var before, r := OverridesOf(rows[..|rows| - 1]), rows[|rows| - 1];
      if !r.isEnabled then before[r.key := None]
      else if RuleOf(r).Some? then before[r.key := Some(RuleOf(r).value)]
      else before
  }

  /** resolve_rule, given the overrides. */
  function Resolve(overrides: Overrides, key: Key): Option<AlertRule> {
    if key in overrides then overrides[key] else DefaultRule(key.0, key.1)
  }

  /** A tenant has at most one row for a key. */
  ghost predicate OneRowEach(rows: seq<Row>) {
    forall i, j :: 0 <= i < j < |rows| ==> rows[i].key != rows[j].key
  }

  lemma {:induction false} NoRowNoOverride(rows: seq<Row>, key: Key)
    requires forall i :: 0 <= i < |rows| ==> rows[i].key != key
    ensures key !in OverridesOf(rows)
  {
    if rows != [] { NoRowNoOverride(rows[..|rows| - 1], key); }
  }

  lemma {:induction false} RowDecides(rows: seq<Row>, i: nat)
    requires OneRowEach(rows) && i < |rows|
    ensures var r, overrides := rows[i], OverridesOf(rows);
            if !r.isEnabled then r.key in overrides && overrides[r.key] == None
            else if RuleOf(r).Some? then r.key in overrides && overrides[r.key] == RuleOf(r)
            else r.key !in overrides
  {
    var p := rows[..|rows| - 1];
    if i < |p| {
      RowDecides(p, i);
      assert rows[|p|].key != rows[i].key;
    } else {
      NoRowNoOverride(p, rows[i].key);
    }
  }

  /** A disabled row silences the trigger, a valid enabled row replaces the default, and an invalid row does what no row
      does: the default stays. */
  lemma DisabledIsNotAbsent(rows: seq<Row>, i: nat)
    requires OneRowEach(rows) && i < |rows|
    ensures var r, answer := rows[i], Resolve(OverridesOf(rows), rows[i].key);
            if !r.isEnabled then answer == None
            else if r.severity in SEVERITIES && (r.createIncident <==> r.incidentSeverity != None) then
              && answer != None && answer.value.severity == r.severity
              && answer.value.createIncident == r.createIncident && answer.value.incidentSeverity == r.incidentSeverity
            else answer == DefaultRule(r.key.0, r.key.1)
  {
    RowDecides(rows, i);
  }

  lemma AbsentIsTheDefault(rows: seq<Row>, key: Key)
    requires forall i :: 0 <= i < |rows| ==> rows[i].key != key
    ensures Resolve(OverridesOf(rows), key) == DefaultRule(key.0, key.1)
  {
    NoRowNoOverride(rows, key);
  }

  /** Whatever rows are in the table, also malformed ones, an answer is a well-formed rule or None. */
  lemma {:induction false} AnswersAreWellFormed(rows: seq<Row>, key: Key)
    ensures var a := Resolve(OverridesOf(rows), key); a.Some? ==> WellFormed(a.value)
  {
    if rows != [] { AnswersAreWellFormed(rows[..|rows| - 1], key); }
  }

  /** _fetch_rules. */
  method FetchRules(rows: seq<Row>) returns (overrides: Overrides)
    ensures overrides == OverridesOf(rows)
  {
    overrides := map[];
    for k := 0 to |rows|
      invariant overrides == OverridesOf(rows[..k])
    {
      var r := rows[k];
      assert rows[..k + 1][..k] == rows[..k];
      if !r.isEnabled {
        overrides := overrides[r.key := None];
        continue;
      }
      var rule := Make(r.severity, r.createIncident, r.incidentSeverity);
      if rule.Some? { overrides := overrides[r.key := Some(rule.value)]; }
    }
    assert rows[..|rows|] == rows;
  }

  // ---------------------------------------------------------------- the cache

  /** The overrides, and the moment they were stored. */
  datatype Entry = Entry(overrides: Overrides, stored: int)

  /** A fetch that was stored: it began, saw the rows in force at `read`, and was stored. */
  datatype Fetch = Fetch(rows: seq<Row>, begun: int, read: int, stored: int)

  /** How far another caller's fetch has come. */
  datatype Call = Begun(begun: int) | Read(begun: int, read: int, rows: seq<Row>)

  ghost predicate IsFetch(log: seq<Change<seq<Row>>>, f: Fetch) {
    f.begun <= f.read <= f.stored && InForce(log, f.rows, f.read)
  }

  ghost predicate AreFetches(log: seq<Change<seq<Row>>>, fetches: seq<Fetch>, clock: int) {
    forall f :: f in fetches ==> IsFetch(log, f) && f.stored <= clock
  }

  ghost predicate IsUnderWay(log: seq<Change<seq<Row>>>, c: Call, clock: int) {
    if c.Begun? then c.begun <= clock else c.begun <= c.read <= clock && InForce(log, c.rows, c.read)
  }

  ghost predicate AreUnderWay(log: seq<Change<seq<Row>>>, calls: map<nat, Call>, clock: int) {
    forall id :: id in calls ==> IsUnderWay(log, calls[id], clock)
  }

  lemma FetchesStay(log: seq<Change<seq<Row>>>, c: Change<seq<Row>>, fetches: seq<Fetch>)
    requires AreFetches(log, fetches, c.at)
    ensures AreFetches(log + [c], fetches, c.at)
  {
    forall f | f in fetches
      ensures IsFetch(log + [c], f)
    {
      InForceStays(log, c, f.rows, f.read);
    }
  }

  lemma CallsStay(log: seq<Change<seq<Row>>>, c: Change<seq<Row>>, calls: map<nat, Call>)
    requires AreUnderWay(log, calls, c.at)
    ensures AreUnderWay(log + [c], calls, c.at)
  {
    forall id | id in calls
      ensures IsUnderWay(log + [c], calls[id], c.at)
    {
      assert IsUnderWay(log, calls[id], c.at);
      if calls[id].Read? { InForceStays(log, c, calls[id].rows, calls[id].read); }
    }
  }

  /** One tenant: the history of its rows, the clock, what the cache holds, and the other callers' fetches. */
  class TenantRules {
    var clock: int
    var log: seq<Change<seq<Row>>>
    var cache: Option<Entry>
    var others: map<nat, Call>
    /** Every fetch any caller has stored, in order. */
    ghost var fetches: seq<Fetch>

    ghost predicate Valid()
      reads this
    {
      && log != [] && log[|log| - 1].at <= clock
      && AreFetches(log, fetches, clock) && AreUnderWay(log, others, clock)
      && (cache.Some? ==>
            && fetches != [] && cache.value.stored <= clock
            && cache.value == Entry(OverridesOf(fetches[|fetches| - 1].rows), fetches[|fetches| - 1].stored))
    }

    /** The overrides are those of a stored fetch, less than 30 seconds after it was stored. */
    ghost predicate IsRecent(overrides: Overrides, now: int)
      reads this
    {
      exists f :: f in fetches && overrides == OverridesOf(f.rows) && now - f.stored < CACHE_TTL_SECONDS
    }

    /** A fetch that really began then: since, or it was under way before. */
    twostate predicate Truly(begun: int)
      reads this
    {
      begun >= old(clock) || exists id :: id in old(others) && old(others)[id].begun == begun
    }

    /** What may happen to what a caller relies on: time goes on, the record of the past only grows, the entry only
        becomes younger, and no fetch is under way or is recorded but one that really began when it says. */
    twostate predicate GoesOn()
      reads this
    {
      && old(clock) <= clock && old(fetches) <= fetches
      && (old(cache).Some? ==> cache.Some? && old(cache).value.stored <= cache.value.stored)
      && (forall rows, t :: InForce(old(log), rows, t) && t <= old(clock) ==> InForce(log, rows, t))
      && (forall id :: id in others ==> Truly(others[id].begun))
      && (forall i :: |old(fetches)| <= i < |fetches| ==> Truly(fetches[i].begun))
    }

    constructor (rows: seq<Row>)
      ensures Valid() && cache == None && fetches == []
    {
      clock, log, cache, others, fetches := 0, [Change(0, rows)], None, map[], [];
    }

    method Tick(seconds: nat)
      requires Valid()
      modifies this`clock
      ensures Valid() && clock == old(clock) + seconds
    {
      clock := clock + seconds;
    }

    /** The tenant's rows change. */
    method Write(rows: seq<Row>)
      requires Valid()
      modifies this`log
      ensures Valid() && log == old(log) + [Change(clock, rows)]
      ensures forall r, t :: InForce(old(log), r, t) && t <= clock ==> InForce(log, r, t)
    {
      ghost var c := Change(clock, rows);
      FetchesStay(log, c, fetches);
      CallsStay(log, c, others);
      forall r, t | InForce(log, r, t) && t <= clock
        ensures InForce(log + [c], r, t)
      {
        InForceStays(log, c, r, t);
      }
      log := log + [Change(clock, rows)];
    }

    /** The first locked block. */
    method Look(now: int) returns (found: Option<Overrides>)
      requires Valid()
      ensures found == if cache.Some? && now - cache.value.stored < CACHE_TTL_SECONDS then Some(cache.value.overrides)
                       else None
      ensures found.Some? ==> IsRecent(found.value, now)
    {
      found := None;
      if cache.Some? && now - cache.value.stored < CACHE_TTL_SECONDS {
        found := Some(cache.value.overrides);
        ghost var f := fetches[|fetches| - 1];
        assert f in fetches;
      }
    }

    /** The second locked block, stamped with the moment of storing. */
    method Keep(overrides: Overrides, ghost rows: seq<Row>, ghost begun: int, ghost read: int)
      requires Valid() && begun <= read <= clock && InForce(log, rows, read) && overrides == OverridesOf(rows)
      modifies this`cache, this`fetches
      ensures Valid() && cache == Some(Entry(overrides, clock))
      ensures fetches == old(fetches) + [Fetch(rows, begun, read, clock)]
    {
      cache := Some(Entry(overrides, clock));
      fetches := fetches + [Fetch(rows, begun, read, clock)];
    }

    /** Another caller begins a fetch, has the rows read, or stores what it read. */
    method OtherBegins(id: nat)
      requires Valid() && id !in others
      modifies this`others
      ensures Valid() && others == old(others)[id := Begun(clock)]
    {
      others := others[id := Begun(clock)];
    }

    method OtherReads(id: nat)
      requires Valid() && id in others && others[id].Begun?
      modifies this`others
      ensures Valid() && others == old(others)[id := Read(old(others)[id].begun, clock, log[|log| - 1].value)]
    {
      LastIsInForce(log, clock);
      others := others[id := Read(others[id].begun, clock, log[|log| - 1].value)];
    }

    method OtherStores(id: nat)
      requires Valid() && id in others && others[id].Read?
      modifies this`others, this`cache, this`fetches
      ensures Valid() && others == old(others) - {id} && cache.Some? && cache.value.stored == clock
      ensures var c := old(others)[id]; fetches == old(fetches) + [Fetch(c.rows, c.begun, c.read, clock)]
    {
      var c := others[id];
      assert IsUnderWay(log, c, clock);
      var overrides := FetchRules(c.rows);
      others := others - {id};
      Keep(overrides, c.rows, c.begun, c.read);
    }

    /** Any one step of another caller or of the tenant. */
    method Other()
      requires Valid()
      modifies this
      ensures Valid() && GoesOn()
    {
      var step: int, n: nat, rows: seq<Row> := *, *, *;
      if step == 0 {
        Tick(n);
      } else if step == 1 {
        Write(rows);
      } else if n !in others {
        OtherBegins(n);
      } else if others[n].Begun? {
        OtherReads(n);
      } else {
        OtherStores(n);
      }
    }

    /** Whatever other callers and the tenant do meanwhile. */
    method Others()
      requires Valid()
      modifies this
      ensures Valid() && GoesOn()
    {
      var steps: int := *;
      while steps > 0
        invariant Valid() && GoesOn()
      {
        Other();
        steps := steps - 1;
      }
    }

    /** What a caller does when the cache has nothing for it: a fetch of its own, unless the lookup fails. */
    method Renew(fails: bool) returns (overrides: Overrides, failed: bool)
      requires Valid()
      modifies this
      ensures Valid() && GoesOn()
      ensures failed ==> fails && overrides == map[]
      ensures !failed ==> |fetches| > |old(fetches)| && IsLast(overrides, old(clock))
    {
      ghost var begun := clock;
      Others();
      if fails { return map[], true; }
      LastIsInForce(log, clock);
      overrides := FetchRules(log[|log| - 1].value);
      ghost var read, rows := clock, log[|log| - 1].value;
      Others();
      Keep(overrides, rows, begun, read);
      failed := false;
    }

    /** The overrides are those of the last fetch, which began at `since` or later. */
    ghost predicate IsLast(overrides: Overrides, since: int)
      reads this`fetches
    {
      fetches != [] && overrides == OverridesOf(fetches[|fetches| - 1].rows) && fetches[|fetches| - 1].begun >= since
    }

    /** There is an entry that is not yet 30 seconds old. */
    predicate IsFresh()
      reads this`cache, this`clock
    {
      cache.Some? && clock - cache.value.stored < CACHE_TTL_SECONDS
    }

    /** _get_overrides: those of a fetch that was stored less than 30 seconds before the call, or in it, and what the
        call itself records it fetched, from beginning to end; none after a failed lookup, which is not kept. With a
        fresh entry no lookup is needed, and so none can fail. */
    method GetOverrides(fails: bool) returns (overrides: Overrides, failed: bool)
      requires Valid()
      modifies this
      ensures Valid() && GoesOn()
      ensures failed ==> fails && overrides == map[] && !old(IsFresh())
      ensures !failed ==> IsRecent(overrides, old(clock))
    {
      var now := clock;
      Others();
      var found := Look(now);
      if found.Some? { return found.value, false; }
      overrides, failed := Renew(fails);
      if !failed { assert fetches[|fetches| - 1] in fetches && IsFetch(log, fetches[|fetches| - 1]); }
    }

    /** resolve_rule: the answer of the rows as some fetch saw them that was stored less than 30 seconds before the
        call, so that they were in force less than 30 seconds and that fetch's own time before it; or the shipped
        default after a failure; always well-formed. */
    method ResolveRule(key: Key, fails: bool) returns (answer: Option<AlertRule>)
      requires Valid()
      modifies this
      ensures Valid() && GoesOn()
      ensures (fails && !old(IsFresh()) && answer == DefaultRule(key.0, key.1))
           || exists f ::
                && f in fetches && IsFetch(log, f) && f.stored <= clock
                && old(clock) - f.stored < 30
                && old(clock) - f.read < 30 + (f.stored - f.begun)
                && answer == Resolve(OverridesOf(f.rows), key)
      ensures answer.Some? ==> WellFormed(answer.value)
    {
      var overrides, failed := GetOverrides(fails);
      answer := if key in overrides then overrides[key] else DefaultRule(key.0, key.1);
      if !failed {
        ghost var f :| f in fetches && overrides == OverridesOf(f.rows) && old(clock) - f.stored < CACHE_TTL_SECONDS;
        AnswersAreWellFormed(f.rows, key);
      }
    }
  }
}
