/** A tenant's setting, read through a cache that any number of callers share while the row in the database changes.

    A caller holds the lock only while it looks into the cache and while it stores; between these and around its query
    any other caller may take any of its own steps. */
module SettingsCache {
  import opened TimedLog
  import opened Wrappers

  const CACHE_TTL_SECONDS := 30

  type Value = int

  /** A value and the moment the call that read it had begun. */
  datatype Entry = Entry(value: Value, stamp: int)

  /** The row, or else the fallback registered for the key, or else the caller's default; None is the KeyError. */
  function Resolve(row: Option<Value>, registered: Option<Value>, given: Option<Value>): Option<Value> {
    if row.Some? then row else if registered.Some? then registered else given
  }

  /** The default a caller gave plays no part exactly when there is a row or a registered fallback. */
  lemma DefaultsMatterWithoutRowAndFallback(row: Option<Value>, registered: Option<Value>)
    ensures (forall a, b :: Resolve(row, registered, a) == Resolve(row, registered, b))
       <==> row.Some? || registered.Some?
  {
    if row.None? && registered.None? {
      assert Resolve(row, registered, None) != Resolve(row, registered, Some(0));
    }
  }

  /** A call whose value was stored: when it began, what default it gave, and the row it found in force at `read`. */
  datatype Fetch = Fetch(begun: int, given: Option<Value>, row: Option<Value>, read: int)

  /** How far another call has come. */
  datatype Call = Begun(begun: int, given: Option<Value>)
                | Read(begun: int, given: Option<Value>, row: Option<Value>, read: int)

  type Rows = seq<Change<Option<Value>>>

  ghost predicate IsFetch(log: Rows, f: Fetch, clock: int) {
    f.begun <= f.read <= clock && InForce(log, f.row, f.read)
  }

  ghost predicate AreFetches(log: Rows, fetches: seq<Fetch>, clock: int) {
    forall f :: f in fetches ==> IsFetch(log, f, clock)
  }

  ghost predicate IsUnderWay(log: Rows, c: Call, clock: int) {
    if c.Begun? then c.begun <= clock else c.begun <= c.read <= clock && InForce(log, c.row, c.read)
  }

  ghost predicate AreUnderWay(log: Rows, calls: map<nat, Call>, clock: int) {
    forall id :: id in calls ==> IsUnderWay(log, calls[id], clock)
  }

  lemma FetchesStay(log: Rows, c: Change<Option<Value>>, fetches: seq<Fetch>)
    requires AreFetches(log, fetches, c.at)
    ensures AreFetches(log + [c], fetches, c.at)
  {
    forall f | f in fetches
      ensures IsFetch(log + [c], f, c.at)
    {
      InForceStays(log, c, f.row, f.read);
    }
  }

  lemma CallsStay(log: Rows, c: Change<Option<Value>>, calls: map<nat, Call>)
    requires AreUnderWay(log, calls, c.at)
    ensures AreUnderWay(log + [c], calls, c.at)
  {
    forall id | id in calls
      ensures IsUnderWay(log + [c], calls[id], c.at)
    {
      assert IsUnderWay(log, calls[id], c.at);
      if calls[id].Read? { InForceStays(log, c, calls[id].row, calls[id].read); }
    }
  }

  /** One tenant and key: the row's history, the clock, what the cache holds, and the other callers' calls. */
  class Setting {
    const registered: Option<Value>
    var clock: int
    var log: Rows
    var cache: Option<Entry>
    var others: map<nat, Call>
    /** Every call that has stored a value, in order. */
    ghost var fetches: seq<Fetch>

    ghost predicate Valid()
      reads this
    {
      && log != [] && log[|log| - 1].at <= clock
      && AreFetches(log, fetches, clock) && AreUnderWay(log, others, clock)
      && (cache.Some? ==> fetches != [] && IsEntryOf(cache.value, fetches[|fetches| - 1]))
    }

    /** The entry is what this call resolved, under its stamp. */
    ghost predicate IsEntryOf(e: Entry, f: Fetch)
      reads this
    {
      Resolve(f.row, registered, f.given) == Some(e.value) && e.stamp == f.begun
    }

    /** The value is what a call resolved that began less than 30 seconds before `now`, or later. */
    ghost predicate IsRecent(value: Value, now: int)
      reads this
    {
      exists f :: f in fetches && now - f.begun < CACHE_TTL_SECONDS
                  && Resolve(f.row, registered, f.given) == Some(value)
    }

    /** The entry is not yet 30 seconds old, and no call under way would replace it with one that is. */
    ghost predicate IsFresh(now: int)
      reads this`cache, this`others
    {
      && cache.Some? && now - cache.value.stamp < CACHE_TTL_SECONDS
      && forall id :: id in others ==> now - others[id].begun < CACHE_TTL_SECONDS
    }

    /** What the others may do to what a caller relies on: time goes on, and the record of the past only grows. */
    twostate predicate GoesOn()
      reads this
    {
      && old(clock) <= clock && old(fetches) <= fetches
      && forall row, t :: InForce(old(log), row, t) && t <= old(clock) ==> InForce(log, row, t)
    }

    constructor (row: Option<Value>, registered: Option<Value>)
      ensures Valid() && cache == None && this.registered == registered && fetches == [] && clock == 0
      ensures log == [Change(0, row)]
    {
      this.registered := registered;
      clock, log, cache, others, fetches := 0, [Change(0, row)], None, map[], [];
    }

    method Tick(seconds: nat)
      requires Valid()
      modifies this`clock
      ensures Valid() && clock == old(clock) + seconds
    {
      clock := clock + seconds;
    }

    /** The row is inserted, updated or deleted. */
    method Write(row: Option<Value>)
      requires Valid()
      modifies this`log
      ensures Valid() && log == old(log) + [Change(clock, row)]
      ensures forall r, t :: InForce(old(log), r, t) && t <= clock ==> InForce(log, r, t)
    {
      ghost var c := Change(clock, row);
      FetchesStay(log, c, fetches);
      CallsStay(log, c, others);
      forall r, t | InForce(log, r, t) && t <= clock
        ensures InForce(log + [c], r, t)
      {
        InForceStays(log, c, r, t);
      }
      log := log + [Change(clock, row)];
    }

    /** The first locked block. */
    method Look(now: int) returns (found: Option<Value>)
      requires Valid()
      ensures found == if cache.Some? && now - cache.value.stamp < CACHE_TTL_SECONDS then Some(cache.value.value)
                       else None
      ensures found.Some? ==> IsRecent(found.value, now)
    {
      found := if cache.Some? && now - cache.value.stamp < CACHE_TTL_SECONDS then Some(cache.value.value) else None;
      if found.Some? { assert fetches[|fetches| - 1] in fetches; }
    }

    /** The query, and the fallback when there is no row. */
    method Query(given: Option<Value>) returns (value: Option<Value>)
      requires Valid()
      ensures InForce(log, log[|log| - 1].value, clock)
      ensures value == Resolve(log[|log| - 1].value, registered, given)
    {
      LastIsInForce(log, clock);
      value := Resolve(log[|log| - 1].value, registered, given);
    }

    /** The second locked block, stamped with the moment the call began. */
    method Keep(value: Value, begun: int, ghost given: Option<Value>, ghost row: Option<Value>, ghost read: int)
      requires Valid() && begun <= read <= clock && InForce(log, row, read)
      requires Resolve(row, registered, given) == Some(value)
      modifies this`cache, this`fetches
      ensures Valid() && cache == Some(Entry(value, begun))
      ensures fetches == old(fetches) + [Fetch(begun, given, row, read)]
    {
      cache := Some(Entry(value, begun));
      fetches := fetches + [Fetch(begun, given, row, read)];
    }

    /** Another call begins, has the row read, or stores the value. */
    method OtherBegins(id: nat, given: Option<Value>)
      requires Valid() && id !in others
      modifies this`others
      ensures Valid() && others == old(others)[id := Begun(clock, given)]
    {
      others := others[id := Begun(clock, given)];
    }

    method OtherReads(id: nat)
      requires Valid() && id in others && others[id].Begun?
      modifies this`others
      ensures Valid() && others.Keys == old(others).Keys && others[id].begun == old(others)[id].begun
      ensures forall j :: j in others && j != id ==> others[j] == old(others)[j]
    {
      LastIsInForce(log, clock);
      others := others[id := Read(others[id].begun, others[id].given, log[|log| - 1].value, clock)];
    }

    method OtherStores(id: nat)
      requires Valid() && id in others && others[id].Read?
      modifies this`others, this`cache, this`fetches
      ensures Valid() && old(fetches) <= fetches
      ensures others == old(others) - {id}
      ensures cache == old(cache) || (cache.Some? && cache.value.stamp == old(others)[id].begun)
    {
      var c := others[id];
      assert IsUnderWay(log, c, clock);
      var value := Resolve(c.row, registered, c.given);
      others := others - {id};
      if value.Some? { Keep(value.value, c.begun, c.given, c.row, c.read); }
    }

    /** Any one step of another caller or of the administrator. */
    method Other()
      requires Valid()
      modifies this
      ensures Valid() && GoesOn()
      ensures forall now :: now <= old(clock) && old(IsFresh(now)) ==> IsFresh(now)
    {
      var step: int, n: nat, value: Option<Value> := *, *, *;
      if step == 0 {
        Tick(n);
      } else if step == 1 {
        Write(value);
      } else if n !in others {
        OtherBegins(n, value);
      } else if others[n].Begun? {
        OtherReads(n);
      } else {
        OtherStores(n);
      }
    }

    /** Whatever other callers and the administrator do meanwhile. */
    method Others()
      requires Valid()
      modifies this
      ensures Valid() && GoesOn()
      ensures forall now :: now <= old(clock) && old(IsFresh(now)) ==> IsFresh(now)
    {
      var steps: int := *;
      while steps > 0
        invariant Valid() && GoesOn()
        invariant forall now :: now <= old(clock) && old(IsFresh(now)) ==> IsFresh(now)
      {
        Other();
        steps := steps - 1;
      }
    }

    /** get_tenant_setting: the answer is what some call resolved from the row in force, its own default where there was
        neither row nor fallback; it began, and so read, less than 30 seconds before this one, or it is this one. A
        KeyError means that there was no row during the call, no fallback and no default, and no entry that is sure to
        answer. */
    method Get(given: Option<Value>) returns (answer: Option<Value>)
      requires Valid()
      modifies this
      ensures Valid() && clock >= old(clock) && old(fetches) <= fetches
      ensures answer.Some? ==>
                exists f :: f in fetches && IsFetch(log, f, clock) && old(clock) - f.begun < 30
                            && answer == match f.row
                                         case Some(value) => Some(value)
                                         case None => if registered != None then registered else f.given
      ensures answer.None? ==>
                given.None? && registered.None? && !old(IsFresh(clock))
                && exists t :: old(clock) <= t <= clock && InForce(log, None, t)
    {
      var now := clock;
      Others();
      answer := Look(now);
      if answer.Some? { return; }
      Others();
      answer := Query(given);
      if answer.None? { return; }
      ghost var read, row := clock, log[|log| - 1].value;
      Others();
      Keep(answer.value, now, given, row, read);
      assert fetches[|fetches| - 1] in fetches;
    }
  }

  /** For a key with no fallback and no row the default of one caller answers the next, who gave none and would have had
      a KeyError. */
  method DefaultOfAnotherCaller(given: Value)
    returns (first: Option<Value>, second: Option<Value>, alone: Option<Value>)
    ensures first == second == Some(given) && alone == None
  {
    var s := new Setting(None, None);
    alone := s.Query(None);
    first := s.Query(Some(given));
    s.Keep(given, 0, Some(given), None, 0);
    second := s.Look(0);
  }
}
