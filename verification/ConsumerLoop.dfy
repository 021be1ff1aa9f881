/** The worker's own code: claim_stale_messages and one pass of run_consumer_loop, over a group that changes in place.

    ConsumerProtocol interleaves the commands of many workers; here one pass
    runs undisturbed, and is shown to take exactly the protocol's steps. */
module ConsumerLoop {
  import opened StreamGroup
  import opened ConsumerProtocol

  class RedisGroup {
    var added: nat
    var next: nat
    var pending: map<Id, Entry>

    constructor ()
      ensures View() == INIT.group
    {
      added, next, pending := 0, 0, map[];
    }

    ghost function View(): Group
      reads this
    {
      Group(added, next, pending)
    }

    method Pending(limit: nat) returns (ids: seq<Id>)
      ensures ids == XPending(View(), limit)
    {
      ids := FirstIds(pending.Keys, 0, next, limit);
    }

    method Ack(ids: set<Id>)
      modifies this`pending
      ensures View() == XAck(old(View()), ids)
    {
      pending := pending - ids;
    }

    method Claim(s: Session, minIdle: int, ids: seq<Id>, now: int)
      modifies this`pending
      ensures View() == XClaim(old(View()), s, minIdle, ids, now)
    {
      pending := map id | id in pending ::
        if id in ids && now - pending[id].last >= minIdle then Entry(s, pending[id].count + 1, now) else pending[id];
    }

    method ReadHistory(s: Session, limit: nat, now: int) returns (ids: seq<Id>)
      modifies this`pending
      ensures ids == HistoryIds(old(View()), s, limit)
      ensures View() == XReadHistory(old(View()), s, limit, now)
    {
      var g := Group(added, next, pending);
      ids := HistoryIds(g, s, limit);
      pending := XReadHistory(g, s, limit, now).pending;
    }

    method ReadNew(s: Session, now: int) returns (ids: seq<Id>)
      modifies this
      ensures ids == if old(next) < old(added) then [old(next)] else []
      ensures View() == XReadNew(old(View()), s, now)
    {
      ids := [];
      if next < added {
        ids := [next];
        pending := pending[next := Entry(s, 1, now)];
        next := next + 1;
      }
    }
  }

  lemma ClaimOfNothing(g: Group, s: Session, minIdle: int, now: int)
    ensures XClaim(g, s, minIdle, [], now) == g
  {
  }

  lemma OneMoreSorted(g: Group, ids: seq<Id>, i: nat, now: int)
    requires i < |ids| && forall id :: id in ids ==> id in g.pending
    ensures StaleIds(g, ids[..i + 1], now)
         == StaleIds(g, ids[..i], now) + if IsStale(g.pending[ids[i]], now) then [ids[i]] else []
    ensures DeadIds(g, ids[..i + 1], now)
         == DeadIds(g, ids[..i], now) + if IsDead(g.pending[ids[i]], now) then [ids[i]] else []
  {
    assert ids[..i + 1][..i] == ids[..i];
  }

  /** The loop of claim_stale_messages over what its scan listed. */
  method SortStale(r: RedisGroup, pending: seq<Id>, now: int) returns (staleIds: seq<Id>, deadIds: seq<Id>)
    requires forall id :: id in pending ==> id in r.pending
    ensures staleIds == StaleIds(r.View(), pending, now) && deadIds == DeadIds(r.View(), pending, now)
  {
    staleIds, deadIds := [], [];
    for i := 0 to |pending|
      invariant staleIds == StaleIds(r.View(), pending[..i], now)
      invariant deadIds == DeadIds(r.View(), pending[..i], now)
    {
      var p := r.pending[pending[i]];
      OneMoreSorted(r.View(), pending, i, now);
      if now - p.last > IDLE_CLAIM_MS {
        if p.count >= MAX_DELIVERY_ATTEMPTS {
          deadIds := deadIds + [pending[i]];
        } else {
          staleIds := staleIds + [pending[i]];
        }
      }
    }
    assert pending[..|pending|] == pending;
  }

  /** claim_stale_messages: scan, discard the spent, take over the idle. */
  method ClaimStaleMessages(r: RedisGroup, s: Session, now: int)
    modifies r
    ensures r.View() ==
            var g := old(r.View());
            var ids := XPending(g, SCAN_LIMIT);
            XClaim(XAck(g, Gone(g, DeadIds(g, ids, now))), s, IDLE_CLAIM_MS, StaleIds(g, ids, now), now)
  {
    ghost var g := r.View();
    var pending := r.Pending(SCAN_LIMIT);
    var staleIds, deadIds := SortStale(r, pending, now);
    AckOfListed(g, deadIds);
    if deadIds != [] {
      r.Ack(set id | id in deadIds);
    }
    if staleIds != [] {
      r.Claim(s, IDLE_CLAIM_MS, staleIds, now);
    } else {
      ClaimOfNothing(XAck(g, Gone(g, deadIds)), s, IDLE_CLAIM_MS, now);
    }
  }

  lemma AckOfListed(g: Group, ids: seq<Id>)
    ensures XAck(g, set id | id in ids) == XAck(g, Gone(g, ids))
    ensures ids == [] ==> XAck(g, Gone(g, ids)) == g
  {
  }

  /** The protocol's steps of one undisturbed pass of session `s`, up to the message it starts, if any. */
  ghost function Taken(st: State, s: Session): State
    requires s in st.workers && st.workers[s].phase.Top?
  {
    var read := ReadingHistory(TakingOver(DeadLettering(Scanning(st, s), s), s), s);
    if read.workers[s].phase.Reading? then ReadingNew(read, s) else read
  }

  /** The commands of such a pass, all at time t: the fifth only when no entry of its own is left to try. */
  ghost function TakingSteps(st: State, s: Session, t: int): seq<Event>
    requires Enabled(st, Event(Scan(s), t))
  {
    var first := [Event(Scan(s), t), Event(DeadLetter(s), t), Event(Claim(s), t), Event(History(s), t)];
    if AfterClaim(st, s, t) == [] then first + [Event(New(s), t)] else first
  }

  /** What the session may still try, once it has claimed. */
  ghost function AfterClaim(st: State, s: Session, t: int): seq<Id>
    requires Enabled(st, Event(Scan(s), t))
  {
    var scanned := Apply(st, Event(Scan(s), t));
    var cleared := Apply(scanned, Event(DeadLetter(s), t));
    Retriable(Apply(cleared, Event(Claim(s), t)).group, s, st.workers[s].failed)
  }

  lemma LeadsFirst(st: State, e: Event, es: seq<Event>, st': State)
    requires Enabled(st, e) && Leads(Apply(st, e), es, st')
    ensures Leads(st, [e] + es, st')
  {
    assert ([e] + es)[1..] == es;
  }

  lemma FourSteps(st0: State, st1: State, st2: State, st3: State, st4: State, a: Event, b: Event, c: Event, d: Event,
                  more: seq<Event>, st': State)
    requires Enabled(st0, a) && st1 == Apply(st0, a) && Enabled(st1, b) && st2 == Apply(st1, b)
    requires Enabled(st2, c) && st3 == Apply(st2, c) && Enabled(st3, d) && st4 == Apply(st3, d)
    requires Leads(st4, more, st')
    ensures Leads(st0, [a, b, c, d] + more, st')
  {
    LeadsFirst(st3, d, more, st');
    LeadsFirst(st2, c, [d] + more, st');
    LeadsFirst(st1, b, [c] + ([d] + more), st');
    LeadsFirst(st0, a, [b] + ([c] + ([d] + more)), st');
    assert [a] + ([b] + ([c] + ([d] + more))) == [a, b, c, d] + more;
  }

  lemma UpToTheClaim(st: State, s: Session) returns (st1: State, st2: State, st3: State)
    requires s in st.workers && st.workers[s].phase.Top?
    ensures var t := st.clock;
            && Enabled(st, Event(Scan(s), t)) && st1 == Apply(st, Event(Scan(s), t))
            && Enabled(st1, Event(DeadLetter(s), t)) && st2 == Apply(st1, Event(DeadLetter(s), t))
            && Enabled(st2, Event(Claim(s), t)) && st3 == Apply(st2, Event(Claim(s), t))
            && Enabled(st3, Event(History(s), t))
    ensures st3 == TakingOver(DeadLettering(Scanning(st, s), s), s) && st3.workers[s].failed == st.workers[s].failed
    ensures st3.clock == st.clock
  {
    var t := st.clock;
    st1 := Apply(st, Event(Scan(s), t));
    st2 := Apply(st1, Event(DeadLetter(s), t));
    st3 := Apply(st2, Event(Claim(s), t));
  }

  lemma FromTheHistory(st: State, s: Session) returns (st': State, more: seq<Event>)
    requires s in st.workers && st.workers[s].phase.Draining?
    ensures var read := Apply(st, Event(History(s), st.clock));
            && more == (if Retriable(st.group, s, st.workers[s].failed) == [] then [Event(New(s), st.clock)] else [])
            && Leads(read, more, st')
    ensures var read := ReadingHistory(st, s);
            st' == if read.workers[s].phase.Reading? then ReadingNew(read, s) else read
  {
    var read := Apply(st, Event(History(s), st.clock));
    if Retriable(st.group, s, st.workers[s].failed) == [] {
      more := [Event(New(s), st.clock)];
      st' := Apply(read, more[0]);
      OneStep(read, more[0]);
    } else {
      more, st' := [], read;
    }
  }

  /** So it takes exactly those commands of the protocol, in that order. */
  lemma TakenIsSteps(st: State, s: Session)
    requires s in st.workers && st.workers[s].phase.Top?
    ensures Leads(st, TakingSteps(st, s, st.clock), Taken(st, s))
  {
    var t := st.clock;
    var st1, st2, st3 := UpToTheClaim(st, s);
    var st', more := FromTheHistory(st3, s);
    var read := Event(History(s), t);
    FourSteps(st, st1, st2, st3, Apply(st3, read), Event(Scan(s), t), Event(DeadLetter(s), t), Event(Claim(s), t), read,
              more, st');
    assert [Event(Scan(s), t), Event(DeadLetter(s), t), Event(Claim(s), t), read] + more == TakingSteps(st, s, t);
  }

  lemma OneStep(st: State, e: Event)
    requires Enabled(st, e)
    ensures Leads(st, [e], Apply(st, e))
  {
    assert [e][1..] == [];
  }

  lemma {:induction false} LeadsOn(st: State, es: seq<Event>, st': State, more: seq<Event>, st'': State)
    requires Leads(st, es, st') && Leads(st', more, st'')
    ensures Leads(st, es + more, st'')
    decreases |es|
  {
    if es == [] {
      assert es + more == more;
    } else {
      LeadsOn(Apply(st, es[0]), es[1..], st', more, st'');
      assert (es + more)[1..] == es[1..] + more;
    }
  }

  /** The commands that follow when a message was started: process_fn returns, or not, and is acknowledged if it did. */
  ghost function EndingSteps(taken: State, s: Session, ok: bool): seq<Event>
    requires s in taken.workers
  {
    var t := taken.clock;
    if !taken.workers[s].phase.Busy? then []
    else if ok then [Event(Return(s, true), t), Event(Ack(s), t)] else [Event(Return(s, false), t)]
  }

  /** A whole pass is a run of the protocol, in which nobody else takes a step. */
  lemma PassedIsSteps(st: State, s: Session, ok: bool)
    requires s in st.workers && st.workers[s].phase.Top?
    ensures s in Taken(st, s).workers
    ensures Leads(st, TakingSteps(st, s, st.clock) + EndingSteps(Taken(st, s), s, ok), Passed(st, s, ok))
  {
    TakenIsSteps(st, s);
    LeadsOn(st, TakingSteps(st, s, st.clock), Taken(st, s), EndingSteps(Taken(st, s), s, ok), Passed(st, s, ok))
      by { EndingIsSteps(Taken(st, s), s, ok); }
  }

  lemma EndingIsSteps(taken: State, s: Session, ok: bool)
    requires s in taken.workers
    ensures Leads(taken, EndingSteps(taken, s, ok),
                  if !taken.workers[s].phase.Busy? then taken
                  else if ok then Acknowledging(Returning(taken, s, true), s) else Returning(taken, s, false))
  {
    if taken.workers[s].phase.Busy? {
      var back, ack := Event(Return(s, ok), taken.clock), Event(Ack(s), taken.clock);
      if ok { assert [back, ack][1..] == [ack]; OneStep(Apply(taken, back), ack); } else { OneStep(taken, back); }
    }
  }

  ghost function Passed(st: State, s: Session, ok: bool): State
    requires s in st.workers && st.workers[s].phase.Top?
  {
    var taken := Taken(st, s);
    if taken.workers[s].phase.Busy? then
      var returned := Returning(taken, s, ok);
      if ok then Acknowledging(returned, s) else returned
    else taken
  }

  class Consumer {
    const name: Session
    var failedThisSession: set<Id>

    constructor (name: Session)
      ensures this.name == name && failedThisSession == {}
    {
      this.name := name;
      failedThisSession := {};
    }

    /** A pass as far as the message it starts: its own unsettled entries first, then a new one. */
    method TakeNext(r: RedisGroup, now: int, ghost st: State) returns (started: seq<Id>)
      requires st.group == r.View() && st.clock == now
      requires name in st.workers && st.workers[name] == Worker(Top, failedThisSession)
      modifies r
      ensures r.View() == Taken(st, name).group && |started| <= 1
      ensures Taken(st, name).starts == st.starts + multiset(started)
      ensures Taken(st, name).workers[name] ==
              Worker(if started == [] then Top else Busy(started[0]), failedThisSession)
    {
      ClaimStaleMessages(r, name, now);
      ghost var claimed := TakingOver(DeadLettering(Scanning(st, name), name), name);
      assert r.View() == claimed.group;
      started := Fetch(r, now, claimed);
    }

    method Fetch(r: RedisGroup, now: int, ghost st: State) returns (started: seq<Id>)
      requires st.group == r.View() && st.clock == now
      requires name in st.workers && st.workers[name] == Worker(Draining, failedThisSession)
      modifies r
      ensures var read := ReadingHistory(st, name);
              var end := if read.workers[name].phase.Reading? then ReadingNew(read, name) else read;
              && r.View() == end.group && |started| <= 1
              && end.starts == st.starts + multiset(started)
              && end.workers[name] == Worker(if started == [] then Top else Busy(started[0]), failedThisSession)
    {
      var pel := r.ReadHistory(name, HISTORY_LIMIT, now);
      var toProcess := Without(pel, failedThisSession);
      if toProcess != [] {
        started := toProcess[..1];
      } else {
        started := r.ReadNew(name, now);
      }
    }

    /** One pass of run_consumer_loop; `ok` is whether process_fn returns for the message that is started. */
    method Pass(r: RedisGroup, now: int, ok: bool, ghost st: State) returns (started: seq<Id>)
      requires st.group == r.View() && st.clock == now
      requires name in st.workers && st.workers[name] == Worker(Top, failedThisSession)
      modifies r, this`failedThisSession
      ensures r.View() == Passed(st, name, ok).group
      ensures Passed(st, name, ok).workers[name] == Worker(Top, failedThisSession)
      ensures |started| <= 1 && Taken(st, name).starts == st.starts + multiset(started)
    {
      started := TakeNext(r, now, st);
      if started != [] {
        var id := started[0];
        if !ok {
          failedThisSession := failedThisSession + {id};
        } else {
          failedThisSession := failedThisSession - {id};
          r.Ack({id});
        }
      }
    }
  }
}
