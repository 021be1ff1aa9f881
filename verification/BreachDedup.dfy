/** Breach de-duplication: one Redis key a zone, set for the cooldown by the first detection, pushed on by the rest. */
module BreachDedup {
  import opened Wrappers

  const DEFAULT_COOLDOWN_SECONDS := 60

  /** The value is the episode's first detection; the key goes once the server's clock has passed `until`. */
  datatype Held = Held(start: int, until: int)

  predicate Live(k: Option<Held>, now: int) { k.Some? && now <= k.value.until }

  // ---------------------------------------------------------------- calls one after the other

  /** A call that ran at one moment of the server's clock. */
  datatype Call = Call(at: int, detected: int, cooldown: int)

  function Expiry(c: Call): int { c.at + c.cooldown }

  /** The calls came in the order of the server's clock, each with a cooldown Redis accepts. */
  ghost predicate InOrder(h: seq<Call>) {
    && (forall i :: 0 <= i < |h| ==> h[i].cooldown > 0)
    && (forall i, j :: 0 <= i < j < |h| ==> h[i].at <= h[j].at)
  }

  /** The key a call leaves. */
  function After(k: Option<Held>, c: Call): Option<Held> {
    Some(Held(if Live(k, c.at) then k.value.start else c.detected, Expiry(c)))
  }

  function KeyAfter(h: seq<Call>): Option<Held> {
    if h == [] then None else After(KeyAfter(h[..|h| - 1]), h[|h| - 1])
  }

  /** Whether call c, after the calls in h, is a new breach. */
  predicate IsNew(h: seq<Call>, c: Call) { !Live(KeyAfter(h), c.at) }

  ghost predicate Covers(c: Call, t: int) { c.at <= t <= Expiry(c) }

  ghost predicate IsCovered(h: seq<Call>, t: int) { exists i :: 0 <= i < |h| && Covers(h[i], t) }

  /** A call is new exactly when the cooldown of the call before it is over. */
  lemma NewIffLastIsOver(h: seq<Call>, c: Call)
    ensures IsNew(h, c) <==> h == [] || Expiry(h[|h| - 1]) < c.at
  {
  }

  /** No call's cooldown ends before that of an earlier one. */
  ghost predicate LastReachesFurthest(h: seq<Call>) {
    forall i :: 0 <= i < |h| ==> Expiry(h[i]) <= Expiry(h[|h| - 1])
  }

  ghost predicate AgreesAt(h: seq<Call>, t: int) {
    Live(KeyAfter(h), t) <==> IsCovered(h, t)
  }

  /** "New exactly when no earlier call's cooldown still covers it" holds for whatever call may come next if and only if
      the last call's cooldown reaches as far as every earlier one's: a shorter cooldown cuts the window short. */
  lemma CoveredIffNeverShortened(h: seq<Call>)
    requires InOrder(h) && h != []
    ensures (forall t {:trigger AgreesAt(h, t)} :: t >= h[|h| - 1].at ==> AgreesAt(h, t)) <==> LastReachesFurthest(h)
  {
    var last := h[|h| - 1];
    if LastReachesFurthest(h) {
      forall t | t >= last.at
        ensures AgreesAt(h, t)
      {
        if t <= Expiry(last) { assert Covers(h[|h| - 1], t); }
      }
    } else {
      var i :| 0 <= i < |h| && Expiry(h[i]) > Expiry(last);
      var t := Expiry(h[i]);
      assert Covers(h[i], t) && IsCovered(h, t);
      assert !AgreesAt(h, t);
    }
  }

  /** With one cooldown for all calls the promise holds as it stands. */
  lemma OneCooldownCovers(h: seq<Call>, c: Call, cooldown: int)
    requires InOrder(h + [c]) && forall i :: 0 <= i < |h| ==> h[i].cooldown == cooldown
    ensures IsNew(h, c) <==> !IsCovered(h, c.at)
  {
    if h != [] {
      assert forall i :: 0 <= i < |h| ==> (h + [c])[i] == h[i];
      assert (h + [c])[|h|] == c;
      assert InOrder(h) && LastReachesFurthest(h) && c.at >= h[|h| - 1].at;
      CoveredIffNeverShortened(h);
      assert AgreesAt(h, c.at);
    }
  }

  /** A zone with a shorter cooldown than before: the first call still covers second 30, but the key is gone. */
  lemma ShorterCooldownEndsTheEpisode()
    ensures var h := [Call(0, 0, 60), Call(1, 1, 5)]; InOrder(h) && IsNew(h, Call(30, 30, 60)) && IsCovered(h, 30)
  {
    var h := [Call(0, 0, 60), Call(1, 1, 5)];
    NewIffLastIsOver(h, Call(30, 30, 60));
    assert Covers(h[0], 30);
  }

  /** The call that began the episode the last call belongs to. */
  function EpisodeStart(h: seq<Call>): (i: nat)
    requires h != []
    ensures i < |h|
  {
    var p, c := h[..|h| - 1], h[|h| - 1];
    if IsNew(p, c) then |h| - 1 else EpisodeStart(p)
  }

  /** The key holds the first detection of the episode: dwell is measured from there. */
  lemma {:induction false} DwellFromEpisodeStart(h: seq<Call>)
    requires h != []
    ensures KeyAfter(h) == Some(Held(h[EpisodeStart(h)].detected, Expiry(h[|h| - 1])))
    ensures IsNew(h[..EpisodeStart(h)], h[EpisodeStart(h)])
    ensures forall i :: EpisodeStart(h) < i < |h| ==> !IsNew(h[..i], h[i])
  {
    var p, c := h[..|h| - 1], h[|h| - 1];
    if !IsNew(p, c) {
      DwellFromEpisodeStart(p);
      var s := EpisodeStart(p);
      assert p[..s] == h[..s];
      forall i | s < i < |h|
        ensures !IsNew(h[..i], h[i])
      {
        if i < |p| { assert p[..i] == h[..i]; } else { assert h[..i] == p; }
      }
    }
  }

  // ---------------------------------------------------------------- the code

  datatype Key = Key(tenant: nat, camera: nat, zone: nat)

  datatype Answer = Answer(isNew: bool, dwell: int) | InvalidExpireTime

  /** The Redis server: its clock moves on between any two commands. */
  class Redis {
    var clock: int
    var keys: map<Key, Held>

    function At(key: Key): Option<Held>
      reads this
    {
      if key in keys then Some(keys[key]) else None
    }

    method Tick()
      modifies this`clock
      ensures clock >= old(clock)
    {
      var passed: int := *;
      if passed > 0 { clock := clock + passed; }
    }

    /** SET key value NX EX ex. */
    method SetIfAbsent(key: Key, value: int, ex: int) returns (done: bool)
      modifies this
      ensures clock >= old(clock) && done == !Live(old(At(key)), clock)
      ensures keys == if done then old(keys)[key := Held(value, clock + ex)] else old(keys)
    {
      Tick();
      done := !Live(At(key), clock);
      if done { keys := keys[key := Held(value, clock + ex)]; }
    }

    method Get(key: Key) returns (value: Option<int>)
      modifies this`clock
      ensures clock >= old(clock)
      ensures value == if Live(At(key), clock) then Some(keys[key].start) else None
    {
      Tick();
      value := if Live(At(key), clock) then Some(keys[key].start) else None;
    }

    method Expire(key: Key, ex: int)
      modifies this
      ensures clock >= old(clock)
      ensures keys == if Live(old(At(key)), clock) then old(keys)[key := Held(old(keys)[key].start, clock + ex)]
                      else old(keys)
    {
      Tick();
      if Live(At(key), clock) { keys := keys[key := Held(keys[key].start, clock + ex)]; }
    }

    method Set(key: Key, value: int, ex: int)
      modifies this
      ensures clock >= old(clock) && keys == old(keys)[key := Held(value, clock + ex)]
    {
      Tick();
      keys := keys[key := Held(value, clock + ex)];
    }

    /** register. A key that has gone makes a new breach; one that lasts through the call gives the dwell from its
        episode's start and is pushed on; one that goes between the commands makes a new breach, or a last repeat. */
    method Register(key: Key, detected: int, cooldown: Option<int>) returns (a: Answer)
      modifies this
      ensures clock >= old(clock)
      ensures var ex := if cooldown.Some? then cooldown.value else DEFAULT_COOLDOWN_SECONDS;
              var was := old(At(key));
              if ex <= 0 then a.InvalidExpireTime? && keys == old(keys)
              else
                && a.Answer?
                && (forall k :: k != key ==> (k in keys <==> k in old(keys)) && (k in keys ==> keys[k] == old(keys)[k]))
                && key in keys
                && (a.isNew ==> a.dwell == 0 && keys[key].start == detected
                                && old(clock) + ex <= keys[key].until <= clock + ex)
                && (!a.isNew ==> Live(was, old(clock)) && a.dwell == detected - was.value.start
                                 && keys[key].start == was.value.start)
                && (!Live(was, old(clock)) ==> a.isNew)
                && (Live(was, clock) ==> !a.isNew && old(clock) + ex <= keys[key].until <= clock + ex)
                && (clock == old(clock) ==> At(key) == After(was, Call(clock, detected, ex)))
    {
      var ex := if cooldown.Some? then cooldown.value else DEFAULT_COOLDOWN_SECONDS;
      if ex <= 0 { return InvalidExpireTime; }
      var wasSet := SetIfAbsent(key, detected, ex);
      if wasSet { return Answer(true, 0); }
      var start := Get(key);
      Expire(key, ex);
      if start.None? {
        Set(key, detected, ex);
        return Answer(true, 0);
      }
      a := Answer(false, detected - start.value);
    }

  }

  // ---------------------------------------------------------------- replicas

  type Caller = nat

  /** How far a call has come: its SET NX failed; it has read the key. */
  datatype Pending = Missed(detected: int, cooldown: int) | Read(start: Option<int>, detected: int, cooldown: int)
                   | Blank(detected: int, cooldown: int)

  /** `starts` lists the first detections of the episodes so far, one each time the key came to be; `news` the episode
      each "new" was answered in. */
  datatype State = State(clock: int, key: Option<Held>, pending: map<Caller, Pending>, starts: seq<int>, news: seq<nat>)

  datatype Step =
    | Tick(seconds: nat)
    | TrySet(who: Caller, detected: int, cooldown: int)
    | GetKey(who: Caller)
    | Slide(who: Caller)
    | Overwrite(who: Caller)

  predicate Enabled(s: State, e: Step) {
    match e
    case Tick(_) => true
    case TrySet(who, _, cooldown) => who !in s.pending && cooldown > 0
    case GetKey(who) => who in s.pending && s.pending[who].Missed?
    case Slide(who) => who in s.pending && s.pending[who].Read?
    case Overwrite(who) => who in s.pending && s.pending[who].Blank?
  }

  function Tried(s: State, who: Caller, detected: int, cooldown: int): State {
    if Live(s.key, s.clock) then s.(pending := s.pending[who := Missed(detected, cooldown)])
    else s.(key := Some(Held(detected, s.clock + cooldown)), starts := s.starts + [detected],
            news := s.news + [|s.starts|])
  }

  function Got(s: State, who: Caller): State
    requires Enabled(s, GetKey(who))
  {
    var p := s.pending[who];
    var start := if Live(s.key, s.clock) then Some(s.key.value.start) else None;
    s.(pending := s.pending[who := Read(start, p.detected, p.cooldown)])
  }

  function Slid(s: State, who: Caller): State
    requires Enabled(s, Slide(who))
  {
    var p := s.pending[who];
    var key := if Live(s.key, s.clock) then Some(Held(s.key.value.start, s.clock + p.cooldown)) else s.key;
    var left := if p.start.Some? then s.pending - {who} else s.pending[who := Blank(p.detected, p.cooldown)];
    s.(key := key, pending := left)
  }

  function Overwritten(s: State, who: Caller): State
    requires Enabled(s, Overwrite(who))
  {
    var p := s.pending[who];
    var starts := if Live(s.key, s.clock) then s.starts else s.starts + [p.detected];
    s.(key := Some(Held(p.detected, s.clock + p.cooldown)), pending := s.pending - {who}, starts := starts,
       news := s.news + [if |starts| > 0 then |starts| - 1 else 0])
  }

  function Apply(s: State, e: Step): State
    requires Enabled(s, e)
  {
    match e
    case Tick(seconds) => s.(clock := s.clock + seconds)
    case TrySet(who, detected, cooldown) => Tried(s, who, detected, cooldown)
    case GetKey(who) => Got(s, who)
    case Slide(who) => Slid(s, who)
    case Overwrite(who) => Overwritten(s, who)
  }

  ghost predicate Runs(s: State, es: seq<Step>, s': State)
    decreases |es|
  {
    if es == [] then s == s' else Enabled(s, es[0]) && Runs(Apply(s, es[0]), es[1..], s')
  }

  lemma RunsTo(s: State, e: Step, es: seq<Step>, s': State)
    requires Enabled(s, e) && Runs(Apply(s, e), es, s')
    ensures Runs(s, [e] + es, s')
  {
    assert ([e] + es)[1..] == es;
  }

  /** A call that nobody disturbs is new, and sets the key, or is a repeat that keeps the start of the key there is; in
      both cases the key then lasts its own cooldown from now. */
  lemma CallAlone(s: State, who: Caller, detected: int, cooldown: int) returns (es: seq<Step>, s': State)
    requires who !in s.pending && cooldown > 0
    ensures Runs(s, es, s') && s'.clock == s.clock && s'.pending == s.pending
    ensures s'.key.Some? && s'.key.value.until == s.clock + cooldown
    ensures if s.key.Some? && s.clock <= s.key.value.until then
              s'.key.value.start == s.key.value.start && s'.news == s.news && s'.starts == s.starts
            else
              && s'.key.value.start == detected
              && s'.starts == s.starts + [detected] && s'.news == s.news + [|s.starts|]
  {
    var try, get, slide := TrySet(who, detected, cooldown), GetKey(who), Slide(who);
    var s1 := Apply(s, try);
    if Live(s.key, s.clock) {
      var s2 := Apply(s1, get);
      s' := Apply(s2, slide);
      assert s'.pending == s.pending;
      assert Runs(s', [], s');
      RunsTo(s2, slide, [], s');
      RunsTo(s1, get, [slide] + [], s');
      RunsTo(s, try, [get] + ([slide] + []), s');
      es := [try] + ([get] + ([slide] + []));
    } else {
      s' := s1;
      assert Runs(s', [], s');
      RunsTo(s, try, [], s');
      es := [try] + [];
    }
  }

  const INIT := State(0, None, map[], [], [])

  // ---------------------------------------------------------------- each episode is new once, exactly when

  predicate FindsLive(s: State, e: Step) { e.Overwrite? && Live(s.key, s.clock) }

  /** Somewhere in the run a call that had found the key gone sets it, and finds that another has set it meanwhile. */
  ghost predicate OverwritesLive(s: State, es: seq<Step>, s': State)
    requires Runs(s, es, s')
    decreases |es|
  {
    es != [] && (FindsLive(s, es[0]) || OverwritesLive(Apply(s, es[0]), es[1..], s'))
  }

  /** The answers "new" so far, one for each episode, in order. */
  ghost predicate OnceEach(s: State) {
    |s.news| == |s.starts| && forall i :: 0 <= i < |s.news| ==> s.news[i] == i
  }

  /** Some episode has been answered "new" twice. */
  ghost predicate Twice(s: State) {
    exists i, j :: 0 <= i < j < |s.news| && s.news[i] == s.news[j]
  }

  /** Every episode has been answered "new", and a key there is belongs to one. */
  ghost predicate AllAnswered(s: State) {
    && (forall n: nat :: n < |s.starts| ==> n in s.news)
    && (s.key.Some? ==> s.starts != [])
  }

  lemma StepKeepsAnswers(s: State, e: Step)
    requires Enabled(s, e) && AllAnswered(s)
    ensures AllAnswered(Apply(s, e))
    ensures s.news <= Apply(s, e).news
    ensures OnceEach(s) && !FindsLive(s, e) ==> OnceEach(Apply(s, e))
  {
    var t := Apply(s, e);
    forall n: nat | n < |t.starts|
      ensures n in t.news
    {
      if n < |s.starts| { assert n in s.news; } else { assert t.news[|s.news|] == n; }
    }
  }

  lemma LiveOverwriteRepeats(s: State, e: Step)
    requires Enabled(s, e) && AllAnswered(s) && FindsLive(s, e)
    ensures Twice(Apply(s, e))
  {
    var last: nat := |s.starts| - 1;
    assert last in s.news;
    var i :| 0 <= i < |s.news| && s.news[i] == last;
    var news := Apply(s, e).news;
    assert news[i] == news[|s.news|] == last;
  }

  lemma TwiceStays(s: State, t: State)
    requires Twice(s) && s.news <= t.news
    ensures Twice(t)
  {
    var i, j :| 0 <= i < j < |s.news| && s.news[i] == s.news[j];
    assert t.news[i] == t.news[j];
  }

  lemma OnceIsNotTwice(s: State)
    ensures OnceEach(s) ==> !Twice(s)
  {
  }

  lemma {:induction false} RunKeepsTwice(s: State, es: seq<Step>, s': State)
    requires Runs(s, es, s') && AllAnswered(s) && Twice(s)
    ensures Twice(s')
    decreases |es|
  {
    if es != [] {
      StepKeepsAnswers(s, es[0]);
      TwiceStays(s, Apply(s, es[0]));
      RunKeepsTwice(Apply(s, es[0]), es[1..], s');
    }
  }

  lemma {:induction false} RunAnswers(s: State, es: seq<Step>, s': State)
    requires Runs(s, es, s') && AllAnswered(s) && OnceEach(s)
    ensures if OverwritesLive(s, es, s') then Twice(s') else OnceEach(s')
    decreases |es|
  {
    if es != [] {
      StepKeepsAnswers(s, es[0]);
      if FindsLive(s, es[0]) {
        LiveOverwriteRepeats(s, es[0]);
        RunKeepsTwice(Apply(s, es[0]), es[1..], s');
      } else {
        RunAnswers(Apply(s, es[0]), es[1..], s');
      }
    }
  }

  /** However the commands of any number of replicas interleave, and whenever the key goes: each episode is answered
      "new" exactly once, in order, if and only if no call sets the key over one that another has set meanwhile. */
  lemma NewOnceIffNoLiveOverwrite(es: seq<Step>, s: State)
    requires Runs(INIT, es, s)
    ensures OnceEach(s) <==> !OverwritesLive(INIT, es, s)
    ensures OverwritesLive(INIT, es, s) ==> Twice(s)
  {
    RunAnswers(INIT, es, s);
    OnceIsNotTwice(s);
  }

  // ---------------------------------------------------------------- no expiry inside a call

  /** The key does not go while a call is under way. */
  predicate Calm(s: State, e: Step) {
    e.Tick? && s.pending != map[] ==> Live(s.key, s.clock + e.seconds)
  }

  ghost predicate CalmRuns(s: State, es: seq<Step>, s': State)
    decreases |es|
  {
    if es == [] then s == s' else Enabled(s, es[0]) && Calm(s, es[0]) && CalmRuns(Apply(s, es[0]), es[1..], s')
  }

  ghost predicate Inv(s: State) {
    && OnceEach(s)
    && (s.key.Some? ==> s.starts != [] && s.key.value.start == s.starts[|s.starts| - 1])
    && (s.pending != map[] ==> Live(s.key, s.clock))
    && (forall who :: who in s.pending ==> IsCalm(s, s.pending[who]))
  }

  ghost predicate IsCalm(s: State, p: Pending) {
    p.cooldown > 0 && !p.Blank? && (p.Read? ==> s.key.Some? && p.start == Some(s.key.value.start))
  }

  lemma StepKeepsInv(s: State, e: Step)
    requires Inv(s) && Enabled(s, e) && Calm(s, e)
    ensures Inv(Apply(s, e))
  {
    if e.Slide? || e.GetKey? {
      assert IsCalm(s, s.pending[e.who]) && s.pending != map[];
    }
  }

  lemma {:induction false} RunKeepsInv(s: State, es: seq<Step>, s': State)
    requires Inv(s) && CalmRuns(s, es, s')
    ensures Inv(s')
    decreases |es|
  {
    if es != [] {
      StepKeepsInv(s, es[0]);
      RunKeepsInv(Apply(s, es[0]), es[1..], s');
    }
  }

  /** As long as the key does not go while a call is under way, each episode is answered "new" exactly once, no call
      comes to set the key again, and the dwell any call answers is measured from the first detection of the episode
      that is on. */
  lemma EachEpisodeIsNewOnce(es: seq<Step>, s: State, who: Caller)
    requires CalmRuns(INIT, es, s)
    ensures s.news == seq(|s.starts|, i => i)
    ensures who in s.pending && s.pending[who].Read? ==>
              s.starts != [] && s.pending[who].start == Some(s.starts[|s.starts| - 1])
    ensures who in s.pending ==> !s.pending[who].Blank?
  {
    RunKeepsInv(INIT, es, s);
    if who in s.pending { assert IsCalm(s, s.pending[who]); }
  }

  // ---------------------------------------------------------------- an expiry inside two calls

  ghost predicate Leads(s: State, s': State) { exists es :: Runs(s, es, s') }

  lemma LeadsFrom(s: State, e: Step, t: State, s': State)
    requires Enabled(s, e) && Apply(s, e) == t && Leads(t, s')
    ensures Leads(s, s')
  {
    var es :| Runs(t, es, s');
    assert ([e] + es)[1..] == es;
    assert Runs(s, [e] + es, s');
  }

  /** Call 0 has begun an episode at time 0 with a cooldown of 10, and calls 1 and 2 are this far. */
  function Waiting(clock: int, one: Pending, two: Pending): State {
    State(clock, Some(Held(7, 10)), map[1 := one, 2 := two], [7], [0])
  }

  const MISSED := Missed(9, 60)
  const FOUND_GONE := Read(None, 9, 60)
  const BLANK := Blank(9, 60)

  lemma BothMiss(s': State)
    requires Leads(Waiting(0, MISSED, MISSED), s')
    ensures Leads(INIT, s')
  {
    var s1 := State(0, Some(Held(7, 10)), map[], [7], [0]);
    var s2 := s1.(pending := map[1 := MISSED]);
    LeadsFrom(s2, TrySet(2, 9, 60), Waiting(0, MISSED, MISSED), s');
    LeadsFrom(s1, TrySet(1, 9, 60), s2, s');
    LeadsFrom(INIT, TrySet(0, 7, 10), s1, s');
  }

  lemma BothFindItGone(s': State)
    requires Leads(Waiting(11, FOUND_GONE, FOUND_GONE), s')
    ensures Leads(Waiting(0, MISSED, MISSED), s')
  {
    LeadsFrom(Waiting(11, FOUND_GONE, MISSED), GetKey(2), Waiting(11, FOUND_GONE, FOUND_GONE), s');
    LeadsFrom(Waiting(11, MISSED, MISSED), GetKey(1), Waiting(11, FOUND_GONE, MISSED), s');
    LeadsFrom(Waiting(0, MISSED, MISSED), Tick(11), Waiting(11, MISSED, MISSED), s');
  }

  lemma BothSetIt(s': State)
    requires Leads(State(11, Some(Held(9, 71)), map[], [7, 9], [0, 1, 1]), s')
    ensures Leads(Waiting(11, BLANK, BLANK), s')
  {
    var last := State(11, Some(Held(9, 71)), map[], [7, 9], [0, 1, 1]);
    var s1 := State(11, Some(Held(9, 71)), map[2 := BLANK], [7, 9], [0, 1]);
    LeadsFrom(s1, Overwrite(2), last, s');
    LeadsFrom(Waiting(11, BLANK, BLANK), Overwrite(1), s1, s');
  }

  lemma BothSlide(s': State)
    requires Leads(Waiting(11, BLANK, BLANK), s')
    ensures Leads(Waiting(11, FOUND_GONE, FOUND_GONE), s')
  {
    LeadsFrom(Waiting(11, BLANK, FOUND_GONE), Slide(2), Waiting(11, BLANK, BLANK), s');
    LeadsFrom(Waiting(11, FOUND_GONE, FOUND_GONE), Slide(1), Waiting(11, BLANK, FOUND_GONE), s');
  }

  /** A run in which it happens: the key goes between the commands of two calls, both find it gone, both set it, and
      both are answered "new" for the episode the first of them begins. */
  lemma ExpiryInsideTwoCallsRepeatsNew()
    ensures exists s :: Leads(INIT, s) && s.starts == [7, 9] && s.news == [0, 1, 1]
  {
    var s := State(11, Some(Held(9, 71)), map[], [7, 9], [0, 1, 1]);
    assert Runs(s, [], s);
    BothSetIt(s);
    BothSlide(s);
    BothFindItGone(s);
    BothMiss(s);
  }
}
