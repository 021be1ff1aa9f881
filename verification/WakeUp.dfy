/** The intelligence runner's loop: clear the flag, make a pass, rest, then wait for a nudge or the tick.

    The listener task sets the flag at any moment; the loop runs on as soon as what it awaits has come about, so time
    passes only inside a pass, up to the end of a rest, and in a wait that nothing has ended. */
module WakeUp {
  import opened Wrappers

  /** In milliseconds. */
  datatype Config = Config(tick: nat, minGap: nat)

  datatype Phase = Top | Passing | Resting(until: int) | Waiting(until: int) | Stopped

  /** `nudged` is when the first nudge came that no pass has begun after; `starts` and `restEnd` say when passes began
      and when the last rest was over. */
  datatype State = State(now: int, phase: Phase, wake: bool, stop: bool, nudged: Option<int>, starts: seq<int>,
                         passEnd: int, restEnd: int)

  datatype Step = Advance(ms: nat) | Nudge | Order | Begin | EndPass | EndRest | EndWait

  const INIT := State(0, Top, false, false, None, [], 0, 0)

  function Max(a: int, b: int): int { if a > b then a else b }

  /** How long the wait after a rest lasts if nothing ends it. */
  function Wait(c: Config): int { Max(c.tick - c.minGap, 0) }

  predicate Enabled(s: State, e: Step) {
    match e
    case Advance(ms) =>
      match s.phase {
        case Passing => true
        case Resting(until) => !s.stop && s.now + ms <= until
        case Waiting(until) => !s.wake && !s.stop && s.now + ms <= until
        case _ => false
      }
    case Nudge => true
    case Order => true
    case Begin => s.phase.Top? && !s.stop
    case EndPass => s.phase.Passing?
    case EndRest => s.phase.Resting? && (s.now >= s.phase.until || s.stop)
    case EndWait => s.phase.Waiting? && (s.wake || s.stop || s.now >= s.phase.until)
  }

  function Apply(c: Config, s: State, e: Step): State
    requires Enabled(s, e)
  {
    match e
    case Advance(ms) => s.(now := s.now + ms)
    case Nudge => s.(wake := true, nudged := if s.nudged.None? then Some(s.now) else s.nudged)
    case Order => s.(stop := true)
    case Begin => s.(phase := Passing, wake := false, nudged := None, starts := s.starts + [s.now])
    case EndPass => s.(phase := Resting(s.now + c.minGap), passEnd := s.now)
    case EndRest =>
      if s.stop then s.(phase := Stopped) else s.(phase := Waiting(s.now + Wait(c)), restEnd := s.now)
    case EndWait => s.(phase := if s.stop then Stopped else Top)
  }

  ghost predicate Runs(c: Config, s: State, es: seq<Step>, s': State)
    decreases |es|
  {
    if es == [] then s == s' else Enabled(s, es[0]) && Runs(c, Apply(c, s, es[0]), es[1..], s')
  }

  ghost predicate Reachable(c: Config, s: State) { exists es :: Runs(c, INIT, es, s) }

  /** Consecutive passes begin at least the gap apart. */
  ghost predicate Spaced(starts: seq<int>, gap: int) {
    forall i :: 0 < i < |starts| ==> starts[i] - starts[i - 1] >= gap
  }

  ghost predicate Rested(c: Config, s: State) {
    && s.passEnd + c.minGap <= s.restEnd <= s.now
    && (s.nudged.Some? ==> s.now <= Max(s.nudged.value, s.restEnd))
    && s.now <= s.restEnd + Wait(c)
  }

  ghost predicate Inv(c: Config, s: State) {
    && (s.wake <==> s.nudged.Some?) && (s.nudged.Some? ==> s.nudged.value <= s.now)
    && Spaced(s.starts, c.minGap)
    && (s.starts == [] ==> s.now == 0 && (s.phase.Top? || s.phase.Stopped?))
    && (s.starts != [] && s.phase.Passing? ==> s.starts[|s.starts| - 1] <= s.now)
    && (s.starts != [] && !s.phase.Passing? ==> s.starts[|s.starts| - 1] <= s.passEnd <= s.now)
    && (s.phase.Resting? ==> s.phase.until == s.passEnd + c.minGap && (s.now <= s.phase.until))
    && (s.phase.Waiting? ==> s.phase.until == s.restEnd + Wait(c))
    && (s.starts != [] && (s.phase.Waiting? || (s.phase.Top? && !s.stop)) ==> Rested(c, s))
  }

  lemma BeginKeepsInv(c: Config, s: State)
    requires Inv(c, s) && Enabled(s, Begin)
    ensures Inv(c, Apply(c, s, Begin))
  {
    var starts := s.starts + [s.now];
    forall i | 0 < i < |starts|
      ensures starts[i] - starts[i - 1] >= c.minGap
    {
      if i < |s.starts| { assert starts[i] == s.starts[i] && starts[i - 1] == s.starts[i - 1]; }
    }
  }

  lemma AdvanceKeepsInv(c: Config, s: State, ms: nat)
    requires Inv(c, s) && Enabled(s, Advance(ms))
    ensures Inv(c, Apply(c, s, Advance(ms)))
  {
  }

  lemma EndKeepsInv(c: Config, s: State, e: Step)
    requires Inv(c, s) && Enabled(s, e) && (e.EndPass? || e.EndRest? || e.EndWait?)
    ensures Inv(c, Apply(c, s, e))
  {
    assert Apply(c, s, e).starts == s.starts;
  }

  lemma StepKeepsInv(c: Config, s: State, e: Step)
    requires Inv(c, s) && Enabled(s, e)
    ensures Inv(c, Apply(c, s, e))
  {
    match e
    case Begin => BeginKeepsInv(c, s);
    case Advance(ms) => AdvanceKeepsInv(c, s, ms);
    case Nudge => assert Apply(c, s, e).starts == s.starts;
    case Order => assert Apply(c, s, e).starts == s.starts;
    case _ => EndKeepsInv(c, s, e);
  }

  lemma {:induction false} RunKeepsInv(c: Config, s: State, es: seq<Step>, s': State)
    requires Inv(c, s) && Runs(c, s, es, s')
    ensures Inv(c, s')
    decreases |es|
  {
    if es != [] {
      StepKeepsInv(c, s, es[0]);
      RunKeepsInv(c, Apply(c, s, es[0]), es[1..], s');
    }
  }

  /** Only the beginning of a pass takes a nudge back. */
  lemma {:induction false} NudgeStays(c: Config, s: State, es: seq<Step>, s': State)
    requires Runs(c, s, es, s') && s.wake && s.nudged.Some? && forall i :: 0 <= i < |es| ==> !es[i].Begin?
    ensures s'.wake && s'.nudged == s.nudged
    decreases |es|
  {
    if es != [] { NudgeStays(c, Apply(c, s, es[0]), es[1..], s'); }
  }

  /** No nudge is lost, whenever it comes, also in the middle of a pass: when the next pass begins the flag is still up,
      and that is at once, or as soon as the rest is over. Nor can any run put it off: until it begins, a rest is within
      the gap after its pass, and otherwise no time has gone by since the nudge or the end of the rest. */
  lemma NudgeBringsAPass(c: Config, s: State, es: seq<Step>, s': State)
    requires Reachable(c, s) && Runs(c, Apply(c, s, Nudge), es, s') && forall i :: 0 <= i < |es| ==> !es[i].Begin?
    ensures s'.wake && s.now <= s'.now
    ensures s'.starts != [] && s'.phase.Resting? ==> s'.now <= s'.passEnd + c.minGap
    ensures s'.starts != [] && !s'.stop && (s'.phase.Waiting? || s'.phase.Top?) ==> s'.now <= Max(s.now, s'.restEnd)
    ensures s'.starts == [] ==> s'.now == 0 && (s'.phase.Top? || s'.phase.Stopped?)
  {
    var before :| Runs(c, INIT, before, s);
    RunKeepsInv(c, INIT, before, s);
    StepKeepsInv(c, s, Nudge);
    RunKeepsInv(c, Apply(c, s, Nudge), es, s');
    NudgeStays(c, Apply(c, s, Nudge), es, s');
    TimeGoesOn(c, Apply(c, s, Nudge), es, s');
  }

  lemma {:induction false} TimeGoesOn(c: Config, s: State, es: seq<Step>, s': State)
    requires Runs(c, s, es, s')
    ensures s.now <= s'.now
    decreases |es|
  {
    if es != [] { TimeGoesOn(c, Apply(c, s, es[0]), es[1..], s'); }
  }

  /** Without any nudge a pass begins within the tick. */
  lemma PassWithinTheTick(c: Config, s: State)
    requires Reachable(c, s) && Enabled(s, Begin) && s.starts != []
    ensures s.now - s.restEnd <= 0 || s.now - s.restEnd <= c.tick - c.minGap
  {
    var es :| Runs(c, INIT, es, s);
    RunKeepsInv(c, INIT, es, s);
  }

  /** Once it is ordered to stop, no run begins another pass, and no time goes by but what is left of the pass that is
      under way. */
  lemma {:induction false} OrderEndsTheLoop(c: Config, s: State, es: seq<Step>, s': State)
    requires Runs(c, s, es, s') && s.stop
    ensures s'.stop && s'.starts == s.starts
    ensures !s.phase.Passing? ==> !s'.phase.Passing? && s'.now == s.now && s'.passEnd == s.passEnd
    ensures s.phase.Passing? && !s'.phase.Passing? ==> s'.now == s'.passEnd
    decreases |es|
  {
    if es != [] { OrderEndsTheLoop(c, Apply(c, s, es[0]), es[1..], s'); }
  }

  /** The rest lasts no longer than the gap, so a nudge in a pass is answered that long after the pass. */
  lemma RestIsTheGap(c: Config, s: State)
    requires Reachable(c, s) && s.phase.Resting? && Enabled(s, EndRest) && !s.stop
    ensures Apply(c, s, EndRest).restEnd == s.passEnd + c.minGap
  {
    var es :| Runs(c, INIT, es, s);
    RunKeepsInv(c, INIT, es, s);
  }

  /** However many nudges come, passes begin at least the gap apart, and each begins that long after the last ended. */
  lemma PassesKeepTheGap(c: Config, s: State)
    requires Reachable(c, s)
    ensures Spaced(s.starts, c.minGap)
    ensures Enabled(s, Begin) && s.starts != [] ==> s.now >= s.passEnd + c.minGap
  {
    var es :| Runs(c, INIT, es, s);
    RunKeepsInv(c, INIT, es, s);
  }

  /** The loop is never stuck: until it has stopped, a step of its own or the passing of time is possible. */
  lemma NeverStuck(c: Config, s: State)
    requires Reachable(c, s) && !s.phase.Stopped? && !(s.phase.Top? && s.stop)
    ensures exists e ::
              Enabled(s, e) && (e.Begin? || e.EndPass? || e.EndRest? || e.EndWait? || (e.Advance? && e.ms > 0))
  {
    var es :| Runs(c, INIT, es, s);
    RunKeepsInv(c, INIT, es, s);
    match s.phase {
      case Top => assert Enabled(s, Begin);
      case Passing => assert Enabled(s, EndPass);
      case Resting(until) =>
        if s.now >= until || s.stop { assert Enabled(s, EndRest); } else { assert Enabled(s, Advance(until - s.now)); }
      case Waiting(until) =>
        if s.wake || s.stop || s.now >= until { assert Enabled(s, EndWait); }
        else { assert Enabled(s, Advance(until - s.now)); }
      case Stopped =>
    }
  }

  // ---------------------------------------------------------------- the code

  lemma {:induction false} RunsOn(c: Config, s: State, es: seq<Step>, s': State, e: Step)
    requires Runs(c, s, es, s') && Enabled(s', e)
    ensures Runs(c, s, es + [e], Apply(c, s', e))
    decreases |es|
  {
    if es != [] {
      RunsOn(c, Apply(c, s, es[0]), es[1..], s', e);
      assert (es + [e])[1..] == es[1..] + [e];
    }
  }

  /** The two tasks' flags and the clock; `s` is where the loop stands and `steps` how it came there. */
  class Runner {
    const c: Config
    var now: int
    var wake: bool
    var stop: bool
    ghost var s: State
    ghost var steps: seq<Step>

    ghost predicate Valid()
      reads this
    {
      s.now == now && s.wake == wake && s.stop == stop && Runs(c, INIT, steps, s)
    }

    constructor (c: Config)
      ensures Valid() && this.c == c && s == INIT
    {
      this.c := c;
      now, wake, stop, s, steps := 0, false, false, INIT, [];
    }

    ghost method Follow(e: Step)
      requires Runs(c, INIT, steps, s) && Enabled(s, e)
      modifies this`s, this`steps
      ensures s == Apply(c, old(s), e) && Runs(c, INIT, steps, s)
    {
      RunsOn(c, INIT, steps, s, e);
      s, steps := Apply(c, s, e), steps + [e];
    }

    /** A message of the kind that wakes the runner. */
    method OnNudge()
      requires Valid()
      modifies this
      ensures Valid() && s == Apply(c, old(s), Nudge)
    {
      wake := true;
      Follow(Nudge);
    }

    /** SIGTERM. */
    method OnSignal()
      requires Valid()
      modifies this
      ensures Valid() && s == Apply(c, old(s), Order)
    {
      stop := true;
      Follow(Order);
    }

    method Sleep(ms: nat)
      requires Valid() && Enabled(s, Advance(ms))
      modifies this
      ensures Valid() && s == Apply(c, old(s), Advance(ms))
    {
      now := now + ms;
      Follow(Advance(ms));
    }

    /** An await: the listener and the signal handler run while time passes, until the deadline at the latest, and no
        longer once `ready` — the flags this await waits for — has come about. */
    method Await(deadline: Option<int>, forWake: bool)
      requires Valid()
      requires match s.phase
               case Passing => deadline.None?
               case Resting(until) => deadline == Some(until) && !forWake
               case Waiting(until) => deadline == Some(until) && forWake
               case _ => false
      modifies this
      ensures Valid() && s.phase == old(s).phase && s.starts == old(s).starts && s.restEnd == old(s).restEnd
      ensures s.now >= old(s).now
      ensures deadline.Some? ==> stop || now >= deadline.value || (forWake && wake)
    {
      var events: int := *;
      while events > 0
        invariant Valid() && s.phase == old(s).phase && s.starts == old(s).starts && s.restEnd == old(s).restEnd
        invariant s.now >= old(s).now
      {
        var event: int, ms: int := *, *;
        if event == 0 {
          OnNudge();
        } else if event == 1 {
          OnSignal();
        } else if ms > 0 && (deadline.None? || (!stop && !(forWake && wake) && now + ms <= deadline.value)) {
          Sleep(ms);
        }
        events := events - 1;
      }
      if deadline.Some? && !stop && !(forWake && wake) && now < deadline.value { Sleep(deadline.value - now); }
    }

    /** The flag is cleared, and then the pass is made. */
    method Pass()
      requires Valid() && s.phase.Top? && !stop
      modifies this
      ensures Valid() && s.phase == Resting(now + c.minGap) && s.starts == old(s).starts + [old(now)]
    {
      wake := false;
      Follow(Begin);
      Await(None, false);
      Follow(EndPass);
    }

    /** One turn of main's loop. */
    method Turn()
      requires Valid() && s.phase.Top? && !stop
      modifies this
      ensures Valid() && (s.phase.Top? || s.phase.Stopped?) && (s.phase.Stopped? <==> stop)
      ensures s.starts == old(s).starts + [old(now)]
    {
      Pass();
      Await(Some(now + c.minGap), false);
      Follow(EndRest);
      if stop { return; }
      Await(Some(now + if c.tick > c.minGap then c.tick - c.minGap else 0), true);
      Follow(EndWait);
    }

    /** main, for this many turns or until it is stopped: however the two tasks interleave, passes keep the gap. */
    method RunLoop(turns: nat)
      requires Valid() && s == INIT
      modifies this
      ensures Valid() && Spaced(s.starts, c.minGap)
      ensures stop || |s.starts| == turns
    {
      var k := 0;
      while k < turns && !stop
        invariant Valid() && (s.phase.Top? || s.phase.Stopped?) && (s.phase.Stopped? <==> stop)
        invariant |s.starts| == k <= turns
      {
        Turn();
        k := k + 1;
      }
      RunKeepsInv(c, INIT, steps, s);
    }
  }
}
