/**
 Every callback gets its calls.  As long as no new timeout is asked for, each step other than one of a
 tick of an empty wheel uses up work, of which there is a known amount; some such step can be made
 until each session whose ticks were taken is free, and then its callback has been invoked as often as
 it is to be.
 */
module SessionDrain {
  import opened Basics
  import opened Doubles
  import opened TimingWheel
  import opened WheelCounts
  import opened WheelTokens
  import opened WheelWaits
  import opened Sessions
  import opened SessionTokens
  import opened SessionCalls

  /** The turns that a tick has left are those for the nodes of its slot. */
  ghost predicate RoundInv(s: State) {
    && s.wheel.Ok() && (s.round.Some? ==> |s.wheel.slots[s.wheel.current]| == s.round.value)
    && (s.round.None? ==> s.wheel.ticking == 0)
  }

  ghost predicate Good(s: State) {
    Inv(s) && CallsInv(s) && RoundInv(s)
  }

  /** No callback is to be repeated for ever, as it is with a count that does not end. */
  ghost predicate Ending(s: State) {
    forall k :: 0 <= k < |s.calls| && s.calls[k].ticks.Some? ==> Ends(s.calls[k].repeatn)
  }

  // ---- the work that is left --------------------------------------------------------

  function Invocations(c: Call): nat {
    if Ends(c.repeatn) && c.invoked < Times(c.repeatn) then Times(c.repeatn) - c.invoked else 0
  }

  /** For each invocation to come, arming the timer, two half ticks for each tick to wait, firing,
      popping and handling the message. */
  function CallWork(c: Call): nat {
    if c.ticks == None then 0 else Invocations(c) * (2 * c.ticks.value + 5)
  }

  function CallsWork(calls: seq<Call>): nat {
    if calls == [] then 0 else CallWork(calls[0]) + CallsWork(calls[1..])
  }

  function EnvWork(e: Env): nat {
    (if e.hand.Some? then 5 + 2 * e.hand.value.ticks else 0) + 2 * |e.box| + if e.flight.Some? then 1 else 0
  }

  function EnvsWork(envs: seq<Env>): nat {
    if envs == [] then 0 else EnvWork(envs[0]) + EnvsWork(envs[1..])
  }

  function WheelWork(w: Wheel, round: Option<nat>): nat
    requires w.Ok()
  {
    3 * Size(w) + 2 * Wait(w) + if Size(w) > 0 && round.None? then 1 else 0
  }

  function Work(s: State): nat
    requires s.wheel.Ok()
  {
    CallsWork(s.calls) + EnvsWork(s.envs) + WheelWork(s.wheel, s.round)
  }

  /** The start or the end of a tick of an empty wheel. */
  predicate Idle(s: State, a: Step)
    requires s.wheel.Ok()
  {
    (a.StartTick? || a.EndTick?) && Size(s.wheel) == 0
  }

  lemma {:induction false} EnvSet(envs: seq<Env>, i: nat, e: Env)
    requires i < |envs|
    ensures EnvsWork(envs[i := e]) == EnvsWork(envs) - EnvWork(envs[i]) + EnvWork(e)
  {
    var now := envs[i := e];
    if i == 0 {
      assert now[1..] == envs[1..];
    } else {
      EnvSet(envs[1..], i - 1, e);
      assert now[1..] == envs[1..][i - 1 := e];
    }
  }

  lemma {:induction false} CallSet(calls: seq<Call>, i: nat, c: Call)
    requires i < |calls|
    ensures CallsWork(calls[i := c]) == CallsWork(calls) - CallWork(calls[i]) + CallWork(c)
  {
    var now := calls[i := c];
    if i == 0 {
      assert now[1..] == calls[1..];
    } else {
      CallSet(calls[1..], i - 1, c);
      assert now[1..] == calls[1..][i - 1 := c];
    }
  }

  lemma WorkSet(s: State, e: nat, env: Env, k: nat, call: Call)
    requires s.wheel.Ok() && e < |s.envs| && k < |s.calls|
    ensures Work(s.(envs := s.envs[e := env], calls := s.calls[k := call]))
         == Work(s) - EnvWork(s.envs[e]) + EnvWork(env) - CallWork(s.calls[k]) + CallWork(call)
  {
    hide EnvsWork, CallsWork, WheelWork, CallWork, EnvWork;
    CallSet(s.calls, k, call);
    EnvSet(s.envs, e, env);
  }

  lemma ArmWork(s: State, e: nat)
    requires Good(s) && Enabled(s, Arm(e))
    ensures RoundInv(Do(s, Arm(e))) && Work(Do(s, Arm(e))) < Work(s)
  {
    hide EnvsWork, CallsWork, Add, SlotsSize, Wait;
    EnvSet(s.envs, e, s.envs[e].(hand := None));
    var hand := s.envs[e].hand.value;
    AddWaits(s.wheel, Req(hand.ticks, UdOf(e, hand.session), 1));
    AddKeeps(s.wheel, Req(hand.ticks, UdOf(e, hand.session), 1), 0);
  }

  lemma PopMsgWork(s: State, e: nat)
    requires Good(s) && Enabled(s, PopMsg(e))
    ensures RoundInv(Do(s, PopMsg(e))) && Work(Do(s, PopMsg(e))) < Work(s)
  {
    hide EnvsWork, CallsWork, WheelWork;
    EnvSet(s.envs, e, Do(s, PopMsg(e)).envs[e]);
  }

  lemma OneCallLess(c: Call)
    requires c.ticks.Some? && Ends(c.repeatn) && c.invoked < Times(c.repeatn)
    ensures CallWork(c.(invoked := c.invoked + 1)) == CallWork(c) - (2 * c.ticks.value + 5)
  {
    OneLess(2 * c.ticks.value + 5, Invocations(c));
  }

  lemma HandledWork(e: Env, session: nat)
    requires session in e.cbs && e.flight.Some? && e.hand.None? && e.cbs[session].ticks.Some?
    ensures EnvWork(Handled(e.(flight := None), session)) <= EnvWork(e) + 4 + 2 * e.cbs[session].ticks.value
  {
  }

  /** The call that the timer message in flight is for. */
  lemma HandledCall(s: State, e: nat) returns (k: nat)
    requires Good(s) && Ending(s) && Enabled(s, OnTimer(e))
    ensures var env, x := s.envs[e], s.envs[e].flight.value;
            && x in env.cbs && env.cbs[x].ticks.Some? && k < |s.calls| && s.calls[k].ticks == env.cbs[x].ticks
            && Ends(s.calls[k].repeatn) && s.calls[k].invoked < Times(s.calls[k].repeatn)
            && Do(s, OnTimer(e)) == s.(envs := s.envs[e := Handled(env.(flight := None), x)],
                                       calls := s.calls[k := s.calls[k].(invoked := s.calls[k].invoked + 1)])
  {
    hide Left, Less, Num.Done, Times, Once;
    HandledIsLive(s, e);
    assert Matches(s, e, s.envs[e].flight.value);
    k := s.envs[e].cbs[s.envs[e].flight.value].call;
    LastTime(s.calls[k].repeatn, s.calls[k].invoked);
  }

  /** What the step makes of the env and of the call. */
  lemma HandledParts(s: State, e: nat) returns (k: nat, env: Env, call: Call)
    requires Good(s) && Ending(s) && Enabled(s, OnTimer(e))
    ensures k < |s.calls| && Do(s, OnTimer(e)) == s.(envs := s.envs[e := env], calls := s.calls[k := call])
    ensures EnvWork(env) + CallWork(call) < EnvWork(s.envs[e]) + CallWork(s.calls[k])
  {
    k := HandledCall(s, e);
    hide Good, Ending, Do, Ends, Times, Handled, CallWork, EnvWork;
    var x := s.envs[e].flight.value;
    env, call := Handled(s.envs[e].(flight := None), x), s.calls[k].(invoked := s.calls[k].invoked + 1);
    HandledWork(s.envs[e], x);
    OneCallLess(s.calls[k]);
  }

  lemma OnTimerWork(s: State, e: nat)
    requires Good(s) && Ending(s) && Enabled(s, OnTimer(e))
    ensures Work(Do(s, OnTimer(e))) < Work(s)
  {
    assert s.wheel.Ok();
    hide Good, Ending, Do, Work, CallWork, EnvWork;
    var k, env, call := HandledParts(s, e);
    WorkSet(s, e, env, k, call);
  }

  lemma FireNextWork(s: State)
    requires Good(s) && Enabled(s, FireNext)
    ensures RoundInv(Do(s, FireNext)) && Work(Do(s, FireNext)) < Work(s)
  {
    hide EnvsWork, CallsWork, SlotsSize, Wait, Fire;
    var q := s.wheel.slots[s.wheel.current];
    assert AllOnce(q) && q[0].repeat == 1;
    FireSize(s.wheel);
    var e := q[0].ud / SESSIONS;
    if e < |s.envs| {
      EnvSet(s.envs, e, s.envs[e].(box := s.envs[e].box + [q[0].ud % SESSIONS]));
    }
  }

  lemma TickWork(s: State, a: Step)
    requires Good(s) && Enabled(s, a) && (a.StartTick? || a.EndTick?)
    ensures RoundInv(Do(s, a))
    ensures if Idle(s, a) then Work(Do(s, a)) == Work(s) else Work(Do(s, a)) < Work(s)
  {
    hide EnvsWork, CallsWork, SlotsSize, SlotsWait, Advance;
    if a.EndTick? {
      AdvanceWait(s.wheel);
      AdvanceKeeps(s.wheel, 0);
    }
  }

  lemma TableRound(s: State, a: Step)
    requires RoundInv(s) && Enabled(s, a) && (a.Timeout? || a.OnTimer?)
    ensures RoundInv(Do(s, a))
  {
  }

  lemma EndingStays(s: State, a: Step)
    requires Ending(s) && s.wheel.Ok() && Enabled(s, a) && !a.Timeout?
    ensures Ending(Do(s, a))
  {
    forall k | 0 <= k < |Do(s, a).calls| && Do(s, a).calls[k].ticks.Some? ensures Ends(Do(s, a).calls[k].repeatn) {
      assert Do(s, a).calls[k].repeatn == s.calls[k].repeatn && Do(s, a).calls[k].ticks == s.calls[k].ticks;
    }
  }

  lemma StepGood(s: State, a: Step)
    requires Good(s) && Enabled(s, a)
    ensures Good(Do(s, a))
  {
    StepKeeps(s, a);
    StepCalls(s, a);
    hide Inv, CallsInv, Do, RoundInv, Work;
    match a
    case Arm(e) => ArmWork(s, e);
    case PopMsg(e) => PopMsgWork(s, e);
    case FireNext => FireNextWork(s);
    case Timeout(_, _, _, _) => TableRound(s, a);
    case OnTimer(_) => TableRound(s, a);
    case _ => TickWork(s, a);
  }

  /** Each step but a new timeout or one of a tick of an empty wheel uses up work, and those make none. */
  lemma StepWork(s: State, a: Step)
    requires Good(s) && Ending(s) && Enabled(s, a) && !a.Timeout?
    ensures Good(Do(s, a)) && Ending(Do(s, a))
    ensures if Idle(s, a) then Work(Do(s, a)) == Work(s) else Work(Do(s, a)) < Work(s)
  {
    StepGood(s, a);
    EndingStays(s, a);
    hide Inv, CallsInv, Do, RoundInv, Work, Ending;
    match a
    case Arm(e) => ArmWork(s, e);
    case PopMsg(e) => PopMsgWork(s, e);
    case OnTimer(e) => OnTimerWork(s, e);
    case FireNext => FireNextWork(s);
    case _ => TickWork(s, a);
  }

  ghost predicate NoTimeouts(steps: seq<Step>) {
    forall i :: 0 <= i < |steps| ==> !steps[i].Timeout?
  }

  /** How many of the steps are none of a tick of an empty wheel. */
  ghost function Busy(s: State, steps: seq<Step>): nat
    decreases |steps|
  {
    if steps == [] || !s.wheel.Ok() || !Enabled(s, steps[0]) then 0
    else (if Idle(s, steps[0]) then 0 else 1) + Busy(Do(s, steps[0]), steps[1..])
  }

  /** However many ticks of an empty wheel come between. */
  lemma {:induction false} DrainBound(s: State, steps: seq<Step>, t: State)
    requires Good(s) && Ending(s) && Runs(s, steps, t) && NoTimeouts(steps)
    ensures Good(t) && Ending(t) && Busy(s, steps) + Work(t) <= Work(s)
    decreases |steps|
  {
    hide Do, Work, Inv, CallsInv, RoundInv, Ending, Idle;
    if steps != [] {
      assert !steps[0].Timeout?;
      StepWork(s, steps[0]);
      DrainBound(Do(s, steps[0]), steps[1..], t);
    }
  }

  // ---- and until it is done, something can be done ----------------------------------

  lemma {:induction false} InBoxSome(box: seq<nat>, session: nat)
    ensures InBox(box, session) > 0 ==> box != []
  {
  }

  /** A step that the token of session x of env e can make, or the tick that is under way. */
  ghost function Next(s: State, e: nat): Step
    requires s.wheel.Ok() && e < |s.envs|
  {
    if s.round.Some? then (if FiresOn(s) then FireNext else EndTick)
    else if s.envs[e].hand.Some? then Arm(e)
    else if s.envs[e].flight.Some? then OnTimer(e)
    else if s.envs[e].box != [] then PopMsg(e)
    else StartTick
  }

  /** While a session is live whose ticks were taken, such a step can be made, if need be after the
      end of a tick. */
  lemma NeverStuck(s: State, k: nat)
    requires Good(s) && k < |s.calls| && Live(s, k) && s.calls[k].ticks.Some?
    ensures var a := Next(s, s.calls[k].env);
            Enabled(s, a) && !a.Timeout? && (Idle(s, a) ==> a.EndTick? && s.round.Some?)
  {
    var e, x := s.calls[k].env, s.calls[k].session;
    assert Numbers(s.envs[e]) && OneToken(s, e, x) && Matches(s, e, x);
    InBoxSome(s.envs[e].box, x);
    if OnWheel(s.wheel, UdOf(e, x)) > 0 {
      ListedSize(s.wheel, OfUser(UdOf(e, x)));
    }
  }

  ghost predicate AllServed(s: State) {
    forall k :: 0 <= k < |s.calls| && s.calls[k].ticks.Some? ==> !Live(s, k) && Served(s.calls[k])
  }

  /** Where between two ticks no such step is left, every callback whose ticks were taken has been
      invoked as often as it is to be. */
  lemma StuckIsServed(s: State)
    requires Good(s) && s.round.None? && forall a :: Enabled(s, a) ==> a.Timeout? || Idle(s, a)
    ensures AllServed(s)
  {
    forall k | 0 <= k < |s.calls| && s.calls[k].ticks.Some? ensures !Live(s, k) {
      if Live(s, k) {
        NeverStuck(s, k);
      }
    }
  }

  /** From any state some steps lead there. */
  lemma {:induction false} Drain(s: State) returns (steps: seq<Step>, t: State)
    requires Good(s) && Ending(s)
    ensures NoTimeouts(steps) && Runs(s, steps, t) && AllServed(t)
    decreases Work(s), if s.round.Some? then 1 else 0
  {
    hide Work, Do, Next, Idle, Ending, Inv, CallsInv;
    if k :| 0 <= k < |s.calls| && Live(s, k) && s.calls[k].ticks.Some? {
      var a := Next(s, s.calls[k].env);
      NeverStuck(s, k);
      StepWork(s, a);
      if a.EndTick? {
        TickRound(s, a);
      }
      var rest;
      rest, t := Drain(Do(s, a));
      steps := [a] + rest;
      assert steps[1..] == rest;
    } else {
      steps, t := [], s;
      NoneLive(s);
    }
  }

  lemma NoneLive(s: State)
    requires CallsInv(s) && forall k :: 0 <= k < |s.calls| && s.calls[k].ticks.Some? ==> !Live(s, k)
    ensures AllServed(s)
  {
  }

  lemma TickRound(s: State, a: Step)
    requires s.wheel.Ok() && Enabled(s, a) && a.EndTick?
    ensures Do(s, a).round.None?
  {
  }

  lemma InitGood(envn: nat)
    ensures Good(Init(envn))
  {
    InitInv(envn);
  }

  lemma {:induction false} RunGood(s: State, steps: seq<Step>, t: State)
    requires Good(s) && Runs(s, steps, t)
    ensures Good(t)
    decreases |steps|
  {
    if steps != [] {
      StepGood(s, steps[0]);
      RunGood(Do(s, steps[0]), steps[1..], t);
    }
  }

  /** No state of any run is beyond help: from there the callbacks can get the calls they miss. */
  lemma EveryCallbackServed(envn: nat, steps: seq<Step>, s: State) returns (more: seq<Step>, t: State)
    requires Runs(Init(envn), steps, s) && Ending(s)
    ensures NoTimeouts(more) && Runs(s, more, t) && |t.calls| == |s.calls| && AllServed(t)
  {
    InitGood(envn);
    RunGood(Init(envn), steps, s);
    more, t := Drain(s);
    SameNumber(s, more, t);
  }

  lemma {:induction false} SameNumber(s: State, steps: seq<Step>, t: State)
    requires Runs(s, steps, t) && NoTimeouts(steps)
    ensures |t.calls| == |s.calls|
    decreases |steps|
  {
    if steps != [] {
      assert !steps[0].Timeout?;
      SameNumber(Do(s, steps[0]), steps[1..], t);
    }
  }
}
