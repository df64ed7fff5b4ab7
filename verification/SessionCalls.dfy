/** How often each callback is invoked, on every run. */
module SessionCalls {
  import opened Basics
  import opened Doubles
  import opened Sessions
  import opened SessionTokens

  /** The session still stands for this call of timeout. */
  ghost predicate Live(s: State, k: nat)
    requires k < |s.calls|
  {
    var c := s.calls[k];
    c.env < |s.envs| && c.session in s.envs[c.env].cbs && s.envs[c.env].cbs[c.session].call == k
  }

  /** What mTimerCbs holds agrees with the call that made it. */
  ghost predicate Matches(s: State, e: nat, x: nat)
    requires e < |s.envs| && x in s.envs[e].cbs
  {
    var cb := s.envs[e].cbs[x];
    && cb.call < |s.calls|
    && var c := s.calls[cb.call];
       && c.env == e && c.session == x && c.ticks == cb.ticks && c.repeatn.Wf() && cb.left == Left(c.repeatn, c.invoked)
       && (c.invoked == 0 || !cb.left.Done()) && (c.ticks == None ==> c.invoked == 0)
  }

  /** The callback has been invoked as often as it is to be. */
  predicate Served(c: Call) {
    c.ticks.Some? && Ends(c.repeatn) && c.invoked == Times(c.repeatn)
  }

  ghost predicate CallsInv(s: State) {
    && (forall e, x :: 0 <= e < |s.envs| && x in s.envs[e].cbs ==> Matches(s, e, x))
    && (forall k :: 0 <= k < |s.calls| && !Live(s, k) ==> Served(s.calls[k]))
  }

  lemma LastTime(repeatn: Num, invoked: nat)
    requires repeatn.Wf() && (invoked == 0 || !Left(repeatn, invoked).Done())
    ensures Less(Left(repeatn, invoked)) == Left(repeatn, invoked + 1)
    ensures Left(repeatn, invoked + 1).Done() ==> Ends(repeatn) && invoked + 1 == Times(repeatn)
    ensures Ends(repeatn) ==> invoked < Times(repeatn)
  {
    EndsExactly(repeatn, invoked + 1);
    if invoked > 0 {
      EndsExactly(repeatn, invoked);
    }
  }

  lemma TimeoutCalls(s: State, e: nat, x: nat, ticks: Option<nat>, repeatn: Num)
    requires CallsInv(s) && Inv(s) && Enabled(s, Timeout(e, x, ticks, repeatn))
    ensures CallsInv(Do(s, Timeout(e, x, ticks, repeatn)))
  {
    var t := Do(s, Timeout(e, x, ticks, repeatn));
    forall f, y | 0 <= f < |t.envs| && y in t.envs[f].cbs ensures Matches(t, f, y) {
      if f != e || y != x {
        assert Matches(s, f, y);
      }
    }
    forall k | 0 <= k < |t.calls| && !Live(t, k) ensures Served(t.calls[k]) {
      if k < |s.calls| {
        assert !Live(s, k);
      }
    }
  }

  lemma SameCalls(s: State, t: State)
    requires CallsInv(s) && t.calls == s.calls && |t.envs| == |s.envs|
    requires forall e :: 0 <= e < |s.envs| ==> t.envs[e].cbs == s.envs[e].cbs
    ensures CallsInv(t)
  {
    forall f, y | 0 <= f < |t.envs| && y in t.envs[f].cbs ensures Matches(t, f, y) {
      assert Matches(s, f, y);
    }
    forall k | 0 <= k < |t.calls| && !Live(t, k) ensures Served(t.calls[k]) {
      assert !Live(s, k);
    }
  }

  /** The entry that is counted down, if it stays, and all others. */
  lemma OnTimerMatches(s: State, e: nat, f: nat, y: nat)
    requires s.wheel.Ok() && CallsInv(s) && Enabled(s, OnTimer(e)) && Awaited(s.envs[e], s.envs[e].flight.value)
    requires f < |s.envs| && y in Do(s, OnTimer(e)).envs[f].cbs
    ensures Matches(Do(s, OnTimer(e)), f, y)
  {
    hide Left, Less, Num.Done, Num.Wf, Live, Served;
    var x := s.envs[e].flight.value;
    assert Matches(s, e, x) && Matches(s, f, y);
    var k := s.envs[e].cbs[x].call;
    LastTime(s.calls[k].repeatn, s.calls[k].invoked);
  }

  lemma OnTimerServed(s: State, e: nat, k: nat)
    requires s.wheel.Ok() && CallsInv(s) && Enabled(s, OnTimer(e)) && Awaited(s.envs[e], s.envs[e].flight.value)
    requires k < |s.calls| && !Live(Do(s, OnTimer(e)), k)
    ensures Served(Do(s, OnTimer(e)).calls[k])
  {
    hide Left, Less, Num.Done, Num.Wf, Ends, Times;
    var x := s.envs[e].flight.value;
    assert Matches(s, e, x);
    LastTime(s.calls[s.envs[e].cbs[x].call].repeatn, s.calls[s.envs[e].cbs[x].call].invoked);
    if k != s.envs[e].cbs[x].call {
      assert !Live(s, k);
    }
  }

  lemma OnTimerCalls(s: State, e: nat)
    requires CallsInv(s) && Inv(s) && Enabled(s, OnTimer(e))
    ensures CallsInv(Do(s, OnTimer(e)))
  {
    HandledIsLive(s, e);
    hide Inv, Matches, Served, Awaited;
    var t := Do(s, OnTimer(e));
    assert |t.calls| == |s.calls| && |t.envs| == |s.envs|;
    hide Do, Live;
    forall f, y | 0 <= f < |t.envs| && y in t.envs[f].cbs ensures Matches(t, f, y) {
      OnTimerMatches(s, e, f, y);
    }
    forall i | 0 <= i < |t.calls| && !Live(t, i) ensures Served(t.calls[i]) {
      OnTimerServed(s, e, i);
    }
  }

  lemma StepCalls(s: State, a: Step)
    requires CallsInv(s) && Inv(s) && Enabled(s, a)
    ensures CallsInv(Do(s, a))
  {
    match a
    case Timeout(e, x, ticks, repeatn) => TimeoutCalls(s, e, x, ticks, repeatn);
    case OnTimer(e) => OnTimerCalls(s, e);
    case Arm(e) => SameCalls(s, Do(s, a));
    case FireNext =>
      forall e | 0 <= e < |s.envs| ensures Do(s, a).envs[e].cbs == s.envs[e].cbs {
        PostKeeps(s.envs, s.wheel.slots[s.wheel.current][0].ud, e, 0);
      }
      SameCalls(s, Do(s, a));
    case _ => SameCalls(s, Do(s, a));
  }

  lemma {:induction false} RunCalls(s: State, steps: seq<Step>, t: State)
    requires CallsInv(s) && Inv(s) && Runs(s, steps, t)
    ensures CallsInv(t)
    decreases |steps|
  {
    if steps != [] {
      StepKeeps(s, steps[0]);
      StepCalls(s, steps[0]);
      RunCalls(Do(s, steps[0]), steps[1..], t);
    }
  }

  /** On every run: while its session is live a callback has been invoked fewer times than it is to
      be, and once the session is free exactly so often.  A session whose ticks are refused or whose
      count never ends is never free. */
  lemma InvokedExactly(envn: nat, steps: seq<Step>, t: State, k: nat)
    requires Runs(Init(envn), steps, t) && k < |t.calls|
    ensures var c := t.calls[k];
            if Live(t, k) then
              (Ends(c.repeatn) ==> c.invoked < Times(c.repeatn)) && (c.ticks == None ==> c.invoked == 0)
            else Served(c)
    ensures t.calls[k].ticks == None || !Ends(t.calls[k].repeatn) ==> Live(t, k)
  {
    InitInv(envn);
    RunCalls(Init(envn), steps, t);
    var c := t.calls[k];
    if Live(t, k) {
      assert Matches(t, c.env, c.session);
      LastTime(c.repeatn, c.invoked);
    }
  }
}
