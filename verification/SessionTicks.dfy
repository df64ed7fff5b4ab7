/**
 A session is armed with the ticks it was opened with, each time, and its message is posted at the
 tick that they lead to.
 */
module SessionTicks {
  import opened Basics
  import opened TimingWheel
  import opened WheelCounts
  import opened WheelTokens
  import opened WheelLines
  import WheelRuns
  import opened Sessions
  import opened SessionTokens
  import opened SessionCalls
  import opened SessionDrain

  /** The env and the session that user data is about. */
  function EnvOf(u: Ud): nat { u / SESSIONS }

  function SessionOf(u: Ud): nat { u % SESSIONS }

  lemma UdParts(u: Ud)
    ensures u == UdOf(EnvOf(u), SessionOf(u)) && SessionOf(u) < SESSIONS
  {
  }

  lemma PartsOf(e: nat, x: nat)
    requires x < SESSIONS
    ensures EnvOf(UdOf(e, x)) == e && SessionOf(UdOf(e, x)) == x
  {
    Quotient(UdOf(e, x), SESSIONS, e, x);
  }

  /** Of the timers of u that are still to fire there are just ks, all due at tick `due`. */
  ghost predicate Only(w: Wheel, u: Ud, due: nat, ks: seq<Timer>)
    requires w.Ok()
  {
    forall d: nat :: d >= w.Clock() ==> WheelRuns.Of(Line(w, d), u) == if d == due then ks else []
  }

  /** The timer of u, if there is one, has the ticks of its session and is due when it should be. */
  ghost predicate Timed(s: State, u: Ud)
    requires s.wheel.Ok()
  {
    OnWheel(s.wheel, u) > 0 ==>
      && EnvOf(u) < |s.envs| && Awaited(s.envs[EnvOf(u)], SessionOf(u))
      && var p := s.envs[EnvOf(u)].cbs[SessionOf(u)].ticks.value;
         && Listed(s.wheel, OfTimer(u, p)) == OnWheel(s.wheel, u)
         && u in s.dues && s.dues[u] >= s.wheel.Clock() && Only(s.wheel, u, s.dues[u], [Timer(u, p, 1)])
  }

  /** So has the hand that is about to arm it. */
  ghost predicate InHandTicks(e: Env) {
    e.hand.Some? ==> e.hand.value.session in e.cbs && e.cbs[e.hand.value.session].ticks == Some(e.hand.value.ticks)
  }

  ghost predicate TicksInv(s: State) {
    && s.wheel.Ok() && (forall u: Ud :: Timed(s, u))
    && (forall e :: 0 <= e < |s.envs| ==> InHandTicks(s.envs[e]))
  }

  // ---- what is not on the wheel has no line-up --------------------------------------

  lemma {:induction false} NoKeys(es: seq<Entry>, u: Ud)
    requires Count(es, OfUser(u)) == 0
    ensures WheelRuns.Of(Keys(es), u) == []
  {
    if es != [] {
      NoKeys(es[1..], u);
      assert Keys(es)[1..] == Keys(es[1..]);
    }
  }

  lemma {:induction false} NoPicks(es: seq<Entry>, left: int, u: Ud)
    requires Count(es, OfUser(u)) == 0
    ensures WheelRuns.Of(Pick(es, left), u) == []
  {
    if es != [] {
      NoPicks(es[1..], left, u);
      WheelRuns.OfConcat(if es[0].timeleft == left then [Key(es[0])] else [], Pick(es[1..], left), u);
    }
  }

  lemma {:induction false} NoSlot(slots: seq<seq<Entry>>, i: nat, m: Mark)
    requires i < |slots| && SlotCount(slots, m) == 0
    ensures Count(slots[i], m) == 0
  {
    if i > 0 {
      NoSlot(slots[1..], i - 1, m);
    }
  }

  lemma NoLines(w: Wheel, u: Ud, due: nat)
    requires w.Ok() && OnWheel(w, u) == 0
    ensures Only(w, u, due, [])
  {
    forall d: nat | d >= w.Clock() ensures WheelRuns.Of(Line(w, d), u) == [] {
      WheelRuns.OfConcat(Direct(w, d), Parked(w, d), u);
      NoPicks(w.parked, d - w.epoch - w.n, u);
      if d < w.Clock() + w.n {
        var i := if d - w.epoch < w.n then d - w.epoch else d - w.epoch - w.n;
        NoSlot(w.slots, i, OfUser(u));
        NoKeys(w.slots[i], u);
      }
    }
  }

  // ---- what the steps of the timer do to the line-ups of one user -------------------

  lemma AddOnlyAt(w: Wheel, q: Req, u: Ud, d: nat)
    requires w.Ok() && w.ticking == 0 && (q.ud == u ==> WheelRuns.Of(Line(w, d), u) == [])
    ensures Add(w, q).Ok()
    ensures WheelRuns.Of(Line(Add(w, q), d), u) ==
            if q.ud == u then (if d == w.Clock() + q.timeout then [Timer(u, q.timeout, q.repeat)] else [])
            else WheelRuns.Of(Line(w, d), u)
  {
    hide WheelRuns.Of, Line, Direct, Parked, Add;
    WheelRuns.AddOf(w, q, u, d);
    var a, b := WheelRuns.Of(Direct(w, d), u), WheelRuns.Of(Parked(w, d), u);
    assert a + [] + b == a + b && WheelRuns.Of(Line(w, d), u) + [] == WheelRuns.Of(Line(w, d), u);
  }

  lemma AddOnly(w: Wheel, q: Req, u: Ud, due: nat, ks: seq<Timer>)
    requires w.Ok() && w.ticking == 0 && Only(w, u, due, ks) && (q.ud == u ==> ks == [])
    ensures var d := if q.ud == u then w.Clock() + q.timeout else due;
            Only(Add(w, q), u, d, if q.ud == u then [Timer(u, q.timeout, q.repeat)] else ks)
    ensures Add(w, q).Ok() && Add(w, q).Clock() == w.Clock()
  {
    hide WheelRuns.Of, Line, Add;
    AddLine(w, q, due);
    var r := Add(w, q);
    forall d: nat | d >= r.Clock()
      ensures WheelRuns.Of(Line(r, d), u) ==
              if q.ud == u then (if d == w.Clock() + q.timeout then [Timer(u, q.timeout, q.repeat)] else [])
              else if d == due then ks else []
    {
      assert WheelRuns.Of(Line(w, d), u) == if d == due then ks else [];
      AddOnlyAt(w, q, u, d);
    }
  }

  lemma NoJournal(t: nat, k: Timer, d: nat)
    requires k.repeat == 1
    ensures Due(AddsJournal(t, []) + RearmJournal(t, k), d) == []
  {
    assert AddsJournal(t, []) + RearmJournal(t, k) == [];
  }

  /** A timer that fires for the last time is placed nowhere. */
  lemma FireLines(w: Wheel, d: nat)
    requires w.Ok() && w.slots[w.current] != [] && w.slots[w.current][0].repeat == 1
    ensures Direct(Fire(w, []), d) == Direct(Popped(w), d) && Parked(Fire(w, []), d) == Parked(Popped(w), d)
  {
    hide Direct, Parked, Fire, Due, AddsJournal, RearmJournal;
    FireInserts(w, [], d);
    NoJournal(w.Clock(), Key(w.slots[w.current][0]), d);
    assert Direct(Popped(w), d) + [] == Direct(Popped(w), d) && Parked(Popped(w), d) + [] == Parked(Popped(w), d);
  }

  lemma FireLine(w: Wheel, d: nat)
    requires w.Ok() && w.slots[w.current] != [] && w.slots[w.current][0].repeat == 1 && d >= w.Clock()
    ensures Line(w, w.Clock()) != [] && Line(w, w.Clock())[0] == Key(w.slots[w.current][0])
    ensures Line(Fire(w, []), d) == if d == w.Clock() then Line(w, d)[1..] else Line(w, d)
  {
    hide Direct, Parked, Fire;
    PoppedLines(w, d);
    PoppedLines(w, w.Clock());
    FireLines(w, d);
    if d == w.Clock() {
      assert (Direct(w, d) + Parked(w, d))[1..] == Direct(w, d)[1..] + Parked(w, d);
    }
  }

  lemma FireOnly(w: Wheel, u: Ud, due: nat, ks: seq<Timer>)
    requires w.Ok() && w.slots[w.current] != [] && w.slots[w.current][0].repeat == 1
    requires Only(w, u, due, ks) && w.slots[w.current][0].ud != u
    ensures Only(Fire(w, []), u, due, ks)
  {
    var head := Key(w.slots[w.current][0]);
    hide Line, Fire;
    forall d: nat | d >= w.Clock()
      ensures WheelRuns.Of(Line(Fire(w, []), d), u) == if d == due then ks else []
    {
      FireLine(w, d);
      if d == w.Clock() {
        assert Line(w, d)[0] == head;
      }
      assert WheelRuns.Of(Line(w, d), u) == if d == due then ks else [];
    }
  }

  /** The first timer on the slot is due now. */
  lemma HeadIsDue(w: Wheel, u: Ud, due: nat, k: Timer)
    requires w.Ok() && w.slots[w.current] != [] && w.slots[w.current][0].repeat == 1
    requires Only(w, u, due, [k]) && w.slots[w.current][0].ud == u
    ensures due == w.Clock() && Key(w.slots[w.current][0]) == k
  {
    FireLine(w, w.Clock());
    hide Line, Fire;
    var line := Line(w, w.Clock());
    assert WheelRuns.Of(line, u) == if w.Clock() == due then [k] else [];
    assert WheelRuns.Of(line, u) == [line[0]] + WheelRuns.Of(line[1..], u);
    assert WheelRuns.Of(line, u)[0] == line[0];
  }

  lemma AdvanceOnly(w: Wheel, u: Ud, due: nat, k: Timer)
    requires w.Ok() && w.slots[w.current] == [] && due >= w.Clock() && Only(w, u, due, [k])
    ensures Advance(w).Ok() && due >= Advance(w).Clock() && Only(Advance(w), u, due, [k])
  {
    NoneLeft(w.parked, w.Clock() - w.epoch - w.n);
    assert Line(w, w.Clock()) == [];
    assert WheelRuns.Of(Line(w, w.Clock()), u) == [];
    hide Line, Advance, WheelRuns.Of;
    AdvanceLines(w, w.Clock() + 1);
    forall d: nat | d >= Advance(w).Clock()
      ensures WheelRuns.Of(Line(Advance(w), d), u) == if d == due then [k] else []
    {
      AdvanceLines(w, d);
      assert WheelRuns.Of(Line(w, d), u) == if d == due then [k] else [];
    }
  }

  // ---- every step -------------------------------------------------------------------

  lemma {:induction false} TimersAmongUsers(es: seq<Entry>, u: Ud, p: nat)
    ensures Count(es, OfTimer(u, p)) <= Count(es, OfUser(u))
  {
    if es != [] {
      TimersAmongUsers(es[1..], u, p);
    }
  }

  lemma {:induction false} SlotTimersAmongUsers(slots: seq<seq<Entry>>, u: Ud, p: nat)
    ensures SlotCount(slots, OfTimer(u, p)) <= SlotCount(slots, OfUser(u))
  {
    if slots != [] {
      TimersAmongUsers(slots[0], u, p);
      SlotTimersAmongUsers(slots[1..], u, p);
    }
  }

  /** No timer of u is on the wheel while its session has its token elsewhere. */
  lemma TokenElsewhere(s: State, e: nat, x: nat)
    requires Inv(s) && e < |s.envs| && x < SESSIONS
    requires InBox(s.envs[e].box, x) + InHand(s.envs[e], x) > 0 || x !in s.envs[e].cbs
    ensures OnWheel(s.wheel, UdOf(e, x)) == 0
  {
    assert OneToken(s, e, x);
  }

  /** The timer of the session that is armed. */
  lemma ArmTimedSelf(s: State, e: nat)
    requires Good(s) && TicksInv(s) && Enabled(s, Arm(e))
    ensures s.envs[e].hand.value.session < SESSIONS
    ensures Timed(Do(s, Arm(e)), UdOf(e, s.envs[e].hand.value.session))
  {
    var hand := s.envs[e].hand.value;
    var u, q := UdOf(e, hand.session), Req(hand.ticks, UdOf(e, hand.session), 1);
    assert Numbers(s.envs[e]) && InHandTicks(s.envs[e]);
    PartsOf(e, hand.session);
    AddKeeps(s.wheel, q, u);
    TokenElsewhere(s, e, hand.session);
    hide Inv, CallsInv, Only, Add, Listed, Numbers;
    NoLines(s.wheel, u, 0);
    AddOnly(s.wheel, q, u, 0, []);
    ArmCounts(s.wheel, q, OfTimer(u, hand.ticks));
    NoneListed(s.wheel, u, hand.ticks);
  }

  lemma ArmTimed(s: State, e: nat, u: Ud)
    requires Good(s) && TicksInv(s) && Enabled(s, Arm(e))
    ensures Timed(Do(s, Arm(e)), u)
  {
    var hand := s.envs[e].hand.value;
    var q := Req(hand.ticks, UdOf(e, hand.session), 1);
    if u == q.ud {
      ArmTimedSelf(s, e);
    } else {
      assert Timed(s, u);
      AddKeeps(s.wheel, q, u);
      hide Inv, CallsInv, Only, Add, Listed, TicksInv;
      if OnWheel(s.wheel, u) > 0 {
        var p := s.envs[EnvOf(u)].cbs[SessionOf(u)].ticks.value;
        AddOnly(s.wheel, q, u, s.dues[u], [Timer(u, p, 1)]);
        ArmCounts(s.wheel, q, OfTimer(u, p));
      }
    }
  }

  lemma NoneListed(w: Wheel, u: Ud, p: nat)
    ensures Listed(w, OfTimer(u, p)) <= OnWheel(w, u)
  {
    SlotTimersAmongUsers(w.slots, u, p);
    TimersAmongUsers(w.parked, u, p);
  }

  lemma ArmCounts(w: Wheel, q: Req, m: Mark)
    requires w.Ok()
    ensures Listed(Add(w, q), m) == Listed(w, m) + m.On(Entry(Stocked(w).free[0], q.ud, q.timeout, 0, q.repeat))
  {
    var s := Stocked(w);
    PlaceCounts(s.(free := s.free[1..]), Entry(s.free[0], q.ud, q.timeout, 0, q.repeat), q.timeout, m);
  }

  lemma FireNextTimed(s: State, u: Ud)
    requires Good(s) && TicksInv(s) && Enabled(s, FireNext)
    ensures Timed(Do(s, FireNext), u)
  {
    var w, t := s.wheel, Do(s, FireNext);
    var head := w.slots[w.current][0];
    assert AllOnce(w.slots[w.current]) && Timed(s, u);
    FireKeeps(w, u);
    if OnWheel(t.wheel, u) > 0 {
      var e, x := EnvOf(u), SessionOf(u);
      var p := s.envs[e].cbs[x].ticks.value;
      FireOnce(s, u);
      PoppedCounts(w, OfTimer(u, p));
      FireOnly(w, u, s.dues[u], [Timer(u, p, 1)]);
      PostKeepsTables(s.envs, head.ud, e);
    }
  }

  /** The timer that fires is the only one of its session. */
  lemma FireOnce(s: State, u: Ud)
    requires Good(s) && TicksInv(s) && Enabled(s, FireNext) && OnWheel(Fire(s.wheel, []), u) > 0
    ensures s.wheel.slots[s.wheel.current][0].ud != u && OnWheel(s.wheel, u) > 0
  {
    FireKeeps(s.wheel, u);
    assert Timed(s, u);
    UdParts(u);
    assert OneToken(s, EnvOf(u), SessionOf(u));
  }

  lemma PostKeepsTables(envs: seq<Env>, ud: Ud, e: nat)
    requires e < |envs|
    ensures PostOne(envs, ud)[e].cbs == envs[e].cbs && PostOne(envs, ud)[e].hand == envs[e].hand
  {
  }

  lemma EndTickTimed(s: State, u: Ud)
    requires Good(s) && TicksInv(s) && Enabled(s, EndTick)
    ensures Timed(Do(s, EndTick), u)
  {
    assert Timed(s, u);
    AdvanceKeeps(s.wheel, u);
    if OnWheel(s.wheel, u) > 0 {
      var p := s.envs[EnvOf(u)].cbs[SessionOf(u)].ticks.value;
      AdvanceCounts(s.wheel, OfTimer(u, p));
      AdvanceOnly(s.wheel, u, s.dues[u], Timer(u, p, 1));
    }
  }

  /** Steps that leave the wheel alone change the table only for sessions with no timer on it. */
  lemma TableTimed(s: State, a: Step, u: Ud)
    requires Good(s) && TicksInv(s) && Enabled(s, a) && !a.Arm? && !a.FireNext? && !a.EndTick?
    ensures Timed(Do(s, a), u)
  {
    assert Timed(s, u);
    UdParts(u);
    if OnWheel(s.wheel, u) > 0 {
      var e, x := EnvOf(u), SessionOf(u);
      assert OneToken(s, e, x) && Numbers(s.envs[e]);
      if a.OnTimer? {
        HandledIsLive(s, a.env);
      }
    }
  }

  lemma HandsTimed(s: State, a: Step, e: nat)
    requires Good(s) && TicksInv(s) && Enabled(s, a) && e < |s.envs|
    ensures |Do(s, a).envs| == |s.envs| && InHandTicks(Do(s, a).envs[e])
  {
    assert InHandTicks(s.envs[e]);
    if a.FireNext? {
      PostKeepsTables(s.envs, s.wheel.slots[s.wheel.current][0].ud, e);
    }
  }

  lemma StepTicks(s: State, a: Step)
    requires Good(s) && TicksInv(s) && Enabled(s, a)
    ensures TicksInv(Do(s, a))
  {
    StepGood(s, a);
    var t := Do(s, a);
    assert t.wheel.Ok();
    forall u: Ud ensures Timed(t, u) {
      match a
      case Arm(e) => ArmTimed(s, e, u);
      case FireNext => FireNextTimed(s, u);
      case EndTick => EndTickTimed(s, u);
      case _ => TableTimed(s, a, u);
    }
    forall e | 0 <= e < |t.envs| ensures InHandTicks(t.envs[e]) {
      HandsTimed(s, a, e);
    }
  }

  lemma {:induction false} RunTicks(s: State, steps: seq<Step>, t: State)
    requires Good(s) && TicksInv(s) && Runs(s, steps, t)
    ensures Good(t) && TicksInv(t)
    decreases |steps|
  {
    if steps != [] {
      StepGood(s, steps[0]);
      StepTicks(s, steps[0]);
      RunTicks(Do(s, steps[0]), steps[1..], t);
    }
  }

  lemma InitTicks(envn: nat)
    ensures TicksInv(Init(envn))
  {
    hide New, OnWheel;
    NewIsEmpty(100 * 60 * 10, 0);
    forall u: Ud ensures Timed(Init(envn), u) {
      NewIsEmpty(100 * 60 * 10, u);
    }
  }

  /** On every run: a hand that is about to arm a live session, and the timer that is on the wheel for
      it, have the ticks of the call that opened it, and no other timer of the session is there. */
  lemma TicksKept(envn: nat, steps: seq<Step>, t: State, k: nat)
    requires Runs(Init(envn), steps, t) && k < |t.calls| && Live(t, k) && t.calls[k].ticks.Some?
    ensures var c := t.calls[k];
            var e, u, p := t.envs[c.env], UdOf(c.env, c.session), c.ticks.value;
            && (e.hand.Some? && e.hand.value.session == c.session ==> e.hand.value.ticks == p)
            && Listed(t.wheel, OfTimer(u, p)) == OnWheel(t.wheel, u) <= 1
  {
    InitGood(envn);
    InitTicks(envn);
    RunTicks(Init(envn), steps, t);
    var c := t.calls[k];
    var u := UdOf(c.env, c.session);
    assert Matches(t, c.env, c.session) && InHandTicks(t.envs[c.env]) && Numbers(t.envs[c.env]);
    assert OneToken(t, c.env, c.session) && Timed(t, u);
    PartsOf(c.env, c.session);
    NoneListed(t.wheel, u, c.ticks.value);
  }

  /** On every run: arming puts the timer of a session into the line-up of the tick that lies its ticks
      ahead, and the message is posted in that tick. */
  lemma FiresWhenDue(envn: nat, steps: seq<Step>, t: State)
    requires Runs(Init(envn), steps, t) && t.wheel.Ok() && FiresOn(t)
    ensures var ud := t.wheel.slots[t.wheel.current][0].ud;
            && EnvOf(ud) < |t.envs| && Awaited(t.envs[EnvOf(ud)], SessionOf(ud))
            && ud in t.dues && t.dues[ud] == t.wheel.Clock()
            && t.wheel.slots[t.wheel.current][0].timeout == t.envs[EnvOf(ud)].cbs[SessionOf(ud)].ticks.value
  {
    InitGood(envn);
    InitTicks(envn);
    RunTicks(Init(envn), steps, t);
    var head := t.wheel.slots[t.wheel.current][0];
    assert AllOnce(t.wheel.slots[t.wheel.current]) && Timed(t, head.ud);
    FireKeeps(t.wheel, head.ud);
    var p := t.envs[EnvOf(head.ud)].cbs[SessionOf(head.ud)].ticks.value;
    HeadIsDue(t.wheel, head.ud, t.dues[head.ud], Timer(head.ud, p, 1));
  }
}
