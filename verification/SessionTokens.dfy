/** One token for each live session, on every run. */
module SessionTokens {
  import opened Basics
  import opened Doubles
  import opened TimingWheel
  import opened WheelTokens
  import opened Sessions

  function InBox(box: seq<nat>, session: nat): nat {
    if box == [] then 0 else (if box[0] == session then 1 else 0) + InBox(box[1..], session)
  }

  function InHand(e: Env, session: nat): nat {
    (if e.hand.Some? && e.hand.value.session == session then 1 else 0) + if e.flight == Some(session) then 1 else 0
  }

  /** The tokens of a session. */
  function Tokens(s: State, e: nat, session: nat): nat
    requires e < |s.envs|
  {
    OnWheel(s.wheel, UdOf(e, session)) + InBox(s.envs[e].box, session) + InHand(s.envs[e], session)
  }

  ghost predicate Numbers(e: Env) {
    && e.last < SESSIONS && (e.hand.Some? ==> e.hand.value.session < SESSIONS)
    && (e.flight.Some? ==> e.flight.value < SESSIONS)
    && (forall x :: x in e.cbs ==> x < SESSIONS)
    && (forall x :: x in e.box ==> x < SESSIONS)
  }

  /** The session is live, and timeoutRaw has taken its ticks. */
  predicate Awaited(e: Env, session: nat) {
    session in e.cbs && e.cbs[session].ticks.Some?
  }

  ghost predicate OneToken(s: State, e: nat, session: nat)
    requires e < |s.envs|
  {
    Tokens(s, e, session) == if Awaited(s.envs[e], session) then 1 else 0
  }

  ghost predicate Inv(s: State) {
    && Once(s.wheel) && !s.failed
    && (forall e :: 0 <= e < |s.envs| ==> Numbers(s.envs[e]))
    && (forall e, session :: 0 <= e < |s.envs| && 0 <= session < SESSIONS ==> OneToken(s, e, session))
  }

  lemma {:induction false} BoxSnoc(box: seq<nat>, x: nat, session: nat)
    ensures InBox(box + [x], session) == InBox(box, session) + if x == session then 1 else 0
  {
    if box == [] {
      assert [] + [x] == [x] && [x][1..] == [];
    } else {
      BoxSnoc(box[1..], x, session);
      assert (box + [x])[1..] == box[1..] + [x];
    }
  }

  lemma PostKeeps(envs: seq<Env>, ud: Ud, e: nat, session: nat)
    requires e < |envs| && Numbers(envs[e]) && session < SESSIONS
    ensures var r := PostOne(envs, ud);
            && Numbers(r[e]) && r[e] == envs[e].(box := r[e].box)
            && InBox(r[e].box, session) == InBox(envs[e].box, session) + if ud == UdOf(e, session) then 1 else 0
  {
    BoxSnoc(envs[e].box, ud % SESSIONS, session);
  }

  lemma FireNextKeeps(s: State)
    requires Inv(s) && Enabled(s, FireNext)
    ensures Inv(Do(s, FireNext))
  {
    var t, ud := Do(s, FireNext), s.wheel.slots[s.wheel.current][0].ud;
    FireKeeps(s.wheel, 0);
    forall e | 0 <= e < |t.envs| ensures Numbers(t.envs[e]) {
      PostKeeps(s.envs, ud, e, 0);
    }
    forall e, session | 0 <= e < |t.envs| && 0 <= session < SESSIONS ensures OneToken(t, e, session) {
      assert OneToken(s, e, session);
      FireKeeps(s.wheel, UdOf(e, session));
      PostKeeps(s.envs, ud, e, session);
    }
  }

  lemma EndTickKeeps(s: State)
    requires Inv(s) && Enabled(s, EndTick)
    ensures Inv(Do(s, EndTick))
  {
    var t := Do(s, EndTick);
    AdvanceKeeps(s.wheel, 0);
    forall e, session | 0 <= e < |t.envs| && 0 <= session < SESSIONS ensures OneToken(t, e, session) {
      assert OneToken(s, e, session);
      AdvanceKeeps(s.wheel, UdOf(e, session));
    }
  }

  lemma StartTickKeeps(s: State)
    requires Inv(s)
    ensures Inv(Do(s, StartTick))
  {
    var t := Do(s, StartTick);
    forall e, session | 0 <= e < |t.envs| && 0 <= session < SESSIONS ensures OneToken(t, e, session) {
      assert OneToken(s, e, session);
    }
  }

  lemma ArmKeeps(s: State, e: nat)
    requires Inv(s) && Enabled(s, Arm(e))
    ensures Inv(Do(s, Arm(e)))
  {
    var t := Do(s, Arm(e));
    var hand := s.envs[e].hand.value;
    var q := Req(hand.ticks, UdOf(e, hand.session), 1);
    AddKeeps(s.wheel, q, 0);
    forall f, session | 0 <= f < |t.envs| && 0 <= session < SESSIONS ensures OneToken(t, f, session) {
      assert OneToken(s, f, session) && Numbers(s.envs[e]);
      AddKeeps(s.wheel, q, UdOf(f, session));
      UdDistinct(e, hand.session, f, session);
    }
  }

  lemma UdDistinct(e: nat, x: nat, f: nat, y: nat)
    requires x < SESSIONS && y < SESSIONS
    ensures UdOf(e, x) == UdOf(f, y) <==> e == f && x == y
  {
  }

  lemma TimeoutKeeps(s: State, e: nat, x: nat, ticks: Option<nat>, repeatn: Num)
    requires Inv(s) && Enabled(s, Timeout(e, x, ticks, repeatn))
    ensures Inv(Do(s, Timeout(e, x, ticks, repeatn)))
  {
    var t := Do(s, Timeout(e, x, ticks, repeatn));
    forall f, session | 0 <= f < |t.envs| && 0 <= session < SESSIONS ensures OneToken(t, f, session) {
      assert OneToken(s, f, session);
    }
  }

  lemma PopMsgKeeps(s: State, e: nat)
    requires Inv(s) && Enabled(s, PopMsg(e))
    ensures Inv(Do(s, PopMsg(e)))
  {
    var t, x, box := Do(s, PopMsg(e)), s.envs[e].box[0], s.envs[e].box;
    assert Numbers(s.envs[e]) && x in box && forall y :: y in box[1..] ==> y in box;
    forall f, session | 0 <= f < |t.envs| && 0 <= session < SESSIONS ensures OneToken(t, f, session) {
      assert OneToken(s, f, session);
      assert InBox(box, session) == (if x == session then 1 else 0) + InBox(box[1..], session);
    }
  }

  /** The timer message that an env handles is for a live session. */
  lemma HandledIsLive(s: State, e: nat)
    requires Inv(s) && e < |s.envs| && s.envs[e].flight != None
    ensures Awaited(s.envs[e], s.envs[e].flight.value)
  {
    assert Numbers(s.envs[e]) && OneToken(s, e, s.envs[e].flight.value);
  }

  lemma OnTimerKeeps(s: State, e: nat)
    requires Inv(s) && Enabled(s, OnTimer(e))
    ensures Inv(Do(s, OnTimer(e)))
  {
    var t := Do(s, OnTimer(e));
    HandledIsLive(s, e);
    forall f, session | 0 <= f < |t.envs| && 0 <= session < SESSIONS ensures OneToken(t, f, session) {
      assert OneToken(s, f, session) && Numbers(s.envs[e]);
    }
  }

  lemma StepKeeps(s: State, a: Step)
    requires Inv(s) && Enabled(s, a)
    ensures Inv(Do(s, a))
  {
    match a
    case Timeout(e, x, ticks, repeatn) => TimeoutKeeps(s, e, x, ticks, repeatn);
    case Arm(e) => ArmKeeps(s, e);
    case PopMsg(e) => PopMsgKeeps(s, e);
    case OnTimer(e) => OnTimerKeeps(s, e);
    case StartTick => StartTickKeeps(s);
    case FireNext => FireNextKeeps(s);
    case EndTick => EndTickKeeps(s);
  }

  /** From s the steps lead to t. */
  ghost predicate Runs(s: State, steps: seq<Step>, t: State)
    decreases |steps|
  {
    if steps == [] then t == s else s.wheel.Ok() && Enabled(s, steps[0]) && Runs(Do(s, steps[0]), steps[1..], t)
  }

  lemma {:induction false} RunKeeps(s: State, steps: seq<Step>, t: State)
    requires Inv(s) && Runs(s, steps, t)
    ensures Inv(t)
    decreases |steps|
  {
    if steps != [] {
      StepKeeps(s, steps[0]);
      RunKeeps(Do(s, steps[0]), steps[1..], t);
    }
  }

  lemma InitInv(envn: nat)
    ensures Inv(Init(envn))
  {
    hide New, Once, OnWheel;
    NewIsEmpty(100 * 60 * 10, 0);
    forall e, session | 0 <= e < envn && 0 <= session < SESSIONS ensures OneToken(Init(envn), e, session) {
      NewIsEmpty(100 * 60 * 10, UdOf(e, session));
    }
  }

  /** On every run, of any number of envs, ticks and timeouts: a live session has exactly one token
      if timeoutRaw took its ticks, any other none, and "error timer id" does not come up. */
  lemma TokensConserved(envn: nat, steps: seq<Step>, t: State, e: nat, session: nat)
    requires Runs(Init(envn), steps, t) && e < |t.envs| && session < SESSIONS
    ensures Tokens(t, e, session) == (if Awaited(t.envs[e], session) then 1 else 0) && !t.failed
  {
    InitInv(envn);
    RunKeeps(Init(envn), steps, t);
    assert OneToken(t, e, session);
  }
}
