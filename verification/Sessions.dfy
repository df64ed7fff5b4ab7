/**
 Timer sessions from end to end: the session tables of lualib/env.lua, the wheel behind gt.c, and the
 mailboxes by which a firing gets back.  A session that is live has one token, which is on the
 wheel, in the mailbox of its env, or in the hand of the code that is about to put it on the wheel.
 */
module Sessions {
  import opened Basics
  import opened Doubles
  import opened TimingWheel

  const SESSIONS := 0x1_0000_0000

  /** struct ud_t (gt.c:14-17) */
  function UdOf(env: nat, session: nat): Ud { env * SESSIONS + session }

  /** An entry of mTimerCbs (env.lua:29); `call` numbers the call of timeout that made it.  `ticks` is
      what luaL_checkinteger makes of the argument, or none if it raises an error (env.c:122). */
  datatype Callback = Callback(call: nat, ticks: Option<nat>, left: Num)

  datatype Hand = Hand(session: nat, ticks: nat)

  /** `box` holds the sessions of the timer messages in the mailbox, `flight` that of the message that
      a worker has popped and not handled yet, `hand` the arguments of a timeoutRaw that is being made. */
  datatype Env = Env(cbs: map<nat, Callback>, last: nat, box: seq<nat>, flight: Option<nat>, hand: Option<Hand>)

  /** History of a call of timeout: its callback has been invoked so many times. */
  datatype Call = Call(env: nat, session: nat, ticks: Option<nat>, repeatn: Num, invoked: nat)

  /** `round` is there while a tick holds the timer lock: the number of turns its firing loop has left.
      `failed`: the assertion "error timer id" has failed (env.lua:76).  `dues` is history: the tick at
      which the timer armed last for a token is to fire. */
  datatype State = State(
    wheel: Wheel, round: Option<nat>, envs: seq<Env>, calls: seq<Call>, failed: bool, dues: map<Ud, nat>)

  /** The k-th session that the search of timeout looks at. */
  function Nth(last: nat, k: nat): nat { (last + 1 + k) % SESSIONS }

  /** The session that the search ends with: the first one behind the last that is free (env.lua:18-27). */
  ghost predicate Chosen(cbs: map<nat, Callback>, last: nat, session: nat) {
    && session !in cbs && session < SESSIONS
    && exists k :: 0 <= k && session == Nth(last, k) && forall j :: 0 <= j < k ==> Nth(last, j) in cbs
  }

  /** The call of timeoutRaw that is being made; none if it raises an error. */
  function HandOf(session: nat, ticks: Option<nat>): Option<Hand> {
    if ticks.Some? then Some(Hand(session, ticks.value)) else None
  }

  /** env:timeout up to timeoutRaw (env.lua:13-30); an error comes when the session is entered already. */
  function Opened(e: Env, session: nat, call: nat, ticks: Option<nat>, repeatn: Num): Env {
    e.(last := session, cbs := e.cbs[session := Callback(call, ticks, repeatn)], hand := HandOf(session, ticks))
  }

  /** c_onTimer for a session that is live (env.lua:66-73). */
  function Handled(e: Env, session: nat): Env
    requires session in e.cbs
  {
    var cb := e.cbs[session];
    if Less(cb.left).Done() then e.(cbs := e.cbs - {session})
    else e.(cbs := e.cbs[session := cb.(left := Less(cb.left))], hand := HandOf(session, cb.ticks))
  }

  /** The message that the callback of a firing posts (gt.c:19-30). */
  function PostOne(envs: seq<Env>, ud: Ud): (r: seq<Env>)
    ensures |r| == |envs|
  {
    var env, session := ud / SESSIONS, ud % SESSIONS;
    if env < |envs| then envs[env := envs[env].(box := envs[env].box + [session])] else envs
  }

  function Post(envs: seq<Env>, fs: seq<Firing>): (r: seq<Env>)
    ensures |r| == |envs|
    decreases |fs|
  {
    if fs == [] then envs else Post(PostOne(envs, fs[0].ud), fs[1..])
  }

  datatype Step =
    | Timeout(env: nat, session: nat, ticks: Option<nat>, repeatn: Num)  // env:timeout, up to timeoutRaw
    | Arm(env: nat)                                               // timeoutRaw: gt_add
    | PopMsg(env: nat)                                            // a worker pops the next timer message
    | OnTimer(env: nat)                                           // c_onTimer for that message
    | StartTick                                                   // gt_update takes the timer lock
    | FireNext                                                    // one turn of the firing loop: a message is posted
    | EndTick                                                     // the clock moves on; the lock is released

  predicate FiresOn(s: State)
    requires s.wheel.Ok()
  {
    s.round.Some? && s.round.value > 0 && s.wheel.slots[s.wheel.current] != []
  }

  ghost predicate Enabled(s: State, a: Step)
    requires s.wheel.Ok()
  {
    match a
    case Timeout(e, session, ticks, repeatn) =>
      e < |s.envs| && s.envs[e].hand == None && Chosen(s.envs[e].cbs, s.envs[e].last, session) && repeatn.Wf()
    case Arm(e) => e < |s.envs| && s.envs[e].hand != None && s.round == None
    case PopMsg(e) => e < |s.envs| && s.envs[e].hand == None && s.envs[e].flight == None && s.envs[e].box != []
    case OnTimer(e) => e < |s.envs| && s.envs[e].hand == None && s.envs[e].flight != None
    case StartTick => s.round == None
    case FireNext => FiresOn(s)
    case EndTick => s.round.Some? && !FiresOn(s)
  }

  function Do(s: State, a: Step): State
    requires s.wheel.Ok() && (a.Timeout? || a.Arm? || a.PopMsg? || a.OnTimer? ==> a.env < |s.envs|)
    requires (a.Arm? ==> s.envs[a.env].hand != None) && (a.PopMsg? ==> s.envs[a.env].box != [])
    requires (a.OnTimer? ==> s.envs[a.env].flight != None) && (a.FireNext? ==> FiresOn(s))
  {
    match a
    case Timeout(e, session, ticks, repeatn) =>
      s.(envs := s.envs[e := Opened(s.envs[e], session, |s.calls|, ticks, repeatn)],
         calls := s.calls + [Call(e, session, ticks, repeatn, 0)])
    case Arm(e) =>
      var hand := s.envs[e].hand.value;
      s.(wheel := Add(s.wheel, Req(hand.ticks, UdOf(e, hand.session), 1)),
         envs := s.envs[e := s.envs[e].(hand := None)],
         dues := s.dues[UdOf(e, hand.session) := s.wheel.Clock() + hand.ticks])
    case PopMsg(e) =>
      s.(envs := s.envs[e := s.envs[e].(flight := Some(s.envs[e].box[0]), box := s.envs[e].box[1..])])
    case OnTimer(e) =>
      var session, env := s.envs[e].flight.value, s.envs[e].(flight := None);
      if session !in env.cbs then s.(failed := true, envs := s.envs[e := env]) else
      var k := env.cbs[session].call;
      s.(envs := s.envs[e := Handled(env, session)],
         calls := if k < |s.calls| then s.calls[k := s.calls[k].(invoked := s.calls[k].invoked + 1)] else s.calls)
    case StartTick => s.(round := Some(|s.wheel.slots[s.wheel.current]|))
    case FireNext =>
      s.(wheel := Fire(s.wheel, []), round := Some(s.round.value - 1),
         envs := PostOne(s.envs, s.wheel.slots[s.wheel.current][0].ud))
    case EndTick => s.(wheel := Advance(s.wheel), round := None)
  }

  /** gt_init (gt.c:32-37) and __init of the envs (env.lua:6-10). */
  function Init(envn: nat): State {
    State(New(100 * 60 * 10), None, seq(envn, i => Env(map[], 0, [], None, None)), [], false, map[])
  }

  /** The steps of a whole tick, when nobody comes between. */
  function RestOfTick(s: State): State
    requires s.wheel.Ok() && s.round.Some?
    decreases s.round.value
  {
    if FiresOn(s) then RestOfTick(Do(s, FireNext)) else Do(s, EndTick)
  }

  /** They do what gt_update does as a whole: a tick, and the messages of its firings in order. */
  lemma {:induction false} TickOfSteps(s: State)
    requires s.wheel.Ok() && s.round.Some?
    ensures RestOfTick(s) == s.(wheel := Advance(FireAll(s.wheel, s.round.value, [])), round := None,
                                envs := Post(s.envs, Firings(s.wheel, s.round.value, [])))
    decreases s.round.value
  {
    hide Fire, Advance;
    if FiresOn(s) {
      TickOfSteps(Do(s, FireNext));
      FiringsCons(s.wheel, s.round.value);
    }
  }

  lemma FiringsCons(w: Wheel, num: nat)
    requires w.Ok() && num > 0 && w.slots[w.current] != []
    ensures var fs := Firings(w, num, []);
            fs != [] && fs[0].ud == w.slots[w.current][0].ud && fs[1..] == Firings(Fire(w, []), num - 1, [])
  {
    var e := w.slots[w.current][0];
    var rest := Firings(Fire(w, []), num - 1, []);
    assert Firings(w, num, []) == [Firing(e.ud, e.id, e.repeat == 1)] + rest;
  }
}
