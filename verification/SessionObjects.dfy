/** lualib/env.lua and gt.c in place. */
module SessionObjects {
  import opened Basics
  import opened Doubles
  import opened TimingWheel
  import opened TimerObjects
  import opened Sessions

  lemma {:induction false} AllSessions(keys: set<nat>, n: nat)
    requires forall x :: 0 <= x < n ==> x in keys
    ensures |keys| >= n
  {
    if n > 0 {
      AllSessions(keys - {n - 1}, n - 1);
    }
  }

  lemma NextNth(last: nat, k: nat)
    ensures Nth(last, k + 1) == if Nth(last, k) == SESSIONS - 1 then 0 else Nth(last, k) + 1
  {
  }

  /** When as many sessions as there are have been looked at, all have been. */
  lemma WholeRound(last: nat, keys: set<nat>)
    requires last < SESSIONS && forall j :: 0 <= j < SESSIONS ==> Nth(last, j) in keys
    ensures |keys| >= SESSIONS
  {
    forall x | 0 <= x < SESSIONS ensures x in keys {
      var j := if x > last then x - last - 1 else x + SESSIONS - last - 1;
      assert Nth(last, j) == x;
    }
    AllSessions(keys, SESSIONS);
  }

  /** The tables of an env (env.lua:6-10); `armed` lists the calls of timeoutRaw. */
  class LuaEnv {
    var mTimerCbs: map<nat, Callback>
    var mTimerSession: nat
    var armed: seq<Hand>

    constructor ()
      ensures mTimerCbs == map[] && mTimerSession == 0 && armed == []
    {
      mTimerCbs, mTimerSession, armed := map[], 0, [];
    }

    /** env:timeout (env.lua:13-32).  The search ends as some session is free, and it finds the first
        free one behind the last; `func` stands for the callback and its arguments.  Ticks that are
        refused raise an error when the session is entered already, which nobody takes back. */
    method Timeout(ticks: Option<nat>, repeatn: Option<Num>, func: nat) returns (session: nat, raised: bool)
      requires mTimerSession < SESSIONS && |mTimerCbs| < SESSIONS
      modifies this
      ensures Chosen(old(mTimerCbs), old(mTimerSession), session)
      ensures var count := if repeatn.Some? then repeatn.value else Finite(1.0);
              mTimerCbs == old(mTimerCbs)[session := Callback(func, ticks, count)]
      ensures mTimerSession == session && raised == (ticks == None)
      ensures armed == old(armed) + if raised then [] else [Hand(session, ticks.value)]
    {
      var sess := mTimerSession + 1;
      ghost var k := 0;
      while true
        invariant 0 <= k < SESSIONS && Nth(mTimerSession, k) == if sess == SESSIONS then 0 else sess
        invariant forall j :: 0 <= j < k ==> Nth(mTimerSession, j) in mTimerCbs
        invariant mTimerCbs == old(mTimerCbs) && mTimerSession == old(mTimerSession) && armed == old(armed)
        decreases SESSIONS - k
      {
        if sess > 0xffff_ffff {
          sess := 0;
        }
        assert sess == Nth(mTimerSession, k);
        if sess !in mTimerCbs {
          break;
        }
        if k == SESSIONS - 1 {
          WholeRound(mTimerSession, mTimerCbs.Keys);
        }
        NextNth(mTimerSession, k);
        sess := sess + 1;
        k := k + 1;
      }
      mTimerSession := sess;
      mTimerCbs := mTimerCbs[sess := Callback(func, ticks, if repeatn.Some? then repeatn.value else Finite(1.0))];
      session := sess;
      raised := TimeoutRaw(ticks, sess);
    }

    /** c_timeoutRaw (env.c:120-126), up to the timer. */
    method TimeoutRaw(ticks: Option<nat>, session: nat) returns (raised: bool)
      modifies `armed
      ensures raised == (ticks == None)
      ensures armed == old(armed) + if ticks == None then [] else [Hand(session, ticks.value)]
    {
      if ticks == None {
        return true;
      }
      armed := armed + [Hand(session, ticks.value)];
      raised := false;
    }

    /** c_onTimer (env.lua:65-78); the result is the callback called, if the session is live and
        timeoutRaw raises no error. */
    method OnTimer(sess: nat) returns (func: Option<nat>)
      modifies this
      ensures mTimerSession == old(mTimerSession)
      ensures sess !in old(mTimerCbs) ==> func == None && mTimerCbs == old(mTimerCbs) && armed == old(armed)
      ensures sess in old(mTimerCbs) ==>
                var cb, left := old(mTimerCbs)[sess], Less(old(mTimerCbs)[sess].left);
                if left.Done() then mTimerCbs == old(mTimerCbs) - {sess} && armed == old(armed) && func == Some(cb.call)
                else
                  && mTimerCbs == old(mTimerCbs)[sess := cb.(left := left)]
                  && (if cb.ticks == None then armed == old(armed) && func == None
                      else armed == old(armed) + [Hand(sess, cb.ticks.value)] && func == Some(cb.call))
      ensures sess in old(mTimerCbs) ==>
                var now := Handled(Env(old(mTimerCbs), mTimerSession, [], None, None), sess);
                mTimerCbs == now.cbs && armed == old(armed) + if now.hand == None then [] else [now.hand.value]
    {
      if sess !in mTimerCbs {
        return None;
      }
      var callback := mTimerCbs[sess];
      callback := callback.(left := Less(callback.left));
      mTimerCbs := mTimerCbs[sess := callback];
      if callback.left.Done() {
        mTimerCbs := mTimerCbs - {sess};
      } else {
        var raised := TimeoutRaw(callback.ticks, sess);
        if raised {
          return None;
        }
      }
      func := Some(callback.call);
    }
  }

  /** gt_t (gt.c:8-11), and the envs to whose mailboxes it posts; the lock is that of a whole method. */
  class Gt {
    const timer: TimerWheel
    var envs: seq<Env>

    /** gt_init (gt.c:32-37) */
    constructor (envs: seq<Env>)
      ensures timer.Valid({}, {}) && timer.Shows(New(100 * 60 * 10)) && this.envs == envs
      ensures fresh(timer) && fresh(timer.queues) && timer.nodes == {}
    {
      timer := new TimerWheel(100 * 60 * 10);
      this.envs := envs;
    }

    /** gt_add (gt.c:45-52) */
    method Add(from: nat, ticks: nat, session: nat, ghost w: Wheel)
      requires timer.Valid({}, {}) && timer.Shows(w)
      modifies timer, timer.queues, timer.nodes
      ensures old(timer.nodes) <= timer.nodes && fresh(timer.nodes - old(timer.nodes))
      ensures w.Ok() && timer.Valid({}, {}) && timer.Shows(TimingWheel.Add(w, Req(ticks, UdOf(from, session), 1)))
    {
      hide *;
      timer.ShowsOk(w);
      var tid := timer.TimerAdd(ticks, UdOf(from, session), 1, w, {});
    }

    /** _cb (gt.c:19-30) */
    method Posted(ud: Ud)
      modifies `envs
      ensures envs == PostOne(old(envs), ud)
    {
      var from, session := ud / SESSIONS, ud % SESSIONS;
      if from < |envs| {
        envs := envs[from := envs[from].(box := envs[from].box + [session])];
      }
    }

    /** gt_update (gt.c:54-58): the loop of timer_tick (timer.c:104-119) with the callback that every
        timer here has, and the end of the tick. */
    method Update(ghost w: Wheel)
      requires timer.Valid({}, {}) && timer.Shows(w)
      modifies `envs, timer, timer.queues, timer.nodes
      ensures old(timer.nodes) <= timer.nodes && fresh(timer.nodes - old(timer.nodes))
      ensures w.Ok() && timer.Valid({}, {}) && timer.Shows(Tick(w, []))
      ensures envs == Post(old(envs), TickFirings(w, []))
    {
      hide TimerWheel.Valid, TimerWheel.Shows, FireAll, Firings, Finish, Popped, Advance, Post;
      timer.SlotSize(w);
      var slot := timer.current % |timer.ticklist|;
      var left := timer.ticklist[slot].objn;
      ghost var v, end, posted := w, FireAll(w, left, []), Post(envs, Firings(w, left, []));
      while left > 0
        invariant old(timer.nodes) <= timer.nodes && fresh(timer.nodes - old(timer.nodes))
        invariant timer.Valid({}, {}) && timer.Shows(v) && v.Ok() && v.current == slot < |timer.ticklist|
        invariant FireAll(v, left, []) == end && Post(envs, Firings(v, left, [])) == posted
      {
        PostFirst(v, left, envs);
        left := left - 1;
        var tobj, f := timer.StartFire(slot, v);
        if tobj == null {
          break;
        }
        Posted(f.ud);
        timer.Rearm(tobj, f.erased, Popped(v), v.slots[slot][0]);
        v := Fire(v, []);
      }
      if left == 0 {
        PostNone(v, envs);
      }
      timer.AdvanceClock(v);
    }
  }

  lemma PostFirst(w: Wheel, num: nat, envs: seq<Env>)
    requires w.Ok() && num > 0
    ensures w.slots[w.current] == [] ==> FireAll(w, num, []) == w && Post(envs, Firings(w, num, [])) == envs
    ensures w.slots[w.current] != [] ==>
              && FireAll(w, num, []) == FireAll(Fire(w, []), num - 1, [])
              && Post(envs, Firings(w, num, [])) ==
                  Post(PostOne(envs, w.slots[w.current][0].ud), Firings(Fire(w, []), num - 1, []))
  {
    hide Fire;
    if w.slots[w.current] != [] {
      FiringsCons(w, num);
    }
  }

  lemma PostNone(w: Wheel, envs: seq<Env>)
    requires w.Ok()
    ensures FireAll(w, 0, []) == w && Post(envs, Firings(w, 0, [])) == envs
  {
  }
}
