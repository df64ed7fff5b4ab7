/** Properties of every run of the scheduler, for any number of threads and mailboxes. */
module SchedulerRuns {
  import opened Basics
  import opened Links
  import opened Scheduler
  import opened SchedulerInv

  /** What the threads try, in order.  A step that is not possible is a wait. */
  type Schedule = seq<(Tid, Choice)>

  ghost function Next(s: State, t: Tid, c: Choice): State {
    if Ranges(s) && Enabled(s, t, c) then Step(s, t, c) else s
  }

  ghost function Exec(s: State, run: Schedule): State
    decreases |run|
  {
    if run == [] then s else Exec(Next(s, run[0].0, run[0].1), run[1..])
  }

  lemma InitInv(threads: nat, boxes: nat)
    ensures Inv(Init(threads, boxes))
  {
    var s := Init(threads, boxes);
    forall t | 0 <= t < threads ensures ThreadInv(s, t) {
      assert s.threads[t] == At(Outside);
    }
    forall m | 0 <= m < boxes ensures BoxOwned(s, m) && BoxData(s, m) && Status(s, m) {
      assert s.boxes[m] == Box(None, EMPTY, false, None, [], []);
    }
  }

  lemma {:induction false} ExecInv(s: State, run: Schedule)
    requires Inv(s)
    ensures Inv(Exec(s, run)) && |Exec(s, run).threads| == |s.threads| && |Exec(s, run).boxes| == |s.boxes|
    decreases |run|
  {
    if run != [] {
      var t, c := run[0].0, run[0].1;
      InvRanges(s);
      if Enabled(s, t, c) {
        StepInv(s, t, c);
        StepOfThread(s, t, c);
      }
      ExecInv(Next(s, t, c), run[1..]);
    }
  }

  ghost predicate Reachable(s: State) {
    exists threads: nat, boxes: nat, run: Schedule :: s == Exec(Init(threads, boxes), run)
  }

  lemma ReachableInv(s: State)
    requires Reachable(s)
    ensures Inv(s)
  {
    var threads: nat, boxes: nat, run: Schedule :| s == Exec(Init(threads, boxes), run);
    InitInv(threads, boxes);
    ExecInv(Init(threads, boxes), run);
  }

  // ---- exclusion -------------------------------------------------------------------

  /** No mailbox is run by two threads, listed twice, or listed while it is run. */
  lemma Exclusion(s: State)
    requires Reachable(s)
    ensures forall t, u :: 0 <= t < u < |s.threads| && Runs(s.threads[t]).Some? ==>
            Runs(s.threads[t]) != Runs(s.threads[u])
    ensures forall t :: 0 <= t < |s.threads| && Runs(s.threads[t]).Some? ==> Runs(s.threads[t]).value !in s.gl.items
    ensures Distinct(s.gl.items)
  {
    ReachableInv(s);
    forall t | 0 <= t < |s.threads| && Runs(s.threads[t]).Some?
      ensures Runs(s.threads[t]).value < |s.boxes| && s.boxes[Runs(s.threads[t]).value].runner == Some(t)
      ensures Runs(s.threads[t]).value !in s.gl.items
    {
      assert ThreadInv(s, t) && Status(s, Runs(s.threads[t]).value);
    }
  }

  // ---- no message is lost or reordered ---------------------------------------------

  /** Everything ever pushed is, in lock order, what was handled, then what the thread that
      runs the mailbox has in flight, then what is queued. */
  lemma FifoNoLoss(s: State, m: Mq)
    requires Reachable(s) && m < |s.boxes|
    ensures Linked(s.boxes[m].list, s.msgNext)
    ensures forall t :: 0 <= t < |s.threads| && Runs(s.threads[t]) == Some(m) ==>
              s.boxes[m].pushed == s.boxes[m].handled + Flight(s.threads[t]) + s.boxes[m].list.items
    ensures (forall t :: 0 <= t < |s.threads| ==> Runs(s.threads[t]) != Some(m)) ==>
              s.boxes[m].pushed == s.boxes[m].handled + s.boxes[m].list.items
  {
    ReachableInv(s);
    FifoOfRunner(s, m);
    forall t | 0 <= t < |s.threads| && Runs(s.threads[t]) == Some(m)
      ensures InFlight(s, m) == Flight(s.threads[t])
    {
      assert ThreadInv(s, t);
    }
  }

  lemma FifoOfRunner(s: State, m: Mq)
    requires Inv(s) && m < |s.boxes|
    ensures BoxOwned(s, m) && Linked(s.boxes[m].list, s.msgNext)
    ensures s.boxes[m].pushed == s.boxes[m].handled + InFlight(s, m) + s.boxes[m].list.items
    ensures s.boxes[m].runner.None? ==> s.boxes[m].pushed == s.boxes[m].handled + s.boxes[m].list.items
  {
    assert BoxOwned(s, m) && BoxData(s, m);
    assert s.boxes[m].handled + [] == s.boxes[m].handled;
  }

  /** A non-empty mailbox is listed, run by a thread, or locked by a poster about to list it. */
  lemma NeverStranded(s: State, m: Mq)
    requires Reachable(s) && m < |s.boxes| && s.boxes[m].list.head.Some?
    ensures m in s.gl.items
         || (exists t :: 0 <= t < |s.threads| && Runs(s.threads[t]) == Some(m))
         || (exists t :: 0 <= t < |s.threads| && s.boxes[m].lock == Some(t) && AboutToList(s.threads[t], m))
  {
    ReachableInv(s);
    assert BoxOwned(s, m) && BoxData(s, m) && Status(s, m);
  }

  /** A mailbox is still there, and its two histories have only been appended to. */
  ghost predicate Later(s: State, s': State, m: Mq) {
    m < |s.boxes| <= |s'.boxes| && s.boxes[m].pushed <= s'.boxes[m].pushed && s.boxes[m].handled <= s'.boxes[m].handled
  }

  lemma PostHistory(s: State, t: Tid, m: Mq)
    requires Ranges(s) && t < |s.threads| && m < |s.boxes|
    ensures Later(s, PostStep(s, t), m)
  {
    hide PushNext, Push;
    match s.threads[t]
    case PLock(_, _, _) =>
    case PPush(_, _, _) =>
    case _ =>
  }

  lemma EndHistory(s: State, t: Tid, m: Mq)
    requires Ranges(s) && t < |s.threads| && m < |s.boxes|
    ensures Later(s, EndStep(s, t), m)
  {
    hide PushNext, Push;
  }

  /** One step only appends to the two histories of a mailbox. */
  lemma HistoryStep(s: State, t: Tid, c: Choice, m: Mq)
    requires Ranges(s) && Enabled(s, t, c) && m < |s.boxes|
    ensures Later(s, Step(s, t, c), m)
  {
    hide PostStep, EndStep, Links.Pop;
    var pc := s.threads[t];
    if Ending(pc) {
      EndHistory(s, t, m);
    } else if Posting(pc) {
      PostHistory(s, t, m);
    }
  }

  /** What was pushed or handled once stays, in the same place, for the rest of the run. */
  lemma {:induction false} HistoryOnlyGrows(s: State, run: Schedule, m: Mq)
    requires Inv(s) && m < |s.boxes|
    ensures m < |Exec(s, run).boxes|
    ensures s.boxes[m].pushed <= Exec(s, run).boxes[m].pushed
    ensures s.boxes[m].handled <= Exec(s, run).boxes[m].handled
    decreases |run|
  {
    if run != [] {
      var t, c := run[0].0, run[0].1;
      InvRanges(s);
      if Enabled(s, t, c) {
        HistoryStep(s, t, c, m);
        StepInv(s, t, c);
      }
      HistoryOnlyGrows(Next(s, t, c), run[1..], m);
    }
  }

  // ---- the asserts of the source ---------------------------------------------------

  /** The asserts guarding an append to a list (gq.c:41, 45, 117, 121). */
  predicate AppendAsserts(l: List, next: seq<Option<nat>>) {
    if l.tail.Some? then l.tail.value < |next| && next[l.tail.value].None? else l.head.None?
  }

  /** The assert on the last removal from a list (gq.c:58, 105). */
  predicate RemoveAsserts(l: List, next: seq<Option<nat>>) {
    l.head.Some? ==> l.head.value < |next| && (next[l.head.value].None? ==> l.tail == l.head)
  }

  /** Every assert that thread t may be about to evaluate.  The one at gq.c:131 reads mNext
      without the lock of the global queue. */
  ghost predicate SourceAsserts(s: State, t: Tid)
    requires t < |s.threads|
  {
    var pc := s.threads[t];
    && (pc.PPush? ==> pc.mq < |s.boxes| && AppendAsserts(s.boxes[pc.mq].list, s.msgNext))
    && (pc.MTake? ==> pc.mq < |s.boxes| && RemoveAsserts(s.boxes[pc.mq].list, s.msgNext))
    && (pc.GTake? ==> RemoveAsserts(s.gl, s.mNext))
    && (pc.PLink? || pc.ELink? ==> AppendAsserts(s.gl, s.mNext))
    && (pc.PTest? ==> pc.mq < |s.boxes| == |s.mNext| && (!s.boxes[pc.mq].isG ==> s.mNext[pc.mq].None?))
    && (pc.ETest? ==> pc.mq < |s.boxes| && s.boxes[pc.mq].isG)
  }

  lemma LinkedAsserts(l: List, next: seq<Option<nat>>)
    requires Linked(l, next)
    ensures AppendAsserts(l, next) && RemoveAsserts(l, next)
  {
    if l.items != [] {
      assert next[l.items[0]] == After(l.items, 0);
      assert next[l.items[|l.items| - 1]] == After(l.items, |l.items| - 1);
    }
  }

  lemma AssertsHold(s: State, t: Tid)
    requires Reachable(s) && t < |s.threads|
    ensures SourceAsserts(s, t)
  {
    ReachableInv(s);
    assert ThreadInv(s, t);
    LinkedAsserts(s.gl, s.mNext);
    var pc := s.threads[t];
    if pc.PPush? || pc.MTake? || pc.PTest? || pc.ETest? {
      assert BoxData(s, pc.mq) && Status(s, pc.mq);
      LinkedAsserts(s.boxes[pc.mq].list, s.msgNext);
    }
  }

  // ---- no deadlock -----------------------------------------------------------------

  predicate HoldsALock(pc: Pc) {
    HoldsG(pc) || HoldsT(pc) || HoldsM(pc).Some?
  }

  /** The thread that holds a lock can itself step, or leads to one that can. */
  ghost predicate SomeHolderCanStep(s: State) {
    exists u, c :: 0 <= u < |s.threads| && HoldsALock(s.threads[u]) && Enabled(s, u, c) && (c.Go? || c.Finish?)
  }

  lemma GlobalHolderSteps(s: State)
    requires Inv(s) && s.gLock.Some?
    ensures SomeHolderCanStep(s)
  {
    assert ThreadInv(s, s.gLock.value);
    assert Enabled(s, s.gLock.value, Go);
  }

  lemma BoxHolderSteps(s: State, m: Mq)
    requires Inv(s) && m < |s.boxes| && s.boxes[m].lock.Some?
    ensures SomeHolderCanStep(s)
  {
    var u := s.boxes[m].lock.value;
    assert BoxOwned(s, m);
    if s.gLock.Some? {
      GlobalHolderSteps(s);
    } else {
      assert Enabled(s, u, Go);
    }
  }

  lemma TimerHolderSteps(s: State)
    requires Inv(s) && s.tLock.Some?
    ensures SomeHolderCanStep(s)
  {
    var u := s.tLock.value;
    assert ThreadInv(s, u);
    var pc := s.threads[u];
    if pc.PLock? && s.boxes[pc.mq].lock.Some? {
      BoxHolderSteps(s, pc.mq);
    } else if s.gLock.Some? {
      GlobalHolderSteps(s);
    } else if pc.At? {
      assert Enabled(s, u, Finish);
    } else {
      assert Enabled(s, u, Go);
    }
  }

  /** Thread t spins on a lock: inside a call, or because it wants to start c. */
  predicate Spins(s: State, t: Tid, c: Choice) {
    t < |s.threads| &&
    var pc := s.threads[t];
    if pc.At? then
      || (pc.ctx.Outside? && c.Pop? && s.gLock.Some?)
      || (pc.ctx.Outside? && c.Tick? && s.tLock.Some?)
      || (pc.ctx.Handling? && c.AddTimer? && s.tLock.Some?)
    else
      c.Go? && !Enabled(s, t, c)
  }

  /** The lock order timer, mailbox, global excludes deadlock: whenever a thread spins, some
      thread that holds a lock can step. */
  lemma NoDeadlock(s: State, t: Tid, c: Choice)
    requires Reachable(s) && Spins(s, t, c)
    ensures SomeHolderCanStep(s)
  {
    ReachableInv(s);
    SpinningEnds(s, t, c);
  }

  lemma SpinningEnds(s: State, t: Tid, c: Choice)
    requires Inv(s) && Spins(s, t, c)
    ensures SomeHolderCanStep(s)
  {
    var pc := s.threads[t];
    assert ThreadInv(s, t);
    if s.gLock.Some? {
      GlobalHolderSteps(s);
    } else if pc.At? {
      TimerHolderSteps(s);
    } else {
      BoxHolderSteps(s, pc.mq);
    }
  }
}
