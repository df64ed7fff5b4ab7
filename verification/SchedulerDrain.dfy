/**
 Once nothing new is posted, the workers drain everything.

 Every step that does not start a post, a tick, a gt_add or an empty gq_pop lowers `Work`,
 a step is always possible until all is drained, and then nothing is left anywhere.
 */
module SchedulerDrain {
  import opened Basics
  import opened Links
  import opened Scheduler
  import opened SchedulerInv
  import opened SchedulerRuns

  // ---- sums ------------------------------------------------------------------------

  function Sum(xs: seq<nat>): nat {
    if xs == [] then 0 else xs[0] + Sum(xs[1..])
  }

  lemma {:induction false} SumChange(xs: seq<nat>, ys: seq<nat>, i: nat)
    requires i < |xs| == |ys|
    requires forall k :: 0 <= k < |xs| && k != i ==> xs[k] == ys[k]
    ensures Sum(xs) + ys[i] == Sum(ys) + xs[i]
  {
    if i == 0 {
      assert xs[1..] == ys[1..];
    } else {
      assert xs[0] == ys[0];
      SumChange(xs[1..], ys[1..], i - 1);
    }
  }

  /** A sum in which entry i has changed and entry j may have grown by d. */
  lemma SumChangeTwo(xs: seq<nat>, ys: seq<nat>, i: nat, j: nat, d: nat)
    requires i < |xs| == |ys| && j < |xs|
    requires forall k :: 0 <= k < |xs| && k != i && k != j ==> xs[k] == ys[k]
    requires j != i ==> ys[j] <= xs[j] + d
    ensures Sum(ys) + xs[i] <= Sum(xs) + ys[i] + d
  {
    var mid := xs[i := ys[i]];
    SumChange(xs, mid, i);
    if j == i {
      assert mid == ys;
    } else {
      SumChange(mid, ys, j);
    }
  }

  // ---- the measure -----------------------------------------------------------------

  const LISTED := 16  // weight of a listed mailbox
  const QUEUED := 8   // weight of a queued message

  /** Extra weight of a worker that found its mailbox empty, when it no longer is. */
  function Stale(s: State, m: Mq): nat {
    if m < |s.boxes| && s.boxes[m].list.items != [] then LISTED else 0
  }

  function CtxWeight(c: Ctx): nat {
    match c
    case Outside => 1
    case Ticking => 2
    case Handling(_, _) => 12
  }

  function Weight(s: State, pc: Pc): nat {
    match pc
    case At(c) => CtxWeight(c)
    case PUnlock(_, c) => CtxWeight(c) + 1
    case PSetG(_, c) => CtxWeight(c) + 2
    case PUnlockG(_, c) => CtxWeight(c) + 3
    case PLink(_, c) => CtxWeight(c) + 4 + LISTED
    case PLockG(_, c) => CtxWeight(c) + 5 + LISTED
    case PTest(_, c) => CtxWeight(c) + 6 + LISTED
    case PPush(_, _, c) => CtxWeight(c) + 7 + 2 * LISTED + QUEUED
    case PLock(_, _, c) => CtxWeight(c) + 8 + 2 * LISTED + QUEUED
    case GTake => if s.gl.items == [] then 3 else 0
    case GUnlock(got) => if got.Some? then 12 else 2
    case MUnlock(m, taken) => if taken.Some? then 13 else 9 + Stale(s, m)
    case MLock(_) => 11
    case MTake(_) => 10
    case ELock(m) => 8 + Stale(s, m)
    case ETest(m) => 7 + Stale(s, m)
    case ELockG(_) => 6 + LISTED
    case ELink(_) => 5 + LISTED
    case EUnlockG(_) => 4
    case EUnlock(_) => 3
    case TAdd(_, _) => 13
  }

  function Weights(s: State): seq<nat> {
    seq(|s.threads|, t requires 0 <= t < |s.threads| => Weight(s, s.threads[t]))
  }

  function Queued(s: State): seq<nat> {
    seq(|s.boxes|, m requires 0 <= m < |s.boxes| => |s.boxes[m].list.items|)
  }

  function Work(s: State): nat {
    Sum(Weights(s)) + LISTED * |s.gl.items| + QUEUED * Sum(Queued(s))
  }

  // ---- one step --------------------------------------------------------------------

  /** Steps that start nothing new. */
  predicate Quiet(c: Choice) {
    c.Go? || c.Pop? || c.Finish?
  }

  /** A worker calls gq_pop while no mailbox is listed. */
  predicate StartsEmptyPop(s: State, t: Tid, c: Choice) {
    t < |s.threads| && s.threads[t] == At(Outside) && c.Pop? && s.gl.items == []
  }

  /** The length of one queue. */
  function Length(s: State, m: Option<Mq>): nat {
    if m.Some? && m.value < |s.boxes| then |s.boxes[m.value].list.items| else 0
  }

  /** What the step adds to the weight of another thread: a push may make one worker stale. */
  function Disturbance(s: State, t: Tid): nat
    requires t < |s.threads|
  {
    if s.threads[t].PPush? then LISTED else 0
  }

  /** The share of the work that a step of t can change, apart from the weights of other threads. */
  function Share(s: State, t: Tid, m: Option<Mq>): nat
    requires t < |s.threads|
  {
    Weight(s, s.threads[t]) + LISTED * |s.gl.items| + QUEUED * Length(s, m)
  }

  predicate Lowers(s: State, s': State, t: Tid, m: Option<Mq>)
    requires t < |s.threads| == |s'.threads|
  {
    Share(s', t, m) + Disturbance(s, t) < Share(s, t, m)
  }

  lemma DecideLowers(s: State, t: Tid, c: Choice)
    requires Ranges(s) && t < |s.threads| && s.threads[t].At? && Enabled(s, t, c) && Quiet(c)
    ensures var s', m := Decide(s, t, c), Target(s, t);
            if StartsEmptyPop(s, t, c) then Share(s', t, m) == Share(s, t, m) + 2 else Lowers(s, s', t, m)
  {
  }

  lemma PostLowers(s: State, t: Tid)
    requires Ranges(s) && t < |s.threads| && Posting(s.threads[t]) && Enabled(s, t, Go) && ThreadInv(s, t)
    ensures Lowers(s, PostStep(s, t), t, Target(s, t))
  {
  }

  lemma PopLowers(s: State, t: Tid)
    requires Ranges(s) && t < |s.threads| && Popping(s.threads[t]) && Enabled(s, t, Go) && Ends(s.gl)
    ensures Lowers(s, PopStep(s, t), t, Target(s, t))
  {
  }

  lemma DrainLowers(s: State, t: Tid)
    requires Ranges(s) && t < |s.threads| && Draining(s.threads[t]) && Enabled(s, t, Go)
    requires s.threads[t].mq < |s.boxes| && Ends(s.boxes[s.threads[t].mq].list)
    ensures Lowers(s, DrainStep(s, t), t, Target(s, t))
  {
  }

  lemma EndLowers(s: State, t: Tid)
    requires Ranges(s) && t < |s.threads| && Ending(s.threads[t]) && Enabled(s, t, Go)
    requires s.threads[t].mq < |s.boxes| && Ends(s.boxes[s.threads[t].mq].list)
    ensures Lowers(s, EndStep(s, t), t, Target(s, t))
  {
    hide Ranges, PushNext;
  }

  /** The weight of another thread changes only when a push makes it stale. */
  ghost predicate Undisturbed(s: State, s': State, t: Tid, u: Tid)
    requires t < |s.threads| == |s'.threads| && u < |s.threads|
  {
    || Weight(s', s.threads[u]) == Weight(s, s.threads[u])
    || (s.threads[t].PPush? && Runs(s.threads[u]) == Some(s.threads[t].mq)
        && Weight(s', s.threads[u]) <= Weight(s, s.threads[u]) + LISTED)
  }

  /** Who may change which list: the holder of the global lock, and for a mailbox the thread
      that runs it (it pops) or a poster (it appends). */
  ghost predicate ListsOwned(s: State, s': State, t: Tid, m: Option<Mq>)
    requires t < |s.threads|
  {
    && |s'.boxes| == |s.boxes|
    && (s'.gl == s.gl || s.gLock == Some(t))
    && (m.Some? && m.value < |s.boxes| ==>
          || s'.boxes[m.value].list == s.boxes[m.value].list
          || s.boxes[m.value].runner == Some(t)
          || (s.threads[t].PPush? && s.threads[t].mq == m.value))
  }

  lemma DecideLists(s: State, t: Tid, c: Choice)
    requires Ranges(s) && t < |s.threads| && s.threads[t].At? && Enabled(s, t, c)
    ensures ListsOwned(s, Decide(s, t, c), t, Target(s, t))
  {
  }

  lemma PostLists(s: State, t: Tid)
    requires Ranges(s) && t < |s.threads| && Posting(s.threads[t]) && Enabled(s, t, Go) && ThreadInv(s, t)
    ensures ListsOwned(s, PostStep(s, t), t, Target(s, t))
  {
  }

  lemma PopLists(s: State, t: Tid)
    requires Ranges(s) && t < |s.threads| && Popping(s.threads[t]) && ThreadInv(s, t)
    ensures ListsOwned(s, PopStep(s, t), t, Target(s, t))
  {
  }

  lemma DrainLists(s: State, t: Tid)
    requires Ranges(s) && t < |s.threads| && Draining(s.threads[t]) && ThreadInv(s, t)
    ensures ListsOwned(s, DrainStep(s, t), t, Target(s, t))
  {
  }

  lemma EndLists(s: State, t: Tid)
    requires Ranges(s) && t < |s.threads| && Ending(s.threads[t]) && ThreadInv(s, t)
    ensures ListsOwned(s, EndStep(s, t), t, Target(s, t))
  {
  }

  lemma OtherWeight(s: State, s': State, t: Tid, m: Option<Mq>, u: Tid)
    requires LocalData(s, s', t, m) && ListsOwned(s, s', t, m)
    requires u < |s.threads| && u != t && ThreadInv(s, u)
    ensures Undisturbed(s, s', t, u)
  {
  }

  /** One step: the weights of all threads but t, and of the one a push makes stale, stay. */
  lemma StepLowers(s: State, t: Tid, c: Choice)
    requires Inv(s) && Ranges(s) && Enabled(s, t, c) && Quiet(c)
    ensures var s', m := Step(s, t, c), Target(s, t);
            && Local(s, s', t, m) && ListsOwned(s, s', t, m)
            && if StartsEmptyPop(s, t, c) then Share(s', t, m) == Share(s, t, m) + 2 else Lowers(s, s', t, m)
  {
    var pc := s.threads[t];
    assert ThreadInv(s, t);
    StepOfThread(s, t, c);
    if pc.At? {
      DecideLists(s, t, c); DecideLowers(s, t, c);
    } else if Popping(pc) {
      PopLists(s, t); PopLowers(s, t);
    } else if Draining(pc) {
      assert BoxData(s, pc.mq);
      DrainLists(s, t); DrainLowers(s, t);
    } else if Ending(pc) {
      assert BoxData(s, pc.mq);
      EndLists(s, t); EndLowers(s, t);
    } else {
      PostLists(s, t); PostLowers(s, t);
    }
  }

  lemma QueuedChange(s: State, s': State, t: Tid, m: Option<Mq>)
    requires LocalData(s, s', t, m)
    ensures Sum(Queued(s')) + Length(s, m) == Sum(Queued(s)) + Length(s', m)
  {
    if m.Some? && m.value < |s.boxes| {
      SumChange(Queued(s), Queued(s'), m.value);
    } else {
      assert Queued(s') == Queued(s);
    }
  }

  lemma WeightsChange(s: State, s': State, t: Tid, m: Option<Mq>)
    requires Inv(s) && LocalData(s, s', t, m) && ListsOwned(s, s', t, m)
    ensures Sum(Weights(s')) + Weight(s, s.threads[t])
            <= Sum(Weights(s)) + Weight(s', s'.threads[t]) + Disturbance(s, t)
  {
    assert ThreadInv(s, t);
    // the only thread a push can disturb is the one that runs the mailbox
    var j := if s.threads[t].PPush? && s.boxes[s.threads[t].mq].runner.Some?
             then s.boxes[s.threads[t].mq].runner.value else t;
    if j != t {
      assert BoxOwned(s, s.threads[t].mq);
    }
    var xs, ys := Weights(s), Weights(s');
    forall u | 0 <= u < |s.threads| && u != t
      ensures ys[u] <= xs[u] + Disturbance(s, t) && (u != j ==> ys[u] == xs[u])
    {
      assert ThreadInv(s, u);
      OtherWeight(s, s', t, m, u);
    }
    SumChangeTwo(xs, ys, t, j, Disturbance(s, t));
  }

  /** Every quiet step lowers the work, except that a call of gq_pop on an empty list adds 2. */
  lemma StepWork(s: State, t: Tid, c: Choice)
    requires Inv(s) && Ranges(s) && Enabled(s, t, c) && Quiet(c)
    ensures !StartsEmptyPop(s, t, c) ==> Work(Step(s, t, c)) < Work(s)
    ensures StartsEmptyPop(s, t, c) ==> Work(Step(s, t, c)) <= Work(s) + 2
  {
    var s', m := Step(s, t, c), Target(s, t);
    StepLowers(s, t, c);
    QueuedChange(s, s', t, m);
    WeightsChange(s, s', t, m);
  }

  // ---- whole runs ------------------------------------------------------------------

  ghost predicate QuietRun(run: Schedule) {
    forall i :: 0 <= i < |run| ==> Quiet(run[i].1)
  }

  /** The steps of a run that really happen and do not start an empty gq_pop. */
  ghost function Productive(s: State, run: Schedule): nat
    decreases |run|
  {
    if run == [] then 0 else
    var t, c := run[0].0, run[0].1;
    (if Enabled(s, t, c) && !StartsEmptyPop(s, t, c) then 1 else 0) + Productive(Next(s, t, c), run[1..])
  }

  /** The calls of gq_pop on an empty list. */
  ghost function EmptyPops(s: State, run: Schedule): nat
    decreases |run|
  {
    if run == [] then 0 else
    var t, c := run[0].0, run[0].1;
    (if Enabled(s, t, c) && StartsEmptyPop(s, t, c) then 1 else 0) + EmptyPops(Next(s, t, c), run[1..])
  }

  /** However the threads interleave, they take at most Work(s) productive steps, and two
      more for each empty gq_pop. */
  lemma {:induction false} DrainBound(s: State, run: Schedule)
    requires Inv(s) && QuietRun(run)
    ensures Work(Exec(s, run)) + Productive(s, run) <= Work(s) + 2 * EmptyPops(s, run)
    decreases |run|
  {
    if run != [] {
      var t, c := run[0].0, run[0].1;
      InvRanges(s);
      if Enabled(s, t, c) {
        StepInv(s, t, c);
        StepWork(s, t, c);
      }
      DrainBound(Next(s, t, c), run[1..]);
    }
  }

  /** No call is in progress and no mailbox is listed. */
  ghost predicate Settled(s: State) {
    (forall t :: 0 <= t < |s.threads| ==> s.threads[t] == At(Outside)) && s.gl.items == []
  }

  lemma GlobalHolder(s: State)
    requires Inv(s)
    ensures s.gLock.Some? ==> s.gLock.value < |s.threads| && s.threads[s.gLock.value] != At(Outside)
  {
    if s.gLock.Some? {
      assert ThreadInv(s, s.gLock.value);
    }
  }

  /** Until all is settled, some thread can take a productive step. */
  lemma NeverStuck(s: State)
    requires Inv(s) && |s.threads| > 0 && !Settled(s)
    ensures exists t, c :: Enabled(s, t, c) && Quiet(c) && !StartsEmptyPop(s, t, c)
  {
    if t :| 0 <= t < |s.threads| && s.threads[t] != At(Outside) {
      if s.threads[t].At? {
        assert Enabled(s, t, Finish) && !StartsEmptyPop(s, t, Finish);
      } else if Enabled(s, t, Go) {
        assert !StartsEmptyPop(s, t, Go);
      } else {
        SpinningEnds(s, t, Go);
        var u, c :| 0 <= u < |s.threads| && HoldsALock(s.threads[u]) && Enabled(s, u, c) && (c.Go? || c.Finish?);
        assert Enabled(s, u, c) && Quiet(c) && !StartsEmptyPop(s, u, c);
      }
    } else {
      assert s.threads[0] == At(Outside);
      GlobalHolder(s);
      assert Enabled(s, 0, Pop) && !StartsEmptyPop(s, 0, Pop);
    }
  }

  /** When all is settled, every mailbox is empty and unmarked, and all that was ever pushed
      has been handled, in order. */
  lemma SettledIsDrained(s: State, m: Mq)
    requires Inv(s) && Settled(s) && m < |s.boxes|
    ensures s.boxes[m].list == EMPTY && !s.boxes[m].isG && s.mNext[m].None? && s.gl == EMPTY
    ensures s.boxes[m].handled == s.boxes[m].pushed
  {
    assert BoxOwned(s, m) && Status(s, m);
    FifoOfRunner(s, m);
  }
}
