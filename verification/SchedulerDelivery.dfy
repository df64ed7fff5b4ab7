/** What is posted to a mailbox gets into this mailbox, once, and is handled there. */
module SchedulerDelivery {
  import opened Basics
  import opened Links
  import opened Scheduler
  import opened SchedulerInv
  import opened SchedulerRuns
  import opened SchedulerDrain

  /** Message x is on its way to its mailbox in the hands of the thread that posts it, or has got there. */
  ghost predicate OnItsWay(s: State, x: Msg)
    requires x < |s.nodes|
  {
    var n := s.nodes[x];
    && n.dest < |s.boxes|
    && if n.pusher.None? then x in s.boxes[n.dest].pushed
       else n.pusher.value < |s.threads| && Pushing(s.threads[n.pusher.value]) == Some(x)
  }

  /** A message stays where it is posted to, and only its push ends the posting. */
  ghost predicate SameNodes(s: State, s': State) {
    && |s.nodes| <= |s'.nodes|
    && forall x :: 0 <= x < |s.nodes| ==>
         s'.nodes[x].dest == s.nodes[x].dest && s'.nodes[x].pusher in {s.nodes[x].pusher, None}
  }

  ghost predicate AllOnTheirWay(s: State) { forall x :: 0 <= x < |s.nodes| ==> OnItsWay(s, x) }

  /** Nothing is posted or pushed from s to s' by thread t. */
  ghost predicate SameWay(s: State, s': State, t: Tid) {
    && t < |s.threads| == |s'.threads| && |s.boxes| == |s'.boxes| && s'.nodes == s.nodes
    && (forall u :: 0 <= u < |s.threads| && u != t ==> s'.threads[u] == s.threads[u])
    && Pushing(s'.threads[t]) == Pushing(s.threads[t])
    && (forall m :: 0 <= m < |s.boxes| ==> s'.boxes[m].pushed == s.boxes[m].pushed)
  }

  lemma SameWayKeeps(s: State, s': State, t: Tid)
    requires AllOnTheirWay(s) && SameWay(s, s', t)
    ensures AllOnTheirWay(s')
  {
    forall x | 0 <= x < |s'.nodes| ensures OnItsWay(s', x) {
      assert OnItsWay(s, x);
    }
  }

  lemma DecideWay(s: State, t: Tid, c: Choice)
    requires Ranges(s) && Enabled(s, t, c) && s.threads[t].At? && !c.Post?
    ensures SameWay(s, Decide(s, t, c), t)
  {
  }

  lemma PopWay(s: State, t: Tid)
    requires Ranges(s) && t < |s.threads| && Popping(s.threads[t])
    ensures SameWay(s, PopStep(s, t), t)
  {
    hide Links.Pop;
  }

  lemma DrainWay(s: State, t: Tid)
    requires Ranges(s) && t < |s.threads| && Draining(s.threads[t])
    ensures SameWay(s, DrainStep(s, t), t)
  {
    hide Links.Pop;
  }

  lemma EndWay(s: State, t: Tid)
    requires Ranges(s) && t < |s.threads| && Ending(s.threads[t])
    ensures SameWay(s, EndStep(s, t), t)
  {
    hide Push, PushNext;
  }

  lemma PostWay(s: State, t: Tid)
    requires Ranges(s) && t < |s.threads| && Posting(s.threads[t]) && !s.threads[t].PPush?
    ensures SameWay(s, PostStep(s, t), t)
  {
    hide Push, PushNext;
  }

  /** A post makes a new message for that mailbox, which the thread is about to push. */
  lemma PostStarts(s: State, t: Tid, m: Mq)
    requires Ranges(s) && Enabled(s, t, Post(m))
    ensures var s' := Step(s, t, Post(m));
            && |s'.nodes| == |s.nodes| + 1 && s'.nodes[|s.nodes|] == Node(m, Some(t))
            && m < |s'.boxes| == |s.boxes| && t < |s'.threads| == |s.threads|
            && Pushing(s'.threads[t]) == Some(|s.nodes|) && s'.threads[t].mq == m
            && (AllOnTheirWay(s) ==> AllOnTheirWay(s'))
  {
    var s' := Step(s, t, Post(m));
    if AllOnTheirWay(s) {
      forall x | 0 <= x < |s'.nodes| ensures OnItsWay(s', x) {
        if x < |s.nodes| {
          assert OnItsWay(s, x);
        }
      }
    }
  }

  lemma PushArrives(s: State, t: Tid)
    requires Ranges(s) && t < |s.threads| && s.threads[t].PPush? && ThreadInv(s, t) && AllOnTheirWay(s)
    ensures AllOnTheirWay(PostStep(s, t))
    ensures s.threads[t].msg in PostStep(s, t).boxes[s.threads[t].mq].pushed
  {
    hide Push, PushNext, Ranges;
    var s', msg, m := PostStep(s, t), s.threads[t].msg, s.threads[t].mq;
    forall x | 0 <= x < |s'.nodes| ensures OnItsWay(s', x) {
      assert OnItsWay(s, x);
    }
  }

  lemma StepDelivers(s: State, t: Tid, c: Choice)
    requires Inv(s) && Ranges(s) && Enabled(s, t, c) && AllOnTheirWay(s)
    ensures AllOnTheirWay(Step(s, t, c))
    ensures SameNodes(s, Step(s, t, c))
  {
    assert ThreadInv(s, t);
    hide Inv, Ranges, AllOnTheirWay, ThreadInv;
    var pc := s.threads[t];
    if pc.At? && c.Post? {
      PostStarts(s, t, c.to);
    } else if pc.PPush? {
      PushArrives(s, t);
    } else {
      hide Decide, PopStep, DrainStep, EndStep, PostStep;
      if pc.At? {
        DecideWay(s, t, c);
      } else if Popping(pc) {
        PopWay(s, t);
      } else if Draining(pc) {
        DrainWay(s, t);
      } else if Ending(pc) {
        EndWay(s, t);
      } else {
        PostWay(s, t);
      }
      SameWayKeeps(s, Step(s, t, c), t);
    }
  }

  lemma {:induction false} RunDelivers(s: State, run: Schedule)
    requires Inv(s) && AllOnTheirWay(s)
    ensures AllOnTheirWay(Exec(s, run))
    ensures SameNodes(s, Exec(s, run))
    decreases |run|
  {
    hide AllOnTheirWay, Inv, Step, Ranges, Enabled;
    if run != [] {
      var t, c := run[0].0, run[0].1;
      InvRanges(s);
      if Enabled(s, t, c) {
        StepDelivers(s, t, c);
        StepInv(s, t, c);
      }
      RunDelivers(Next(s, t, c), run[1..]);
    }
  }

  lemma ReachableWay(s: State)
    requires Reachable(s)
    ensures Inv(s) && AllOnTheirWay(s)
  {
    ReachableInv(s);
    var threads: nat, boxes: nat, run: Schedule :| s == Exec(Init(threads, boxes), run);
    InitInv(threads, boxes);
    assert AllOnTheirWay(Init(threads, boxes));
    hide Inv, AllOnTheirWay, Init, Exec;
    RunDelivers(Init(threads, boxes), run);
  }

  /** In every reachable state each message is still being posted, or was pushed to its own mailbox and to no
      other, once. */
  lemma EachInItsMailbox(s: State, x: Msg, m: Mq)
    requires Reachable(s) && x < |s.nodes| && m < |s.boxes|
    ensures OnItsWay(s, x) && Distinct(s.boxes[m].pushed)
    ensures x in s.boxes[m].pushed <==> s.nodes[x] == Node(m, None)
  {
    ReachableWay(s);
    assert BoxData(s, m) && OnItsWay(s, x);
  }

  /** A message that is posted to mailbox m in a reachable state, at any later time: it is new, its thread is
      still about to push it to m, or it is among the messages pushed to m; and once all is settled it has been
      handled there. */
  lemma PostedIsHandled(s: State, t: Tid, m: Mq, run: Schedule)
    requires Reachable(s) && Ranges(s) && Enabled(s, t, Post(m))
    ensures var x, s' := |s.nodes|, Exec(Step(s, t, Post(m)), run);
            && m < |s.boxes| && x !in s.boxes[m].pushed && m < |s'.boxes| && t < |s'.threads|
            && (x in s'.boxes[m].pushed || (Pushing(s'.threads[t]) == Some(x) && s'.threads[t].mq == m))
            && (Settled(s') ==> x in s'.boxes[m].handled)
  {
    hide Reachable, Inv, AllOnTheirWay, OnItsWay, Step, Ranges, Enabled, Settled, Exec;
    var x, s1 := |s.nodes|, Step(s, t, Post(m));
    ReachableWay(s);
    PostStarts(s, t, m);
    NotYetPushed(s, m);
    StepInv(s, t, Post(m));
    RunDelivers(s1, run);
    ExecInv(s1, run);
    Arrived(Exec(s1, run), t, m, x);
  }

  lemma NotYetPushed(s: State, m: Mq)
    requires Inv(s) && m < |s.boxes|
    ensures |s.nodes| !in s.boxes[m].pushed
  {
    assert BoxData(s, m);
  }

  lemma Arrived(s: State, t: Tid, m: Mq, x: Msg)
    requires Inv(s) && AllOnTheirWay(s) && x < |s.nodes| && s.nodes[x].dest == m && s.nodes[x].pusher in {None, Some(t)}
    requires t < |s.threads|
    ensures m < |s.boxes|
    ensures x in s.boxes[m].pushed || (Pushing(s.threads[t]) == Some(x) && s.threads[t].mq == m)
    ensures Settled(s) ==> x in s.boxes[m].handled
  {
    assert OnItsWay(s, x);
    if s.nodes[x].pusher.Some? {
      assert ThreadInv(s, t);
    }
    if Settled(s) {
      SettledIsDrained(s, m);
    }
  }

  // ---- a worker leaves nothing behind -----------------------------------------------

  /** A worker that has found no message holds the lock of a mailbox that is empty. */
  ghost predicate SawEmpty(s: State, t: Tid)
    requires t < |s.threads|
  {
    s.threads[t].MUnlock? && s.threads[t].taken.None? ==>
      s.threads[t].mq < |s.boxes| && s.boxes[s.threads[t].mq].list.items == []
  }

  /** Only the holder of its lock changes the messages of a mailbox. */
  lemma OnlyHolder(s: State, t: Tid, c: Choice, m: Mq)
    requires Ranges(s) && Enabled(s, t, c) && m < |s.boxes| && HoldsM(s.threads[t]) != Some(m)
    ensures m < |Step(s, t, c).boxes| && Step(s, t, c).boxes[m].list == s.boxes[m].list
  {
    hide Push, PushNext, Links.Pop;
  }

  /** Where a worker comes to hold no message, and where it comes to give its mailbox up. */
  lemma ComesFrom(s: State, t: Tid, c: Choice)
    requires Ranges(s) && Enabled(s, t, c)
    ensures var pc, pc' := s.threads[t], Step(s, t, c).threads[t];
            && t < |Step(s, t, c).threads|
            && (pc'.MUnlock? && pc'.taken.None? ==> pc == MTake(pc'.mq))
            && (Ending(pc') && !Ending(pc) ==> pc == MUnlock(pc'.mq, None))
  {
    hide Ranges, Push, PushNext, Links.Pop;
    match s.threads[t]
    case At(_) =>
    case PTest(_, _) =>
    case GTake =>
    case MTake(_) =>
    case MUnlock(_, _) =>
    case ETest(_) =>
    case _ =>
  }

  lemma TookNone(s: State, t: Tid, m: Mq)
    requires Ranges(s) && t < |s.threads| && s.threads[t] == MTake(m) && m < |s.boxes| && BoxData(s, m)
    ensures SawEmpty(DrainStep(s, t), t)
  {
    hide Ranges, Links.Pop;
  }

  lemma StepSawEmpty(s: State, t: Tid, c: Choice, u: Tid)
    requires Inv(s) && Ranges(s) && Enabled(s, t, c) && u < |s.threads| && SawEmpty(s, u)
    ensures u < |Step(s, t, c).threads| && SawEmpty(Step(s, t, c), u)
  {
    StepOfThread(s, t, c);
    assert ThreadInv(s, t) && ThreadInv(s, u);
    if u == t {
      ComesFrom(s, t, c);
      if s.threads[t].MTake? {
        assert BoxData(s, s.threads[t].mq);
        hide Inv, Ranges, BoxData, ThreadInv, DrainStep;
        TookNone(s, t, s.threads[t].mq);
      } else {
        hide Inv, Ranges, Step, ThreadInv;
      }
    } else if s.threads[u].MUnlock? && s.threads[u].taken.None? {
      var m := s.threads[u].mq;
      assert HoldsM(s.threads[t]) != Some(m);
      hide Inv, Ranges, Step, LocalOwners;
      OnlyHolder(s, t, c, m);
    }
  }

  lemma {:induction false} RunSawEmpty(s: State, run: Schedule, u: Tid)
    requires Inv(s) && u < |s.threads| && SawEmpty(s, u)
    ensures u < |Exec(s, run).threads| && SawEmpty(Exec(s, run), u)
    decreases |run|
  {
    hide Inv, Step, Ranges, Enabled;
    if run != [] {
      var t, c := run[0].0, run[0].1;
      InvRanges(s);
      if Enabled(s, t, c) {
        StepSawEmpty(s, t, c, u);
        StepInv(s, t, c);
      }
      RunSawEmpty(Next(s, t, c), run[1..], u);
    }
  }

  /** A worker goes on with the messages of its mailbox until it has found it empty: only then it gives the
      mailbox up. */
  lemma GivesUpEmpty(s: State, t: Tid, c: Choice)
    requires Reachable(s) && Ranges(s) && Enabled(s, t, c) && t < |Step(s, t, c).threads|
    requires !Ending(s.threads[t]) && Ending(Step(s, t, c).threads[t])
    ensures var m := Step(s, t, c).threads[t].mq;
            m < |s.boxes| && Runs(s.threads[t]) == Some(m) && s.boxes[m].lock == Some(t) && s.boxes[m].list.items == []
  {
    hide Inv, Exec, Init, Step, Ranges;
    ComesFrom(s, t, c);
    var threads: nat, boxes: nat, run: Schedule :| s == Exec(Init(threads, boxes), run);
    InitInv(threads, boxes);
    ExecInv(Init(threads, boxes), run);
    NoneYet(threads, boxes, t);
    RunSawEmpty(Init(threads, boxes), run, t);
    OfThread(s, t);
  }

  lemma NoneYet(threads: nat, boxes: nat, t: Tid)
    ensures |Init(threads, boxes).threads| == threads && (t < threads ==> SawEmpty(Init(threads, boxes), t))
  {
  }

  lemma OfThread(s: State, t: Tid)
    requires Inv(s) && t < |s.threads|
    ensures ThreadInv(s, t)
  {
  }
}
