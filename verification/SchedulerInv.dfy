/** What every interleaving of the scheduler keeps. */
module SchedulerInv {
  import opened Basics
  import opened Links
  import opened Scheduler

  /** Locks, mailboxes and new messages belong to the thread whose program counter says so. */
  ghost predicate ThreadInv(s: State, t: Tid)
    requires t < |s.threads|
  {
    var pc := s.threads[t];
    && PcInRange(s, pc)
    && (HoldsG(pc) <==> s.gLock == Some(t))
    && (HoldsT(pc) <==> s.tLock == Some(t))
    && (HoldsM(pc).Some? ==> s.boxes[HoldsM(pc).value].lock == Some(t))
    && (Runs(pc).Some? ==> s.boxes[Runs(pc).value].runner == Some(t))
    && (Pushing(pc).Some? ==> s.nodes[Pushing(pc).value] == Node(pc.mq, Some(t)))
  }

  ghost predicate BoxLocked(s: State, m: Mq)
    requires m < |s.boxes|
  {
    var l := s.boxes[m].lock;
    l.Some? ==> l.value < |s.threads| && HoldsM(s.threads[l.value]) == Some(m)
  }

  ghost predicate BoxRun(s: State, m: Mq)
    requires m < |s.boxes|
  {
    var r := s.boxes[m].runner;
    r.Some? ==> r.value < |s.threads| && Runs(s.threads[r.value]) == Some(m)
  }

  ghost predicate BoxOwned(s: State, m: Mq)
    requires m < |s.boxes|
  {
    BoxLocked(s, m) && BoxRun(s, m)
  }

  /** The program counter of the thread that holds the mailbox lock. */
  function Holder(s: State, m: Mq): Pc
    requires m < |s.boxes|
  {
    var l := s.boxes[m].lock;
    if l.Some? && l.value < |s.threads| then s.threads[l.value] else At(Outside)
  }

  /** The message in flight: popped by the thread that runs the mailbox, not yet handled. */
  function InFlight(s: State, m: Mq): seq<Msg>
    requires m < |s.boxes|
  {
    var r := s.boxes[m].runner;
    if r.Some? && r.value < |s.threads| then Flight(s.threads[r.value]) else []
  }

  /** The links of one mailbox; what was pushed is what was handled, then in flight, then queued. */
  ghost predicate BoxData(s: State, m: Mq)
    requires m < |s.boxes|
  {
    var b := s.boxes[m];
    && Linked(b.list, s.msgNext)
    && Distinct(b.pushed)
    && (forall x :: x in b.pushed ==> x < |s.nodes| && s.nodes[x] == Node(m, None))
    && b.pushed == b.handled + InFlight(s, m) + b.list.items
  }

  /** A mailbox is listed or run exactly when mIsG is set or a poster is about to set it. */
  ghost predicate Status(s: State, m: Mq)
    requires m < |s.boxes|
  {
    var b := s.boxes[m];
    var pc := Holder(s, m);
    && (b.runner.Some? ==> m !in s.gl.items)
    && (m in s.gl.items || b.runner.Some? <==> b.isG || Linking(pc, m))
    && (Linking(pc, m) || pc.PLockG? || pc.PLink? ==> !b.isG)
    && (pc.ELockG? || pc.ELink? ==> b.list.items != [])
    && (b.list.items != [] ==> m in s.gl.items || b.runner.Some? || AboutToList(pc, m))
  }

  /** The links of the global queue; an unlisted mailbox has a null mNext. */
  ghost predicate GlobalInv(s: State) {
    && |s.mNext| == |s.boxes| && |s.msgNext| == |s.nodes|
    && Linked(s.gl, s.mNext)
    && (forall m :: 0 <= m < |s.boxes| && m !in s.gl.items ==> s.mNext[m].None?)
    && (s.gLock.Some? ==> s.gLock.value < |s.threads|)
    && (s.tLock.Some? ==> s.tLock.value < |s.threads|)
  }

  ghost predicate Inv(s: State) {
    && GlobalInv(s)
    && (forall t :: 0 <= t < |s.threads| ==> ThreadInv(s, t))
    && (forall m :: 0 <= m < |s.boxes| ==> BoxOwned(s, m) && BoxData(s, m) && Status(s, m))
  }

  lemma InvRanges(s: State)
    requires Inv(s)
    ensures Ranges(s)
  {
    forall t | 0 <= t < |s.threads| ensures PcInRange(s, s.threads[t]) {
      assert ThreadInv(s, t);
    }
    forall m | 0 <= m < |s.boxes| ensures InRange(s.boxes[m].list, s.msgNext) {
      assert BoxData(s, m);
    }
  }

  // ---- a step is local to one thread and at most one mailbox ------------------------

  /** The mailbox a step of thread t is about. */
  function Target(s: State, t: Tid): Option<Mq>
    requires t < |s.threads|
  {
    var pc := s.threads[t];
    if pc.GTake? then s.gl.head
    else if pc.GUnlock? || pc.TAdd? then None
    else if pc.At? then (if pc.ctx.Handling? then Some(pc.ctx.hmq) else None)
    else Some(pc.mq)
  }

  /** From s to s' only thread t, mailbox m and what they own have changed. */
  ghost predicate LocalData(s: State, s': State, t: Tid, m: Option<Mq>) {
    && t < |s.threads| == |s'.threads| && |s.boxes| == |s'.boxes|
    && |s.nodes| == |s.msgNext| <= |s'.nodes| == |s'.msgNext|
    && (forall u :: 0 <= u < |s.threads| && u != t ==> s'.threads[u] == s.threads[u])
    && (forall k :: 0 <= k < |s.boxes| && m != Some(k) ==> s'.boxes[k] == s.boxes[k])
    && (forall k :: m != Some(k) ==> (k in s'.gl.items <==> k in s.gl.items))
    && (forall x :: 0 <= x < |s.nodes| && s.nodes[x].pusher != Some(t) ==> s'.nodes[x] == s.nodes[x])
    && (forall x :: 0 <= x < |s.nodes| && s.nodes[x].pusher != Some(t) && m != Some(s.nodes[x].dest) ==>
          s'.msgNext[x] == s.msgNext[x])
  }

  predicate SameOrMine(before: Option<Tid>, after: Option<Tid>, t: Tid) {
    after == before || (before.None? && after == Some(t)) || (before == Some(t) && after.None?)
  }

  /** Thread t acquires and releases locks and mailboxes for itself only. */
  ghost predicate LocalOwners(s: State, s': State, t: Tid, m: Option<Mq>)
    requires t < |s.threads| == |s'.threads| && |s.boxes| == |s'.boxes|
  {
    var pc, pc' := s.threads[t], s'.threads[t];
    && (HoldsM(pc) == None || HoldsM(pc) == m) && (HoldsM(pc') == None || HoldsM(pc') == m)
    && (Runs(pc) == None || Runs(pc) == m || (Runs(pc') == Runs(pc) && Flight(pc') == Flight(pc)))
    && (Runs(pc') == None || Runs(pc') == m || (Runs(pc') == Runs(pc) && Flight(pc') == Flight(pc)))
    && SameOrMine(s.gLock, s'.gLock, t) && SameOrMine(s.tLock, s'.tLock, t)
    && (m.Some? && m.value < |s.boxes| ==>
          && SameOrMine(s.boxes[m.value].lock, s'.boxes[m.value].lock, t)
          && SameOrMine(s.boxes[m.value].runner, s'.boxes[m.value].runner, t))
  }

  ghost predicate Local(s: State, s': State, t: Tid, m: Option<Mq>) {
    LocalData(s, s', t, m) && LocalOwners(s, s', t, m)
  }

  lemma OtherThread(s: State, s': State, t: Tid, m: Option<Mq>, u: Tid)
    requires Local(s, s', t, m) && u != t && u < |s.threads| && ThreadInv(s, u)
    ensures ThreadInv(s', u)
  {
  }

  lemma OtherBox(s: State, s': State, t: Tid, m: Option<Mq>, k: Mq)
    requires Local(s, s', t, m) && m != Some(k) && k < |s.boxes|
    requires ThreadInv(s, t) && BoxOwned(s, k) && BoxData(s, k) && Status(s, k)
    ensures BoxOwned(s', k) && BoxData(s', k) && Status(s', k)
  {
    var b := s.boxes[k];
    assert Holder(s', k) == Holder(s, k);
    assert InFlight(s', k) == InFlight(s, k);
    forall x | x in b.list.items ensures x < |s.nodes| && s'.msgNext[x] == s.msgNext[x] {
      assert x in b.pushed;
    }
    Frame(b.list, s.msgNext, s'.msgNext);
  }

  /** The first queued message moves into flight, or the one in flight moves on. */
  lemma Regroup(pushed: seq<Msg>, before: seq<Msg>, flight: seq<Msg>, after: seq<Msg>,
                before': seq<Msg>, flight': seq<Msg>, after': seq<Msg>)
    requires pushed == before + flight + after
    requires (before' == before && flight == [] && after == flight' + after')
          || (before' == before + flight && flight' == [] && after' == after)
    ensures pushed == before' + flight' + after'
  {
  }

  // ---- each group of steps ---------------------------------------------------------

  lemma DecideLocalData(s: State, t: Tid, c: Choice)
    requires Ranges(s) && t < |s.threads| && s.threads[t].At? && Enabled(s, t, c) && ThreadInv(s, t)
    ensures LocalData(s, Decide(s, t, c), t, Target(s, t))
  {
  }

  lemma DecideLocalOwners(s: State, t: Tid, c: Choice)
    requires Ranges(s) && t < |s.threads| && s.threads[t].At? && Enabled(s, t, c) && ThreadInv(s, t)
    ensures LocalOwners(s, Decide(s, t, c), t, Target(s, t))
  {
    hide Ranges;
  }

  lemma DecideThread(s: State, t: Tid, c: Choice)
    requires Ranges(s) && t < |s.threads| && s.threads[t].At? && Enabled(s, t, c) && ThreadInv(s, t)
    ensures ThreadInv(Decide(s, t, c), t)
  {
    hide Ranges;
  }

  lemma DecideOwned(s: State, t: Tid, c: Choice, m: Mq)
    requires Ranges(s) && t < |s.threads| && s.threads[t].At? && Enabled(s, t, c) && ThreadInv(s, t)
    requires m < |s.boxes| && BoxOwned(s, m)
    ensures BoxOwned(Decide(s, t, c), m)
  {
    hide Ranges;
  }

  /** A mailbox whose lists, history and message in flight are the same; there may be new messages. */
  lemma SameData(s: State, s': State, m: Mq)
    requires m < |s.boxes| && m < |s'.boxes| && BoxData(s, m) && |s.msgNext| == |s.nodes|
    requires s.msgNext <= s'.msgNext && s.nodes <= s'.nodes && InFlight(s', m) == InFlight(s, m)
    requires var b, b' := s.boxes[m], s'.boxes[m]; b'.list == b.list && b'.pushed == b.pushed && b'.handled == b.handled
    ensures BoxData(s', m)
  {
    hide InFlight, Linked;
    Frame(s.boxes[m].list, s.msgNext, s'.msgNext);
  }

  lemma HandledData(s: State, s': State, m: Mq, msg: Msg)
    requires m < |s.boxes| && m < |s'.boxes| && BoxData(s, m) && s'.msgNext == s.msgNext && s'.nodes == s.nodes
    requires s'.boxes[m] == s.boxes[m].(handled := s.boxes[m].handled + [msg])
    requires InFlight(s, m) == [msg] && InFlight(s', m) == []
    ensures BoxData(s', m)
  {
    hide InFlight, Linked;
    var b, b' := s.boxes[m], s'.boxes[m];
    Regroup(b.pushed, b.handled, [msg], b.list.items, b'.handled, [], b.list.items);
  }

  lemma DecideData(s: State, t: Tid, c: Choice, m: Mq)
    requires Ranges(s) && t < |s.threads| && s.threads[t].At? && Enabled(s, t, c) && ThreadInv(s, t)
    requires m < |s.boxes| && Target(s, t) == Some(m) && BoxOwned(s, m) && BoxData(s, m)
    ensures BoxData(Decide(s, t, c), m)
  {
    hide BoxData;
    if c.Finish? {
      HandledData(s, Decide(s, t, c), m, s.threads[t].ctx.hmsg);
    } else {
      SameData(s, Decide(s, t, c), m);
    }
  }

  lemma DecideStatus(s: State, t: Tid, c: Choice, m: Mq)
    requires Ranges(s) && t < |s.threads| && s.threads[t].At? && Enabled(s, t, c) && ThreadInv(s, t)
    requires m < |s.boxes| && Target(s, t) == Some(m) && BoxOwned(s, m) && Status(s, m)
    requires Ends(s.boxes[m].list) && Linked(s.gl, s.mNext)
    ensures Status(Decide(s, t, c), m)
  {
    hide Ranges, Linked;
  }

  lemma PostLocalData(s: State, t: Tid)
    requires Ranges(s) && t < |s.threads| && Posting(s.threads[t]) && Enabled(s, t, Go) && ThreadInv(s, t)
    requires s.threads[t].PPush? ==> BoxData(s, s.threads[t].mq)
    ensures LocalData(s, PostStep(s, t), t, Target(s, t))
  {
  }

  lemma PostLocalOwners(s: State, t: Tid)
    requires Ranges(s) && t < |s.threads| && Posting(s.threads[t]) && Enabled(s, t, Go) && ThreadInv(s, t)
    ensures LocalOwners(s, PostStep(s, t), t, Target(s, t))
  {
    hide Ranges, Push, PushNext;
    match s.threads[t]
    case PLock(_, _, _) =>
    case PPush(_, _, _) =>
    case PTest(_, _) =>
    case PLockG(_, _) =>
    case PLink(_, _) =>
    case PUnlockG(_, _) =>
    case PSetG(_, _) =>
    case PUnlock(_, _) =>
  }

  lemma PostThread(s: State, t: Tid)
    requires Ranges(s) && t < |s.threads| && Posting(s.threads[t]) && Enabled(s, t, Go) && ThreadInv(s, t)
    ensures ThreadInv(PostStep(s, t), t)
  {
    hide Ranges, Push, PushNext;
    match s.threads[t]
    case PLock(_, _, _) =>
    case PPush(_, _, _) =>
    case PTest(_, _) =>
    case PLockG(_, _) =>
    case PLink(_, _) =>
    case PUnlockG(_, _) =>
    case PSetG(_, _) =>
    case PUnlock(_, _) =>
  }

  lemma PostLocked(s: State, t: Tid, m: Mq)
    requires Ranges(s) && t < |s.threads| && Posting(s.threads[t]) && Enabled(s, t, Go) && ThreadInv(s, t)
    requires m < |s.boxes| && BoxLocked(s, m)
    ensures BoxLocked(PostStep(s, t), m)
  {
    hide Ranges, Push, PushNext;
    match s.threads[t]
    case PLock(_, _, _) =>
    case PPush(_, _, _) =>
    case PTest(_, _) =>
    case PLockG(_, _) =>
    case PLink(_, _) =>
    case PUnlockG(_, _) =>
    case PSetG(_, _) =>
    case PUnlock(_, _) =>
  }

  lemma PostRun(s: State, t: Tid, m: Mq)
    requires Ranges(s) && t < |s.threads| && Posting(s.threads[t]) && Enabled(s, t, Go) && ThreadInv(s, t)
    requires m < |s.boxes| && BoxRun(s, m)
    ensures BoxRun(PostStep(s, t), m)
  {
    hide Ranges, Push, PushNext;
    match s.threads[t]
    case PLock(_, _, _) =>
    case PPush(_, _, _) =>
    case PTest(_, _) =>
    case PLockG(_, _) =>
    case PLink(_, _) =>
    case PUnlockG(_, _) =>
    case PSetG(_, _) =>
    case PUnlock(_, _) =>
  }

  lemma PostOwned(s: State, t: Tid, m: Mq)
    requires Ranges(s) && t < |s.threads| && Posting(s.threads[t]) && Enabled(s, t, Go) && ThreadInv(s, t)
    requires m < |s.boxes| && BoxOwned(s, m)
    ensures BoxOwned(PostStep(s, t), m)
  {
    PostLocked(s, t, m); PostRun(s, t, m);
  }

  lemma PushedData(s: State, s': State, m: Mq, msg: Msg)
    requires m < |s.boxes| && m < |s'.boxes| && BoxData(s, m) && |s.msgNext| == |s.nodes| && msg < |s.nodes|
    requires Links.InRange(s.boxes[m].list, s.msgNext) && msg !in s.boxes[m].pushed
    requires s'.msgNext == PushNext(s.boxes[m].list, s.msgNext, msg) && s'.nodes == s.nodes[msg := Node(m, None)]
    requires s'.boxes[m] == s.boxes[m].(list := Push(s.boxes[m].list, msg), pushed := s.boxes[m].pushed + [msg])
    requires InFlight(s', m) == InFlight(s, m)
    ensures BoxData(s', m)
  {
    hide Linked, PushNext, InFlight;
    var b, b' := s.boxes[m], s'.boxes[m];
    assert forall x :: x in b.list.items ==> x in b.pushed;
    PushLinked(b.list, s.msgNext, msg);
    assert b'.pushed == b'.handled + InFlight(s', m) + b'.list.items;
  }

  lemma NewMessage(s: State, m: Mq, msg: Msg, t: Tid)
    requires m < |s.boxes| && BoxData(s, m) && msg < |s.nodes| && s.nodes[msg].pusher == Some(t)
    ensures msg !in s.boxes[m].pushed
  {
  }

  lemma PushData(s: State, t: Tid, m: Mq)
    requires Ranges(s) && t < |s.threads| && s.threads[t].PPush? && s.threads[t].mq == m && ThreadInv(s, t)
    requires BoxOwned(s, m) && BoxData(s, m)
    ensures BoxData(PostStep(s, t), m)
  {
    hide BoxData, Push, PushNext;
    NewMessage(s, m, s.threads[t].msg, t);
    PushedData(s, PostStep(s, t), m, s.threads[t].msg);
  }

  lemma PostData(s: State, t: Tid, m: Mq)
    requires Ranges(s) && t < |s.threads| && Posting(s.threads[t]) && Enabled(s, t, Go) && ThreadInv(s, t)
    requires m < |s.boxes| && Target(s, t) == Some(m) && BoxOwned(s, m) && BoxData(s, m)
    ensures BoxData(PostStep(s, t), m)
  {
    hide BoxData;
    if s.threads[t].PPush? {
      PushData(s, t, m);
    } else {
      SameData(s, PostStep(s, t), m);
    }
  }

  lemma PostStatus(s: State, t: Tid, m: Mq)
    requires Ranges(s) && t < |s.threads| && Posting(s.threads[t]) && Enabled(s, t, Go) && ThreadInv(s, t)
    requires m < |s.boxes| && Target(s, t) == Some(m) && BoxOwned(s, m) && Status(s, m)
    requires Ends(s.boxes[m].list) && Linked(s.gl, s.mNext)
    ensures Status(PostStep(s, t), m)
  {
    hide Ranges, PushNext, Linked;
    match s.threads[t]
    case PLock(_, _, _) =>
    case PPush(_, _, _) =>
    case PTest(_, _) =>
    case PLockG(_, _) =>
    case PLink(_, _) =>
    case PUnlockG(_, _) =>
    case PSetG(_, _) =>
    case PUnlock(_, _) =>
  }

  lemma PopLocalData(s: State, t: Tid)
    requires Ranges(s) && t < |s.threads| && Popping(s.threads[t]) && Enabled(s, t, Go) && ThreadInv(s, t)
    requires Linked(s.gl, s.mNext)
    ensures LocalData(s, PopStep(s, t), t, Target(s, t))
  {
  }

  lemma PopLocalOwners(s: State, t: Tid)
    requires Ranges(s) && t < |s.threads| && Popping(s.threads[t]) && Enabled(s, t, Go) && ThreadInv(s, t)
    requires s.gl.head.Some? ==> s.boxes[s.gl.head.value].runner.None?
    ensures LocalOwners(s, PopStep(s, t), t, Target(s, t))
  {
  }

  lemma PopThread(s: State, t: Tid)
    requires Ranges(s) && t < |s.threads| && Popping(s.threads[t]) && Enabled(s, t, Go) && ThreadInv(s, t)
    ensures ThreadInv(PopStep(s, t), t)
  {
  }

  lemma PopOwned(s: State, t: Tid, m: Mq)
    requires Ranges(s) && t < |s.threads| && Popping(s.threads[t]) && Enabled(s, t, Go) && ThreadInv(s, t)
    requires m < |s.boxes| && BoxOwned(s, m)
    ensures BoxOwned(PopStep(s, t), m)
  {
    hide Ranges;
  }

  lemma PopData(s: State, t: Tid, m: Mq)
    requires Ranges(s) && t < |s.threads| && Popping(s.threads[t]) && Enabled(s, t, Go) && ThreadInv(s, t)
    requires m < |s.boxes| && Target(s, t) == Some(m) && BoxOwned(s, m) && BoxData(s, m) && Status(s, m)
             && Linked(s.gl, s.mNext)
    ensures BoxData(PopStep(s, t), m)
  {
    hide BoxData;
    SameData(s, PopStep(s, t), m);
  }

  lemma PopStatus(s: State, t: Tid, m: Mq)
    requires Ranges(s) && t < |s.threads| && Popping(s.threads[t]) && Enabled(s, t, Go) && ThreadInv(s, t)
    requires m < |s.boxes| && Target(s, t) == Some(m) && BoxOwned(s, m) && Status(s, m)
    requires Ends(s.boxes[m].list) && Linked(s.gl, s.mNext)
    ensures Status(PopStep(s, t), m)
  {
    if s.threads[t].GTake? {
      PopLinked(s.gl, s.mNext);
    }
  }

  lemma DrainLocalData(s: State, t: Tid)
    requires Ranges(s) && t < |s.threads| && Draining(s.threads[t]) && Enabled(s, t, Go) && ThreadInv(s, t)
    ensures LocalData(s, DrainStep(s, t), t, Target(s, t))
  {
  }

  lemma DrainLocalOwners(s: State, t: Tid)
    requires Ranges(s) && t < |s.threads| && Draining(s.threads[t]) && Enabled(s, t, Go) && ThreadInv(s, t)
    ensures LocalOwners(s, DrainStep(s, t), t, Target(s, t))
  {
    hide Ranges;
  }

  lemma DrainThread(s: State, t: Tid)
    requires Ranges(s) && t < |s.threads| && Draining(s.threads[t]) && Enabled(s, t, Go) && ThreadInv(s, t)
    ensures ThreadInv(DrainStep(s, t), t)
  {
    match s.threads[t]
    case MLock(_) =>
    case MTake(_) =>
    case MUnlock(_, _) =>
  }

  lemma DrainLocked(s: State, t: Tid, m: Mq)
    requires Ranges(s) && t < |s.threads| && Draining(s.threads[t]) && Enabled(s, t, Go) && ThreadInv(s, t)
    requires m < |s.boxes| && BoxLocked(s, m)
    ensures BoxLocked(DrainStep(s, t), m)
  {
    hide Ranges, Links.Pop;
  }

  lemma DrainRun(s: State, t: Tid, m: Mq)
    requires Ranges(s) && t < |s.threads| && Draining(s.threads[t]) && Enabled(s, t, Go) && ThreadInv(s, t)
    requires m < |s.boxes| && BoxRun(s, m)
    ensures BoxRun(DrainStep(s, t), m)
  {
    hide Ranges, Links.Pop;
  }

  lemma DrainOwned(s: State, t: Tid, m: Mq)
    requires Ranges(s) && t < |s.threads| && Draining(s.threads[t]) && Enabled(s, t, Go) && ThreadInv(s, t)
    requires m < |s.boxes| && BoxOwned(s, m)
    ensures BoxOwned(DrainStep(s, t), m)
  {
    DrainLocked(s, t, m); DrainRun(s, t, m);
  }

  /** The head of the queue moves into flight. */
  lemma TakeHead(l: List, next: seq<Option<Msg>>, pushed: seq<Msg>, handled: seq<Msg>)
    requires Linked(l, next) && l.head.Some? && pushed == handled + [] + l.items
    ensures Links.InRange(l, next) && Linked(Links.Pop(l, next), next)
    ensures pushed == handled + [l.head.value] + Links.Pop(l, next).items
  {
    PopLinked(l, next);
    Regroup(pushed, handled, [], l.items, handled, [l.head.value], l.items[1..]);
  }

  lemma TakenData(s: State, s': State, m: Mq)
    requires m < |s.boxes| && m < |s'.boxes| && BoxData(s, m)
    requires s'.msgNext == s.msgNext && s'.nodes == s.nodes && Links.InRange(s.boxes[m].list, s.msgNext)
    requires var b, b' := s.boxes[m], s'.boxes[m];
             && b.list.head.Some? && b'.list == Links.Pop(b.list, s.msgNext) && b'.pushed == b.pushed
             && b'.handled == b.handled
             && InFlight(s, m) == [] && InFlight(s', m) == [b.list.head.value]
    ensures BoxData(s', m)
  {
    hide Links.Pop, Linked, InFlight;
    TakeHead(s.boxes[m].list, s.msgNext, s.boxes[m].pushed, s.boxes[m].handled);
  }

  lemma TakeData(s: State, t: Tid, m: Mq)
    requires Ranges(s) && t < |s.threads| && s.threads[t] == MTake(m) && ThreadInv(s, t)
    requires BoxOwned(s, m) && BoxData(s, m)
    ensures BoxData(DrainStep(s, t), m)
  {
    hide BoxData, Links.Pop;
    if s.boxes[m].list.head.Some? {
      TakenData(s, DrainStep(s, t), m);
    } else {
      SameData(s, DrainStep(s, t), m);
    }
  }

  lemma DrainData(s: State, t: Tid, m: Mq)
    requires Ranges(s) && t < |s.threads| && Draining(s.threads[t]) && Enabled(s, t, Go) && ThreadInv(s, t)
    requires m < |s.boxes| && Target(s, t) == Some(m) && BoxOwned(s, m) && BoxData(s, m)
    ensures BoxData(DrainStep(s, t), m)
  {
    if s.threads[t].MTake? {
      TakeData(s, t, m);
    } else {
      hide BoxData;
      SameData(s, DrainStep(s, t), m);
    }
  }

  lemma DrainStatus(s: State, t: Tid, m: Mq)
    requires Ranges(s) && t < |s.threads| && Draining(s.threads[t]) && Enabled(s, t, Go) && ThreadInv(s, t)
    requires m < |s.boxes| && Target(s, t) == Some(m) && BoxOwned(s, m) && Status(s, m)
    requires Ends(s.boxes[m].list) && Linked(s.gl, s.mNext)
    ensures Status(DrainStep(s, t), m)
  {
    hide Ranges, Linked;
  }

  lemma EndLocalData(s: State, t: Tid)
    requires Ranges(s) && t < |s.threads| && Ending(s.threads[t]) && Enabled(s, t, Go) && ThreadInv(s, t)
    ensures LocalData(s, EndStep(s, t), t, Target(s, t))
  {
  }

  lemma EndLocalOwners(s: State, t: Tid)
    requires Ranges(s) && t < |s.threads| && Ending(s.threads[t]) && Enabled(s, t, Go) && ThreadInv(s, t)
    ensures LocalOwners(s, EndStep(s, t), t, Target(s, t))
  {
    hide Ranges, Push, PushNext;
  }

  lemma EndThreadTest(s: State, t: Tid)
    requires Ranges(s) && t < |s.threads| && Enabled(s, t, Go) && ThreadInv(s, t)
    requires s.threads[t].ELock? || s.threads[t].ETest? || s.threads[t].ELockG?
    ensures ThreadInv(EndStep(s, t), t)
  {
    hide Ranges, Push, PushNext;
  }

  lemma EndThreadLink(s: State, t: Tid)
    requires Ranges(s) && t < |s.threads| && Enabled(s, t, Go) && ThreadInv(s, t)
    requires s.threads[t].ELink? || s.threads[t].EUnlockG? || s.threads[t].EUnlock?
    ensures ThreadInv(EndStep(s, t), t)
  {
    hide Ranges, Push, PushNext;
  }

  lemma EndThread(s: State, t: Tid)
    requires Ranges(s) && t < |s.threads| && Ending(s.threads[t]) && Enabled(s, t, Go) && ThreadInv(s, t)
    ensures ThreadInv(EndStep(s, t), t)
  {
    hide Ranges, ThreadInv, EndStep;
    if s.threads[t].ELock? || s.threads[t].ETest? || s.threads[t].ELockG? {
      EndThreadTest(s, t);
    } else {
      EndThreadLink(s, t);
    }
  }

  lemma EndLocked(s: State, t: Tid, m: Mq)
    requires Ranges(s) && t < |s.threads| && Ending(s.threads[t]) && Enabled(s, t, Go) && ThreadInv(s, t)
    requires m < |s.boxes| && BoxLocked(s, m)
    ensures BoxLocked(EndStep(s, t), m)
  {
    hide Ranges, Push, PushNext;
  }

  lemma EndRun(s: State, t: Tid, m: Mq)
    requires Ranges(s) && t < |s.threads| && Ending(s.threads[t]) && Enabled(s, t, Go) && ThreadInv(s, t)
    requires m < |s.boxes| && BoxRun(s, m)
    ensures BoxRun(EndStep(s, t), m)
  {
    hide Ranges, Push, PushNext;
  }

  lemma EndOwned(s: State, t: Tid, m: Mq)
    requires Ranges(s) && t < |s.threads| && Ending(s.threads[t]) && Enabled(s, t, Go) && ThreadInv(s, t)
    requires m < |s.boxes| && BoxOwned(s, m)
    ensures BoxOwned(EndStep(s, t), m)
  {
    EndLocked(s, t, m); EndRun(s, t, m);
  }

  lemma EndData(s: State, t: Tid, m: Mq)
    requires Ranges(s) && t < |s.threads| && Ending(s.threads[t]) && Enabled(s, t, Go) && ThreadInv(s, t)
    requires m < |s.boxes| && Target(s, t) == Some(m) && BoxOwned(s, m) && BoxData(s, m)
    ensures BoxData(EndStep(s, t), m)
  {
    hide BoxData;
    SameData(s, EndStep(s, t), m);
  }

  lemma EndStatus(s: State, t: Tid, m: Mq)
    requires Ranges(s) && t < |s.threads| && Ending(s.threads[t]) && Enabled(s, t, Go) && ThreadInv(s, t)
    requires m < |s.boxes| && Target(s, t) == Some(m) && BoxOwned(s, m) && Status(s, m)
    requires Ends(s.boxes[m].list) && Linked(s.gl, s.mNext)
    ensures Status(EndStep(s, t), m)
  {
    hide Ranges, PushNext, Linked;
  }

  /** Listing an unlisted mailbox keeps the global queue linked. */
  lemma LinkGlobal(l: List, next: seq<Option<Mq>>, m: Mq)
    requires Linked(l, next) && m < |next| && m !in l.items
    requires forall k :: 0 <= k < |next| && k !in l.items ==> next[k].None?
    ensures Links.InRange(l, next) && Linked(Push(l, m), PushNext(l, next, m))
    ensures var next' := PushNext(l, next, m);
            forall k :: 0 <= k < |next'| && k !in Push(l, m).items ==> next'[k].None?
  {
    PushLinked(l, next, m);
    assert forall k :: k in l.items ==> k in Push(l, m).items;
  }

  /** So does taking the first one and clearing its mNext. */
  lemma UnlinkGlobal(l: List, next: seq<Option<Mq>>)
    requires Linked(l, next) && l.head.Some?
    requires forall k :: 0 <= k < |next| && k !in l.items ==> next[k].None?
    ensures Links.InRange(l, next)
    ensures var l', next' := Links.Pop(l, next), next[l.head.value := None];
            Linked(l', next') && forall k :: 0 <= k < |next'| && k !in l'.items ==> next'[k].None?
  {
    PopLinked(l, next);
    var l', next' := Links.Pop(l, next), next[l.head.value := None];
    Frame(l', next, next');
    forall k | 0 <= k < |next'| && k !in l'.items ensures next'[k].None? {
      assert l.items == [l.items[0]] + l'.items;
    }
  }


  lemma DecideGlobal(s: State, t: Tid, c: Choice)
    requires Ranges(s) && t < |s.threads| && s.threads[t].At? && Enabled(s, t, c) && GlobalInv(s)
    ensures GlobalInv(Decide(s, t, c))
  {
  }

  lemma PostGlobal(s: State, t: Tid)
    requires Ranges(s) && t < |s.threads| && Posting(s.threads[t]) && Enabled(s, t, Go) && GlobalInv(s)
    requires s.threads[t].PLink? ==> s.threads[t].mq < |s.boxes| && s.threads[t].mq !in s.gl.items
    ensures GlobalInv(PostStep(s, t))
  {
    hide Linked, Push;
    if s.threads[t].PLink? {
      LinkGlobal(s.gl, s.mNext, s.threads[t].mq);
    }
  }

  lemma PopGlobal(s: State, t: Tid)
    requires Ranges(s) && t < |s.threads| && Popping(s.threads[t]) && Enabled(s, t, Go) && GlobalInv(s)
    ensures GlobalInv(PopStep(s, t))
  {
    if s.threads[t].GTake? && s.gl.head.Some? {
      UnlinkGlobal(s.gl, s.mNext);
    }
  }

  lemma DrainGlobal(s: State, t: Tid)
    requires Ranges(s) && t < |s.threads| && Draining(s.threads[t]) && Enabled(s, t, Go) && GlobalInv(s)
    ensures GlobalInv(DrainStep(s, t))
  {
  }

  lemma EndGlobal(s: State, t: Tid)
    requires Ranges(s) && t < |s.threads| && Ending(s.threads[t]) && Enabled(s, t, Go) && GlobalInv(s)
    requires s.threads[t].ELink? ==> s.threads[t].mq < |s.boxes| && s.threads[t].mq !in s.gl.items
    ensures GlobalInv(EndStep(s, t))
  {
    if s.threads[t].ELink? {
      LinkGlobal(s.gl, s.mNext, s.threads[t].mq);
    }
  }

  // ---- every step ------------------------------------------------------------------

  /** What the steps that list a mailbox or take one rely on. */
  lemma BeforeStep(s: State, t: Tid)
    requires Inv(s) && t < |s.threads|
    ensures var pc := s.threads[t];
            && ThreadInv(s, t) && Linked(s.gl, s.mNext)
            && (s.gl.head.Some? ==> s.gl.head.value < |s.boxes| && s.boxes[s.gl.head.value].runner.None?)
            && (pc.PLink? || pc.ELink? ==> pc.mq < |s.boxes| && pc.mq !in s.gl.items)
            && (pc.PPush? ==> pc.mq < |s.boxes| && BoxData(s, pc.mq))
  {
    var pc := s.threads[t];
    assert ThreadInv(s, t);
    if s.gl.head.Some? {
      assert s.gl.items[0] in s.gl.items && Status(s, s.gl.items[0]);
    }
    if pc.PLink? || pc.ELink? || pc.PPush? {
      assert BoxOwned(s, pc.mq) && Status(s, pc.mq);
    }
  }

  lemma StepOfThread(s: State, t: Tid, c: Choice)
    requires Inv(s) && Ranges(s) && Enabled(s, t, c)
    ensures Local(s, Step(s, t, c), t, Target(s, t)) && ThreadInv(Step(s, t, c), t)
    ensures GlobalInv(Step(s, t, c))
  {
    BeforeStep(s, t);
    assert GlobalInv(s);
    hide Inv, Ranges, GlobalInv, ThreadInv, LocalData, LocalOwners, BoxData, Linked;
    hide Target, Decide, PostStep, PopStep, DrainStep, EndStep;
    var pc := s.threads[t];
    if pc.At? {
      DecideLocalData(s, t, c); DecideLocalOwners(s, t, c); DecideThread(s, t, c); DecideGlobal(s, t, c);
    } else if Popping(pc) {
      PopLocalData(s, t); PopLocalOwners(s, t); PopThread(s, t); PopGlobal(s, t);
    } else if Draining(pc) {
      DrainLocalData(s, t); DrainLocalOwners(s, t); DrainThread(s, t); DrainGlobal(s, t);
    } else if Ending(pc) {
      EndLocalData(s, t); EndLocalOwners(s, t); EndThread(s, t); EndGlobal(s, t);
    } else {
      PostLocalData(s, t); PostLocalOwners(s, t); PostThread(s, t); PostGlobal(s, t);
    }
  }

  lemma StepOfTarget(s: State, t: Tid, c: Choice, m: Mq)
    requires Inv(s) && Ranges(s) && Enabled(s, t, c) && m < |s.boxes| && Target(s, t) == Some(m)
    ensures var s' := Step(s, t, c); |s'.boxes| == |s.boxes| && BoxOwned(s', m) && BoxData(s', m) && Status(s', m)
  {
    BeforeStep(s, t);
    StepOfThread(s, t, c);
    assert BoxOwned(s, m) && BoxData(s, m) && Status(s, m) && Ends(s.boxes[m].list);
    hide Inv, Ranges, GlobalInv, ThreadInv, LocalOwners, BoxOwned, BoxData, Status, Linked, Ends;
    hide Target, Decide, PostStep, PopStep, DrainStep, EndStep;
    var pc := s.threads[t];
    if pc.At? {
      DecideOwned(s, t, c, m); DecideData(s, t, c, m); DecideStatus(s, t, c, m);
    } else if Popping(pc) {
      PopOwned(s, t, m); PopData(s, t, m); PopStatus(s, t, m);
    } else if Draining(pc) {
      DrainOwned(s, t, m); DrainData(s, t, m); DrainStatus(s, t, m);
    } else if Ending(pc) {
      EndOwned(s, t, m); EndData(s, t, m); EndStatus(s, t, m);
    } else {
      PostOwned(s, t, m); PostData(s, t, m); PostStatus(s, t, m);
    }
  }

  lemma StepInv(s: State, t: Tid, c: Choice)
    requires Inv(s) && Ranges(s) && Enabled(s, t, c)
    ensures Inv(Step(s, t, c))
  {
    var s', m := Step(s, t, c), Target(s, t);
    StepOfThread(s, t, c);
    forall u | 0 <= u < |s'.threads| ensures ThreadInv(s', u) {
      if u != t {
        assert ThreadInv(s, u);
        OtherThread(s, s', t, m, u);
      }
    }
    forall k | 0 <= k < |s'.boxes| ensures BoxOwned(s', k) && BoxData(s', k) && Status(s', k) {
      assert ThreadInv(s, t) && BoxOwned(s, k) && BoxData(s, k) && Status(s, k);
      if m == Some(k) {
        StepOfTarget(s, t, c, k);
      } else {
        OtherBox(s, s', t, m, k);
      }
    }
  }
}
