/**
 The two-level mailbox scheduler (gq.c, with tWorker of main.c) as a transition system.

 Any number of threads and of mailboxes; one step is one lock acquisition, one lock release
 or one critical-section action.  The linked lists are modelled link by link: a message node
 has a `next` field, a mailbox has `mHead`, `mTail`, `mIsG` and `mNext`, and the global queue
 has its own head and tail.  A few history fields say what the links mean.
 */
module Scheduler {
  import opened Basics
  import opened Links

  type Tid = nat  // a thread
  type Mq = nat   // a mailbox
  type Msg = nat  // a message node; allocation always yields a new one

  /** Where a thread is when it is not inside a call of this file. */
  datatype Ctx =
    | Outside                      // in tWorker's outer loop, or in any other thread's own code
    | Handling(hmq: Mq, hmsg: Msg) // inside env_process_msg, run on behalf of mailbox hmq
    | Ticking                      // inside gt_update, with the timer lock held

  datatype Pc =
    | At(ctx: Ctx)
    // gq_push_msg
    | PLock(mq: Mq, msg: Msg, ctx: Ctx)
    | PPush(mq: Mq, msg: Msg, ctx: Ctx)
    | PTest(mq: Mq, ctx: Ctx)
    | PLockG(mq: Mq, ctx: Ctx)
    | PLink(mq: Mq, ctx: Ctx)
    | PUnlockG(mq: Mq, ctx: Ctx)
    | PSetG(mq: Mq, ctx: Ctx)
    | PUnlock(mq: Mq, ctx: Ctx)
    // gq_pop
    | GTake
    | GUnlock(got: Option<Mq>)
    // mq_pop
    | MLock(mq: Mq)
    | MTake(mq: Mq)
    | MUnlock(mq: Mq, taken: Option<Msg>)
    // gq_worker_end
    | ELock(mq: Mq)
    | ETest(mq: Mq)
    | ELockG(mq: Mq)
    | ELink(mq: Mq)
    | EUnlockG(mq: Mq)
    | EUnlock(mq: Mq)
    // gt_add, called from a handler, with the timer lock held
    | TAdd(mq: Mq, msg: Msg)

  /** A message node's mailbox, and (history) the thread that is about to push it. */
  datatype Node = Node(dest: Mq, pusher: Option<Tid>)

  /** A mailbox.  The last three fields are history: the thread that runs the mailbox, and
      everything ever pushed and ever handled. */
  datatype Box = Box(
    lock: Option<Tid>, list: List, isG: bool,
    runner: Option<Tid>, pushed: seq<Msg>, handled: seq<Msg>)

  /** `msgNext` is the `next` field of every message, `mNext` the mNext field of every mailbox. */
  datatype State = State(
    threads: seq<Pc>, boxes: seq<Box>, mNext: seq<Option<Mq>>, nodes: seq<Node>, msgNext: seq<Option<Msg>>,
    gLock: Option<Tid>, tLock: Option<Tid>, gl: List)

  /** What a thread decides to do next where it has a choice. */
  datatype Choice = Go | Post(to: Mq) | Pop | Tick | AddTimer | Finish

  function Init(threads: nat, boxes: nat): State {
    State(seq(threads, i => At(Outside)),
          seq(boxes, i => Box(None, EMPTY, false, None, [], [])),
          seq(boxes, i => None), [], [], None, None, EMPTY)
  }

  // ---- what a program counter says about the thread --------------------------------

  function HoldsM(pc: Pc): Option<Mq> {
    match pc
    case PPush(m, _, _) => Some(m)
    case PTest(m, _) => Some(m)
    case PLockG(m, _) => Some(m)
    case PLink(m, _) => Some(m)
    case PUnlockG(m, _) => Some(m)
    case PSetG(m, _) => Some(m)
    case PUnlock(m, _) => Some(m)
    case MTake(m) => Some(m)
    case MUnlock(m, _) => Some(m)
    case ETest(m) => Some(m)
    case ELockG(m) => Some(m)
    case ELink(m) => Some(m)
    case EUnlockG(m) => Some(m)
    case EUnlock(m) => Some(m)
    case _ => None
  }

  predicate HoldsG(pc: Pc) {
    pc.PLink? || pc.PUnlockG? || pc.GTake? || pc.GUnlock? || pc.ELink? || pc.EUnlockG?
  }

  /** The context a thread returns to from gq_push_msg, or is in already. */
  function Context(pc: Pc): Ctx {
    match pc
    case At(c) => c
    case PLock(_, _, c) => c
    case PPush(_, _, c) => c
    case PTest(_, c) => c
    case PLockG(_, c) => c
    case PLink(_, c) => c
    case PUnlockG(_, c) => c
    case PSetG(_, c) => c
    case PUnlock(_, c) => c
    case TAdd(m, msg) => Handling(m, msg)
    case _ => Outside
  }

  predicate HoldsT(pc: Pc) {
    Context(pc).Ticking? || pc.TAdd?
  }

  /** The mailbox this thread runs: popped from the global queue, not yet retired or re-listed. */
  function Runs(pc: Pc): Option<Mq> {
    match pc
    case GUnlock(got) => got
    case MLock(m) => Some(m)
    case MTake(m) => Some(m)
    case MUnlock(m, _) => Some(m)
    case ELock(m) => Some(m)
    case ETest(m) => Some(m)
    case ELockG(m) => Some(m)
    case ELink(m) => Some(m)
    case _ => if Context(pc).Handling? then Some(Context(pc).hmq) else None
  }

  /** The message popped by this thread and not yet fully handled. */
  function Flight(pc: Pc): seq<Msg> {
    match pc
    case MUnlock(_, Some(m)) => [m]
    case _ => if Context(pc).Handling? then [Context(pc).hmsg] else []
  }

  /** The message this thread is about to push. */
  function Pushing(pc: Pc): Option<Msg> {
    match pc
    case PLock(_, m, _) => Some(m)
    case PPush(_, m, _) => Some(m)
    case _ => None
  }

  /** The poster has linked mailbox m into the global queue but has not yet set mIsG. */
  predicate Linking(pc: Pc, m: Mq) {
    (pc.PUnlockG? || pc.PSetG?) && pc.mq == m
  }

  /** The poster has pushed a message and is about to list mailbox m if that is needed. */
  predicate AboutToList(pc: Pc, m: Mq) {
    (pc.PTest? || pc.PLockG? || pc.PLink?) && pc.mq == m
  }

  // ---- ranges ----------------------------------------------------------------------

  predicate PcInRange(s: State, pc: Pc) {
    && (Context(pc).Handling? ==> Context(pc).hmq < |s.boxes| && Context(pc).hmsg < |s.nodes|)
    && (HoldsM(pc).Some? ==> HoldsM(pc).value < |s.boxes|)
    && (Runs(pc).Some? ==> Runs(pc).value < |s.boxes|)
    && (Pushing(pc).Some? ==> Pushing(pc).value < |s.nodes| && pc.mq < |s.boxes|)
    && (pc.MUnlock? && pc.taken.Some? ==> pc.taken.value < |s.nodes|)
  }

  ghost predicate Ranges(s: State) {
    && |s.mNext| == |s.boxes| && |s.msgNext| == |s.nodes|
    && (forall t :: 0 <= t < |s.threads| ==> PcInRange(s, s.threads[t]))
    && (forall m :: 0 <= m < |s.boxes| ==> InRange(s.boxes[m].list, s.msgNext))
    && InRange(s.gl, s.mNext)
  }

  // ---- steps -----------------------------------------------------------------------

  function Goto(s: State, t: Tid, pc: Pc): State
    requires t < |s.threads|
  {
    s.(threads := s.threads[t := pc])
  }

  function SetBox(s: State, m: Mq, b: Box): State
    requires m < |s.boxes|
  {
    s.(boxes := s.boxes[m := b])
  }

  /** Which steps thread t can take now. */
  predicate Enabled(s: State, t: Tid, c: Choice) {
    t < |s.threads| &&
    var pc := s.threads[t];
    match pc
    case At(Outside) => (c.Post? && c.to < |s.boxes|) || (c.Pop? && s.gLock.None?) || (c.Tick? && s.tLock.None?)
    case At(Handling(_, _)) => (c.Post? && c.to < |s.boxes|) || (c.AddTimer? && s.tLock.None?) || c.Finish?
    case At(Ticking) => (c.Post? && c.to < |s.boxes|) || c.Finish?
    case PLock(m, _, _) => c.Go? && m < |s.boxes| && s.boxes[m].lock.None?
    case MLock(m) => c.Go? && m < |s.boxes| && s.boxes[m].lock.None?
    case ELock(m) => c.Go? && m < |s.boxes| && s.boxes[m].lock.None?
    case PLockG(_, _) => c.Go? && s.gLock.None?
    case ELockG(_) => c.Go? && s.gLock.None?
    case _ => c.Go?
  }

  predicate Popping(pc: Pc) {
    pc.GTake? || pc.GUnlock? || pc.TAdd?
  }

  predicate Draining(pc: Pc) {
    pc.MLock? || pc.MTake? || pc.MUnlock?
  }

  predicate Ending(pc: Pc) {
    pc.ELock? || pc.ETest? || pc.ELockG? || pc.ELink? || pc.EUnlockG? || pc.EUnlock?
  }

  predicate Posting(pc: Pc) {
    !pc.At? && !Popping(pc) && !Draining(pc) && !Ending(pc)
  }

  /** The step of thread t. */
  function Step(s: State, t: Tid, c: Choice): State
    requires Ranges(s) && Enabled(s, t, c)
  {
    var pc := s.threads[t];
    if pc.At? then Decide(s, t, c)
    else if Popping(pc) then PopStep(s, t)
    else if Draining(pc) then DrainStep(s, t)
    else if Ending(pc) then EndStep(s, t)
    else PostStep(s, t)
  }

  /** A thread that is in no call starts one, or returns from its context. */
  function Decide(s: State, t: Tid, c: Choice): State
    requires Ranges(s) && Enabled(s, t, c) && s.threads[t].At?
  {
    var ctx := s.threads[t].ctx;
    match c
    case Post(m) =>
      Goto(s.(nodes := s.nodes + [Node(m, Some(t))], msgNext := s.msgNext + [None]), t, PLock(m, |s.nodes|, ctx))
    case Pop => Goto(s.(gLock := Some(t)), t, GTake)
    case Tick => Goto(s.(tLock := Some(t)), t, At(Ticking))
    case AddTimer => Goto(s.(tLock := Some(t)), t, TAdd(ctx.hmq, ctx.hmsg))
    case Finish =>
      (match ctx
       case Handling(m, msg) =>
         Goto(SetBox(s, m, s.boxes[m].(handled := s.boxes[m].handled + [msg])), t, MLock(m))
       case _ => Goto(s.(tLock := None), t, At(Outside)))
    case Go => s
  }

  /** gq_push_msg (gq.c:127-138) */
  function PostStep(s: State, t: Tid): State
    requires Ranges(s) && t < |s.threads|
  {
    match s.threads[t]
    case PLock(m, msg, ctx) => Goto(SetBox(s, m, s.boxes[m].(lock := Some(t))), t, PPush(m, msg, ctx))
    case PPush(m, msg, ctx) =>
      var b := s.boxes[m];
      Goto(SetBox(s, m, b.(list := Push(b.list, msg), pushed := b.pushed + [msg]))
          .(msgNext := PushNext(b.list, s.msgNext, msg), nodes := s.nodes[msg := s.nodes[msg].(pusher := None)]),
          t, PTest(m, ctx))
    case PTest(m, ctx) => Goto(s, t, if s.boxes[m].isG then PUnlock(m, ctx) else PLockG(m, ctx))
    case PLockG(m, ctx) => Goto(s.(gLock := Some(t)), t, PLink(m, ctx))
    case PLink(m, ctx) => Goto(s.(gl := Push(s.gl, m), mNext := PushNext(s.gl, s.mNext, m)), t, PUnlockG(m, ctx))
    case PUnlockG(m, ctx) => Goto(s.(gLock := None), t, PSetG(m, ctx))
    case PSetG(m, ctx) => Goto(SetBox(s, m, s.boxes[m].(isG := true)), t, PUnlock(m, ctx))
    case PUnlock(m, ctx) => Goto(SetBox(s, m, s.boxes[m].(lock := None)), t, At(ctx))
    case _ => s
  }

  /** gq_pop (gq.c:98-112), and the release that ends gt_add (gt.c:51) */
  function PopStep(s: State, t: Tid): State
    requires Ranges(s) && t < |s.threads|
  {
    match s.threads[t]
    case GTake =>
      if s.gl.head.None? then Goto(s, t, GUnlock(None)) else
      var m := s.gl.head.value;
      Goto(SetBox(s, m, s.boxes[m].(runner := Some(t))).(gl := Links.Pop(s.gl, s.mNext), mNext := s.mNext[m := None]),
          t, GUnlock(Some(m)))
    case GUnlock(got) => Goto(s.(gLock := None), t, if got.Some? then MLock(got.value) else At(Outside))
    case TAdd(m, msg) => Goto(s.(tLock := None), t, At(Handling(m, msg)))
    case _ => s
  }

  /** mq_pop (gq.c:51-64) */
  function DrainStep(s: State, t: Tid): State
    requires Ranges(s) && t < |s.threads|
  {
    match s.threads[t]
    case MLock(m) => Goto(SetBox(s, m, s.boxes[m].(lock := Some(t))), t, MTake(m))
    case MTake(m) =>
      var b := s.boxes[m];
      if b.list.head.None? then Goto(s, t, MUnlock(m, None))
      else Goto(SetBox(s, m, b.(list := Links.Pop(b.list, s.msgNext))), t, MUnlock(m, b.list.head))
    case MUnlock(m, taken) =>
      Goto(SetBox(s, m, s.boxes[m].(lock := None)), t,
          if taken.Some? then At(Handling(m, taken.value)) else ELock(m))
    case _ => s
  }

  /** gq_worker_end (gq.c:140-150) */
  function EndStep(s: State, t: Tid): State
    requires Ranges(s) && t < |s.threads|
  {
    match s.threads[t]
    case ELock(m) => Goto(SetBox(s, m, s.boxes[m].(lock := Some(t))), t, ETest(m))
    case ETest(m) =>
      if s.boxes[m].list.head.Some? then Goto(s, t, ELockG(m))
      else Goto(SetBox(s, m, s.boxes[m].(isG := false, runner := None)), t, EUnlock(m))
    case ELockG(m) => Goto(s.(gLock := Some(t)), t, ELink(m))
    case ELink(m) =>
      Goto(SetBox(s, m, s.boxes[m].(runner := None)).(gl := Push(s.gl, m), mNext := PushNext(s.gl, s.mNext, m)),
          t, EUnlockG(m))
    case EUnlockG(m) => Goto(s.(gLock := None), t, EUnlock(m))
    case EUnlock(m) => Goto(SetBox(s, m, s.boxes[m].(lock := None)), t, At(Outside))
    case _ => s
  }
}
