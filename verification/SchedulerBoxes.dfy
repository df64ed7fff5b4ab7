/**
 What the timer sessions take for granted of a mailbox: it is a queue with one place behind it for
 the message in flight.  Every step of the scheduler does to a mailbox one of the four things below,
 whichever threads take part; `Sessions` moves its timer messages by them.
 */
module SchedulerBoxes {
  import opened Basics
  import opened Links
  import opened Scheduler
  import opened SchedulerInv

  /** The messages in a mailbox, and the one that its worker has popped and not handled yet. */
  datatype Queue<T> = Queue(items: seq<T>, flight: seq<T>)

  function QueueOf(s: State, m: Mq): Queue<Msg>
    requires m < |s.boxes|
  {
    Queue(s.boxes[m].list.items, InFlight(s, m))
  }

  /** Nothing, a push, a pop by the only worker that runs the mailbox, or the end of handling. */
  ghost predicate QueueStep<T(!new)>(a: Queue<T>, b: Queue<T>) {
    || b == a
    || (exists x: T :: b == Queue(a.items + [x], a.flight))
    || (a.items != [] && a.flight == [] && b == Queue(a.items[1..], [a.items[0]]))
    || (a.flight != [] && b == Queue(a.items, []))
  }

  lemma DecideQueue(s: State, t: Tid, c: Choice, m: Mq)
    requires Ranges(s) && t < |s.threads| && s.threads[t].At? && Enabled(s, t, c) && ThreadInv(s, t)
    requires m < |s.boxes| && BoxRun(s, m) && Target(s, t) == Some(m)
    ensures QueueStep(QueueOf(s, m), QueueOf(Decide(s, t, c), m))
  {
    hide Ranges;
  }

  lemma PostQueue(s: State, t: Tid, m: Mq)
    requires Ranges(s) && t < |s.threads| && Posting(s.threads[t]) && Enabled(s, t, Go) && ThreadInv(s, t)
    requires m < |s.boxes| && BoxRun(s, m) && Target(s, t) == Some(m)
    ensures QueueStep(QueueOf(s, m), QueueOf(PostStep(s, t), m))
  {
    hide Ranges, PushNext;
    assert InFlight(PostStep(s, t), m) == InFlight(s, m);
    match s.threads[t]
    case PPush(_, msg, _) =>
      assert QueueOf(PostStep(s, t), m) == Queue(s.boxes[m].list.items + [msg], InFlight(s, m));
    case _ =>
  }

  lemma PopQueue(s: State, t: Tid, m: Mq)
    requires Ranges(s) && t < |s.threads| && Popping(s.threads[t]) && Enabled(s, t, Go) && ThreadInv(s, t)
    requires m < |s.boxes| && BoxRun(s, m) && Target(s, t) == Some(m) && s.boxes[m].runner == None
    ensures QueueStep(QueueOf(s, m), QueueOf(PopStep(s, t), m))
  {
    hide Ranges, Links.Pop;
  }

  lemma TakeQueue(s: State, t: Tid, m: Mq)
    requires Ranges(s) && t < |s.threads| && s.threads[t] == MTake(m) && ThreadInv(s, t)
    requires m < |s.boxes| && Linked(s.boxes[m].list, s.msgNext)
    ensures QueueStep(QueueOf(s, m), QueueOf(DrainStep(s, t), m))
  {
    hide Linked;
    if s.boxes[m].list.head.Some? {
      PopLinked(s.boxes[m].list, s.msgNext);
      hide Ranges, Links.Pop;
      var items := s.boxes[m].list.items;
      assert QueueOf(s, m) == Queue(items, []) && QueueOf(DrainStep(s, t), m) == Queue(items[1..], [items[0]]);
    } else {
      hide Ranges;
      assert QueueOf(DrainStep(s, t), m) == QueueOf(s, m);
    }
  }

  lemma DrainQueue(s: State, t: Tid, m: Mq)
    requires Ranges(s) && t < |s.threads| && Draining(s.threads[t]) && Enabled(s, t, Go) && ThreadInv(s, t)
    requires m < |s.boxes| && BoxRun(s, m) && Target(s, t) == Some(m) && Linked(s.boxes[m].list, s.msgNext)
    ensures QueueStep(QueueOf(s, m), QueueOf(DrainStep(s, t), m))
  {
    hide Ranges, Linked, Links.Pop, QueueStep;
    if s.threads[t].MTake? {
      TakeQueue(s, t, m);
    } else {
      SameQueue(QueueOf(s, m));
    }
  }

  lemma SameQueue<T(!new)>(q: Queue<T>)
    ensures QueueStep(q, q)
  {
  }

  lemma EndQueue(s: State, t: Tid, m: Mq)
    requires Ranges(s) && t < |s.threads| && Ending(s.threads[t]) && Enabled(s, t, Go) && ThreadInv(s, t)
    requires m < |s.boxes| && BoxRun(s, m) && Target(s, t) == Some(m)
    ensures QueueStep(QueueOf(s, m), QueueOf(EndStep(s, t), m))
  {
    hide Ranges, PushNext, Push;
  }

  lemma OtherQueue(s: State, s': State, t: Tid, m: Option<Mq>, k: Mq)
    requires Local(s, s', t, m) && m != Some(k) && k < |s.boxes| && ThreadInv(s, t) && BoxRun(s, k)
    ensures k < |s'.boxes| && QueueOf(s', k) == QueueOf(s, k)
  {
  }

  /** Every step of every thread, for every mailbox. */
  lemma StepQueue(s: State, t: Tid, c: Choice, m: Mq)
    requires Inv(s) && Ranges(s) && Enabled(s, t, c) && m < |s.boxes|
    ensures m < |Step(s, t, c).boxes| && QueueStep(QueueOf(s, m), QueueOf(Step(s, t, c), m))
  {
    BeforeStep(s, t);
    StepOfThread(s, t, c);
    assert BoxOwned(s, m) && BoxData(s, m);
    assert BoxRun(s, m) && Linked(s.boxes[m].list, s.msgNext);
    var pc, target := s.threads[t], Target(s, t);
    if target != Some(m) {
      hide Inv, Ranges, Step, LocalData, LocalOwners;
      OtherQueue(s, Step(s, t, c), t, target, m);
    } else {
      assert pc.GTake? ==> s.boxes[m].runner == None;
      hide Inv, Ranges, BoxData, BoxOwned, QueueOf, QueueStep, Linked, GlobalInv, LocalData, LocalOwners;
      TargetQueue(s, t, c, m);
    }
  }

  lemma TargetQueue(s: State, t: Tid, c: Choice, m: Mq)
    requires Ranges(s) && Enabled(s, t, c) && ThreadInv(s, t) && m < |s.boxes| && Target(s, t) == Some(m)
    requires BoxRun(s, m) && Linked(s.boxes[m].list, s.msgNext) && (s.threads[t].GTake? ==> s.boxes[m].runner == None)
    ensures m < |Step(s, t, c).boxes| && QueueStep(QueueOf(s, m), QueueOf(Step(s, t, c), m))
  {
    hide Ranges, ThreadInv, BoxRun, QueueOf, QueueStep, Linked;
    var pc := s.threads[t];
    if pc.At? {
      DecideQueue(s, t, c, m);
    } else if Popping(pc) {
      PopQueue(s, t, m);
    } else if Draining(pc) {
      DrainQueue(s, t, m);
    } else if Ending(pc) {
      EndQueue(s, t, m);
    } else {
      PostQueue(s, t, m);
    }
  }
}
