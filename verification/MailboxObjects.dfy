/**
 The mailbox and the global queue of gq.c as linked objects updated in place, with the source's
 asserts at their places.  The methods that hold a lock throughout are given here as seen by the
 holder; `Scheduler` interleaves them.  `items` is the list that the links stand for.
 */
module MailboxObjects {
  import opened Basics
  import Links

  /** The number of an object that may be null. */
  function NumberOf(o: Message?, num: Message -> nat): Option<nat> {
    if o == null then None else Some(num(o))
  }

  function MqNumberOf(o: Mailbox?, num: Mailbox -> nat): Option<nat> {
    if o == null then None else Some(num(o))
  }

  class Message {
    var next: Message?

    constructor ()
      ensures next == null
    {
      next := null;
    }
  }

  class Mailbox {
    var mHead: Message?
    var mTail: Message?
    var mIsG: bool
    var mNext: Mailbox?
    ghost var items: seq<Message>

    /** mq_create (gq.c:17-23) */
    constructor ()
      ensures Valid() && items == [] && !mIsG && mNext == null
    {
      mHead, mTail, mIsG, mNext := null, null, false, null;
      items := [];
    }

    ghost predicate Valid()
      reads `mHead, `mTail, `items, items
    {
      && (forall i, j :: 0 <= i < j < |items| ==> items[i] != items[j])
      && (if items == [] then mHead == null && mTail == null
          else mHead == items[0] && mTail == items[|items| - 1] && mTail.next == null)
      && (forall i :: 0 <= i < |items| - 1 ==> items[i].next == items[i + 1])
    }

    /** With the messages numbered, the fields and links are those of `Links` for the same sequence. */
    lemma SameLinks(l: Links.List, next: seq<Option<nat>>, num: Message -> nat)
      requires Valid() && Links.Linked(l, next) && |l.items| == |items|
      requires forall i :: 0 <= i < |items| ==> l.items[i] == num(items[i])
      ensures l.head == NumberOf(mHead, num) && l.tail == NumberOf(mTail, num)
      ensures forall i :: 0 <= i < |items| ==> next[num(items[i])] == NumberOf(items[i].next, num)
    {
      forall i | 0 <= i < |items| ensures next[num(items[i])] == NumberOf(items[i].next, num) {
        assert next[l.items[i]] == Links.After(l.items, i);
        assert i < |items| - 1 ==> items[i].next == items[i + 1];
      }
    }

    /** mq_push_raw (gq.c:38-49) */
    method PushRaw(msg: Message)
      requires Valid() && msg !in items
      modifies `mHead, `mTail, `items, msg, if mTail == null then {} else {mTail}
      ensures Valid() && items == old(items) + [msg]
    {
      msg.next := null;
      if mTail != null {
        assert mTail.next == null;
        mTail.next := msg;
        mTail := msg;
      } else {
        assert mHead == null;
        mHead := msg;
        mTail := msg;
      }
      items := items + [msg];
    }

    /** mq_pop (gq.c:51-64) */
    method Pop() returns (msg: Message?)
      requires Valid()
      modifies `mHead, `mTail, `items
      ensures Valid()
      ensures old(items) == [] ==> msg == null && items == []
      ensures old(items) != [] ==> msg == old(items)[0] && items == old(items)[1..]
    {
      msg := mHead;
      if msg != null {
        assert |items| > 1 ==> items[0].next == items[0 + 1];
        mHead := msg.next;
        if mHead == null {
          assert mTail == msg;
          mTail := null;
        }
        items := items[1..];
      }
    }

    /** mq_empty (gq.c:66-68) */
    predicate IsEmpty()
      requires Valid()
      reads `mHead, `mTail, `items, items
      ensures IsEmpty() <==> items == []
    {
      mHead == null
    }
  }

  class GlobalQueue {
    var mHead: Mailbox?
    var mTail: Mailbox?
    ghost var items: seq<Mailbox>

    /** gq_init (gq.c:86-91) */
    constructor ()
      ensures Valid() && items == []
    {
      mHead, mTail, items := null, null, [];
    }

    ghost predicate Valid()
      reads this, (set m | m in items)`mNext
    {
      && (forall i, j :: 0 <= i < j < |items| ==> items[i] != items[j])
      && (if items == [] then mHead == null && mTail == null
          else mHead == items[0] && mTail == items[|items| - 1] && mTail.mNext == null)
      && (forall i :: 0 <= i < |items| - 1 ==> items[i].mNext == items[i + 1])
    }

    /** With the mailboxes numbered, the fields and links are those of `Links` for the same sequence. */
    lemma SameLinks(l: Links.List, next: seq<Option<nat>>, num: Mailbox -> nat)
      requires Valid() && Links.Linked(l, next) && |l.items| == |items|
      requires forall i :: 0 <= i < |items| ==> l.items[i] == num(items[i])
      ensures l.head == MqNumberOf(mHead, num) && l.tail == MqNumberOf(mTail, num)
      ensures forall i :: 0 <= i < |items| ==> next[num(items[i])] == MqNumberOf(items[i].mNext, num)
    {
      forall i | 0 <= i < |items| ensures next[num(items[i])] == MqNumberOf(items[i].mNext, num) {
        assert next[l.items[i]] == Links.After(l.items, i);
        assert i < |items| - 1 ==> items[i].mNext == items[i + 1];
      }
    }

    /** gq_push_mq_raw (gq.c:114-125) */
    method PushMqRaw(mq: Mailbox)
      requires Valid() && mq !in items
      modifies this, mq`mNext, (if mTail == null then {} else {mTail})`mNext
      ensures Valid() && items == old(items) + [mq]
    {
      mq.mNext := null;
      if mTail != null {
        assert mTail.mNext == null;
        mTail.mNext := mq;
        mTail := mq;
      } else {
        assert mHead == null;
        mHead := mq;
        mTail := mq;
      }
      items := items + [mq];
    }

    /** gq_pop (gq.c:98-112) */
    method Pop() returns (mq: Mailbox?)
      requires Valid()
      modifies this, (if mHead == null then {} else {mHead})`mNext
      ensures Valid()
      ensures old(items) == [] ==> mq == null && items == []
      ensures old(items) != [] ==> mq == old(items)[0] && items == old(items)[1..] && mq.mNext == null
    {
      mq := mHead;
      if mq != null {
        assert |items| > 1 ==> items[0].mNext == items[0 + 1];
        mHead := mq.mNext;
        if mHead == null {
          assert mTail == mq;
          mTail := null;
        }
        mq.mNext := null;
        items := items[1..];
      }
    }

    /** gq_push_msg (gq.c:127-138): a mailbox that is neither listed nor held gets listed. */
    method PushMsg(mq: Mailbox, msg: Message)
      requires Valid() && mq.Valid() && msg !in mq.items
      requires !mq.mIsG ==> mq !in items && mq.mNext == null
      modifies this, mq, msg, (if mq.mTail == null then {} else {mq.mTail}),
               (if mTail == null then {} else {mTail})`mNext
      ensures Valid() && mq.Valid() && mq.items == old(mq.items) + [msg] && mq.mIsG
      ensures items == if old(mq.mIsG) then old(items) else old(items) + [mq]
    {
      mq.PushRaw(msg);
      if !mq.mIsG {
        assert mq.mNext == null;
        PushMqRaw(mq);
        mq.mIsG := true;
      }
    }

    /** gq_worker_end (gq.c:140-150): a held mailbox is listed again or retired. */
    method WorkerEnd(mq: Mailbox)
      requires Valid() && mq.Valid() && mq.mIsG && mq !in items
      modifies this, mq`mIsG, mq`mNext, (if mq.items == [] || mTail == null then {} else {mTail})`mNext
      ensures Valid() && mq.Valid() && mq.items == old(mq.items)
      ensures mq.mIsG <==> mq.items != []
      ensures items == if mq.items == [] then old(items) else old(items) + [mq]
    {
      assert mq.mIsG;
      if !mq.IsEmpty() {
        PushMqRaw(mq);
      } else {
        mq.mIsG := false;
      }
    }

    lemma First()
      requires Valid() && items != []
      ensures mHead == items[0] && items[0] !in items[1..]
    {
    }

    /** One round of tWorker (main.c:81-91) that nobody interrupts: the first mailbox is run
        until it is empty, and retired. */
    method WorkerRound() returns (handled: seq<Message>)
      requires Valid() && items != [] && items[0].Valid() && items[0].mIsG
      modifies this, items[0]
      ensures Valid() && items == old(items)[1..]
      ensures handled == old(items[0].items)
      ensures var mq := old(items)[0]; mq.Valid() && mq.items == [] && !mq.mIsG
    {
      hide Mailbox.Valid, GlobalQueue.Valid;
      First();
      var mq := Pop();
      handled := [];
      var msg := mq.Pop();
      while msg != null
        invariant Valid() && items == old(items)[1..]
        invariant mq.Valid() && mq.mIsG && mq !in items
        invariant msg == null ==> mq.items == [] && handled == old(items[0].items)
        invariant msg != null ==> handled + [msg] + mq.items == old(items[0].items)
        decreases |mq.items|, msg != null
      {
        handled := handled + [msg];
        msg := mq.Pop();
      }
      WorkerEnd(mq);
    }
  }
}
