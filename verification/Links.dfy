/**
 Singly linked FIFO lists given by a head, a tail and one column of `next` links: the common
 shape of the message lists (gq.c:38-64) and of the list of mailboxes (gq.c:98-125).
 `items` is history: the sequence the links stand for.
 */
module Links {
  import opened Basics

  datatype List = List(head: Option<nat>, tail: Option<nat>, items: seq<nat>)

  const EMPTY := List(None, None, [])

  /** The successor of the i-th element of a sequence. */
  function After(xs: seq<nat>, i: nat): Option<nat>
    requires i < |xs|
  {
    if i + 1 < |xs| then Some(xs[i + 1]) else None
  }

  ghost predicate Ends(l: List) {
    if l.items == [] then l.head.None? && l.tail.None?
    else l.head == Some(l.items[0]) && l.tail == Some(l.items[|l.items| - 1])
  }

  /** The links stand for `items`. */
  ghost predicate Linked(l: List, next: seq<Option<nat>>) {
    && Distinct(l.items)
    && Ends(l)
    && (forall i :: 0 <= i < |l.items| ==> l.items[i] < |next|)
    && (forall i :: 0 <= i < |l.items| ==> next[l.items[i]] == After(l.items, i))
  }

  predicate InRange(l: List, next: seq<Option<nat>>) {
    (l.head.Some? ==> l.head.value < |next|) && (l.tail.Some? ==> l.tail.value < |next|)
  }

  /** mq_push_raw (gq.c:38-49) and gq_push_mq_raw (gq.c:114-125): the new columns of links. */
  function PushNext(l: List, next: seq<Option<nat>>, x: nat): (r: seq<Option<nat>>)
    requires InRange(l, next) && x < |next|
  {
    var next := next[x := None];
    if l.tail.Some? then next[l.tail.value := Some(x)] else next
  }

  function Push(l: List, x: nat): List {
    List(if l.tail.Some? then l.head else Some(x), Some(x), l.items + [x])
  }

  /** The head moves to the next element (gq.c:54-61, 101-107). */
  function Pop(l: List, next: seq<Option<nat>>): List
    requires InRange(l, next) && l.head.Some?
  {
    var h := next[l.head.value];
    List(h, if h.None? then None else l.tail, if l.items == [] then [] else l.items[1..])
  }

  lemma PushLinked(l: List, next: seq<Option<nat>>, x: nat)
    requires Linked(l, next) && x < |next| && x !in l.items
    ensures InRange(l, next) && Linked(Push(l, x), PushNext(l, next, x))
  {
    var r, n := Push(l, x), PushNext(l, next, x);
    forall i | 0 <= i < |r.items| ensures r.items[i] < |n| && n[r.items[i]] == After(r.items, i) {
      if i < |l.items| {
        assert r.items[i] == l.items[i] && l.items[i] in l.items;
        assert next[l.items[i]] == After(l.items, i);
      }
    }
  }

  lemma PopLinked(l: List, next: seq<Option<nat>>)
    requires Linked(l, next) && l.head.Some?
    ensures InRange(l, next) && l.items != [] && Linked(Pop(l, next), next)
    ensures l.head.value == l.items[0] && Pop(l, next).items == l.items[1..]
    ensures l.head.value !in Pop(l, next).items
  {
    var r := Pop(l, next);
    assert next[l.items[0]] == After(l.items, 0);
    forall i | 0 <= i < |r.items| ensures next[r.items[i]] == After(r.items, i) {
      assert next[l.items[i + 1]] == After(l.items, i + 1);
    }
  }

  /** A list does not notice changes of links that are not its own. */
  lemma Frame(l: List, next: seq<Option<nat>>, next': seq<Option<nat>>)
    requires Linked(l, next) && |next| <= |next'|
    requires forall x :: x in l.items && x < |next| ==> next'[x] == next[x]
    ensures Linked(l, next')
  {
    forall i | 0 <= i < |l.items| ensures next'[l.items[i]] == After(l.items, i) {
      assert l.items[i] in l.items && next[l.items[i]] == After(l.items, i);
    }
  }
}
