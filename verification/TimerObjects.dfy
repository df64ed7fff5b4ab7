/**
 common/timer/timer.c in place: numbered nodes on doubly linked queues, with the source's asserts
 at their places.  Every method is proved to do to `View()` what `TimingWheel` says.
 */
module TimerObjects {
  import opened TimingWheel

  /** tobj_t (timer.c:16-26); `ud` stands for the pair of callback and user data. */
  class TObj {
    const id: Id
    var timeout: nat
    var timeleft: nat
    var repeat: nat
    var ud: Ud
    var container: TObjQueue?
    var prev: TObj?
    var next: TObj?

    constructor (id: Id)
      ensures this.id == id && container == null && prev == null && next == null
    {
      this.id := id;
      timeout, timeleft, repeat, ud := 0, 0, 0, 0;
      container, prev, next := null, null, null;
    }

    ghost function View(): Entry
      reads `timeout, `timeleft, `repeat, `ud
    {
      Entry(id, ud, timeout, timeleft, repeat)
    }
  }

  /** tobjqueue_t (timer.c:28-33); `items` is what the links stand for. */
  class TObjQueue {
    var head: TObj?
    var tail: TObj?
    var objn: nat
    ghost var items: seq<TObj>

    constructor ()
      ensures Valid() && items == []
    {
      head, tail, objn, items := null, null, 0, [];
    }

    ghost predicate Valid()
      reads this, items`container, items`prev, items`next
    {
      && objn == |items|
      && (if items == [] then head == null && tail == null
          else head == items[0] && tail == items[|items| - 1] && head.prev == null && tail.next == null)
      && (forall o :: o in items ==> o.container == this)
      && (forall i, j :: 0 <= i < j < |items| ==> items[i] != items[j])
      && (forall i :: 0 <= i < |items| - 1 ==> items[i].next == items[i + 1] && items[i + 1].prev == items[i])
    }

    /** A queue is no concern of changes elsewhere. */
    twostate lemma Still()
      requires old(Valid()) && unchanged(this) && forall o :: o in items ==> unchanged(o)
      ensures Valid()
    {
      assert forall i :: 0 <= i < |items| ==> items[i] in items;
    }

    /** uq_addtail (timer.c:154-172) */
    method AddTail(o: TObj)
      requires Valid() && o.container == null
      modifies this, o`container, o`prev, o`next, (if tail == null then {} else {tail})`next
      ensures Valid() && items == old(items) + [o] && o.container == this
    {
      assert o !in items;
      o.container := this;
      if tail != null {
        assert head != null;
        tail.next := o;
        o.prev := tail;
        o.next := null;
        tail := o;
      } else {
        assert head == null;
        head := o;
        tail := o;
        o.prev := null;
        o.next := null;
      }
      objn := objn + 1;
      items := items + [o];
    }

    /** uq_pophead (timer.c:174-192) */
    method PopHead() returns (o: TObj?)
      requires Valid()
      modifies this, (if head == null then {} else {head})`container, (if head == null then {} else {head})`prev,
               (if head == null then {} else {head})`next, (if |items| < 2 then {} else {items[1]})`prev
      ensures Valid()
      ensures old(items) == [] ==> o == null && items == []
      ensures old(items) != [] ==> o == old(items)[0] && items == old(items)[1..] && o.container == null
    {
      o := head;
      if o != null {
        assert this == o.container;
        assert |items| > 1 ==> items[0].next == items[0 + 1];
        head := o.next;
        if head == null {
          assert o == tail;
          tail := null;
        } else {
          assert tail != null;
          head.prev := null;
        }
        o.next := null;
        o.prev := null;
        o.container := null;
        objn := objn - 1;
        items := items[1..];
      }
    }
  }

  /** timer_t (timer.c:35-44) */
  class TimerWheel {
    const ticklist: seq<TObjQueue>
    const longlist: TObjQueue
    const freelist: TObjQueue
    var current: nat
    var ticking: nat
    var objpool: seq<TObj>
    ghost const queues: set<TObjQueue>  // all queues of this timer
    ghost var nodes: set<TObj>          // all nodes of the pool

    static method NewQueues(n: nat) returns (qs: seq<TObjQueue>)
      ensures |qs| == n && forall i :: 0 <= i < n ==> fresh(qs[i]) && qs[i].Valid() && qs[i].items == []
      ensures forall i, j :: 0 <= i < j < n ==> qs[i] != qs[j]
    {
      qs := [];
      while |qs| < n
        invariant |qs| <= n
        invariant forall i :: 0 <= i < |qs| ==> fresh(qs[i]) && qs[i].Valid() && qs[i].items == []
        invariant forall i, j :: 0 <= i < j < |qs| ==> qs[i] != qs[j]
      {
        var q := new TObjQueue();
        qs := qs + [q];
      }
    }

    /** timer_new (timer.c:52-63) */
    constructor (tickn: nat)
      requires tickn > 0
      ensures Valid({}, {}) && Shows(New(tickn)) && fresh(queues) && nodes == {}
    {
      hide TObjQueue.Valid;
      var qs := NewQueues(tickn);
      ticklist := qs;
      longlist := new TObjQueue();
      freelist := new TObjQueue();
      current, ticking, objpool := 0, 0, [];
      nodes := {};
      queues := (set q | q in qs) + {longlist, freelist};
    }

    /** Every node of the pool is on exactly one queue, except those in `out`, which are on none.
        `tmp` holds the queues that exist besides those of the timer. */
    ghost predicate Valid(out: set<TObj>, tmp: set<TObjQueue>)
      reads `objpool, `nodes, queues, tmp, nodes`container, nodes`prev, nodes`next
    {
      && (forall i, j :: 0 <= i < j < |ticklist| ==> ticklist[i] != ticklist[j])
      && longlist !in ticklist && freelist !in ticklist && longlist != freelist && tmp !! queues
      && (forall i :: 0 <= i < |ticklist| ==> ticklist[i] in queues) && longlist in queues && freelist in queues
      && (forall i :: 0 <= i < |objpool| ==> objpool[i] in nodes && objpool[i].id == i + 1)
      && (forall o :: o in nodes ==> o.id <= |objpool| && objpool[o.id - 1] == o)
      && out <= nodes
      && (forall q :: q in queues + tmp ==> (forall o :: o in q.items ==> o in nodes) && q.Valid())
      && (forall o :: o in nodes ==>
            if o in out then o.container == null
            else o.container != null && o.container in queues + tmp && o in o.container.items)
    }

    /** A queue holds these entries. */
    ghost predicate Holds(q: TObjQueue, es: seq<Entry>)
      reads q`items, `nodes, nodes`timeout, nodes`timeleft, nodes`repeat, nodes`ud
    {
      |q.items| == |es| && forall i :: 0 <= i < |es| ==> q.items[i] in nodes && q.items[i].View() == es[i]
    }

    /** What the assert of add_obj_raw asks of the parked nodes (timer.c:210). */
    ghost predicate LeftWithin(es: seq<Entry>) {
      forall i :: 0 <= i < |es| ==> es[i].timeleft <= es[i].timeout
    }

    /** The timer shows wheel w. */
    ghost predicate Shows(w: Wheel)
      reads `current, `ticking, `objpool, `nodes, queues`items, nodes`timeout, nodes`timeleft, nodes`repeat, nodes`ud
    {
      && w.n == |ticklist| == |w.slots| && w.current == current < w.n && w.ticking == ticking && w.pooln == |objpool|
      && (forall i :: 0 <= i < |ticklist| ==> ticklist[i] in queues && Holds(ticklist[i], w.slots[i]))
      && longlist in queues && Holds(longlist, w.parked) && LeftWithin(w.parked)
      && freelist in queues && |freelist.items| == |w.free|
      && (forall i :: 0 <= i < |w.free| ==> freelist.items[i].id == w.free[i])
    }

    /** From the old to the current state only the items of queue q have changed. */
    twostate predicate OnlyItemsOf(q: TObjQueue)
      reads `current, `ticking, `objpool, `nodes, queues`items, nodes`timeout, nodes`timeleft, nodes`repeat, nodes`ud
    {
      && current == old(current) && ticking == old(ticking) && objpool == old(objpool) && nodes == old(nodes)
      && (forall r :: r in queues && r != q ==> r.items == old(r.items))
      && (forall p :: p in nodes ==> p.View() == old(p.View()))
    }

    lemma Containers(q: TObjQueue, out: set<TObj>, tmp: set<TObjQueue>)
      requires Valid(out, tmp) && q in queues + tmp
      ensures q.Valid() && forall r, p :: r in queues + tmp && p in r.items ==> p in nodes && p.container == r
      ensures var s := q.items;
              s != [] ==> s[0] in s && s[0] !in s[1..] && forall x :: x in s <==> x == s[0] || x in s[1..]
    {
      assert q.items != [] ==> q.items == [q.items[0]] + q.items[1..];
    }

    lemma LastIn(q: TObjQueue)
      requires q.Valid()
      ensures q.tail != null ==> q.tail in q.items
    {
    }

    /** uq_addtail on one of the queues at hand. */
    method Append(q: TObjQueue, o: TObj, ghost out: set<TObj>, ghost tmp: set<TObjQueue>)
      requires Valid(out + {o}, tmp) && o !in out && q in queues + tmp
      modifies q, nodes`container, nodes`prev, nodes`next
      ensures Valid(out, tmp) && q.items == old(q.items) + [o] && OnlyItemsOf(q)
    {
      hide TObjQueue.Valid;
      Containers(q, out + {o}, tmp);
      LastIn(q);
      q.AddTail(o);
      forall r | r in queues + tmp && r != q ensures r.Valid() {
        assert old(r.Valid()) && forall p :: p in r.items ==> old(p.container) == r && p !in old(q.items);
        r.Still();
      }
    }

    static ghost function Nodes(o: TObj?): set<TObj> { if o == null then {} else {o} }

    method TakeNode(q: TObjQueue, ghost out: set<TObj>, ghost tmp: set<TObjQueue>) returns (o: TObj?)
      requires Valid(out, tmp) && q in queues + tmp
      modifies q, nodes`container, nodes`prev, nodes`next
      ensures o == (if old(q.items) == [] then null else old(q.items)[0])
      ensures q.items == if o == null then [] else old(q.items)[1..]
      ensures Nodes(o) !! out && Valid(out + Nodes(o), tmp) && OnlyItemsOf(q)
    {
      hide TObjQueue.Valid;
      Containers(q, out, tmp);
      o := q.PopHead();
      forall r | r in queues + tmp && r != q ensures r.Valid() {
        assert forall p :: p in r.items ==> old(p.container) == r && p !in old(q.items);
        r.Still();
      }
    }

    /** uq_pophead on one of the queues at hand. */
    method Take(q: TObjQueue, ghost out: set<TObj>, ghost tmp: set<TObjQueue>) returns (o: TObj?)
      requires Valid(out, tmp) && q in queues + tmp
      modifies q, nodes`container, nodes`prev, nodes`next
      ensures old(q.items) == [] ==> o == null && q.items == [] && Valid(out, tmp)
      ensures old(q.items) != [] ==>
                o == old(q.items)[0] && q.items == old(q.items)[1..] && o !in out && Valid(out + {o}, tmp)
      ensures OnlyItemsOf(q)
    {
      hide Valid, TObjQueue.Valid, OnlyItemsOf;
      o := TakeNode(q, out, tmp);
      assert out + {} == out;
    }

    ghost predicate Apart() {
      && (forall i, j :: 0 <= i < j < |ticklist| ==> ticklist[i] != ticklist[j])
      && longlist !in ticklist && freelist !in ticklist && longlist != freelist
    }

    lemma ValidApart(out: set<TObj>, tmp: set<TObjQueue>)
      requires Valid(out, tmp)
      ensures Apart()
    {
    }

    lemma ValidOwned(i: nat, out: set<TObj>, tmp: set<TObjQueue>)
      requires Valid(out, tmp)
      ensures longlist in queues && freelist in queues && (i < |ticklist| ==> ticklist[i] in queues)
    {
    }

    twostate lemma HoldsMore(q: TObjQueue, new o: TObj, new es: seq<Entry>)
      requires old(Holds(q, es)) && OnlyItemsOf(q) && q.items == old(q.items) + [o] && o in nodes
      ensures Holds(q, es + [o.View()])
    {
    }

    twostate lemma HoldsLess(q: TObjQueue, new es: seq<Entry>)
      requires old(Holds(q, es)) && OnlyItemsOf(q) && es != [] && q.items == old(q.items)[1..]
      ensures Holds(q, es[1..]) && old(q.items[0].View()) == es[0] && old(q.items[0]) in nodes
    {
    }

    twostate lemma ShowsSlot(new w: Wheel, new i: nat, new es: seq<Entry>)
      requires old(Shows(w)) && i < |ticklist| && Apart() && OnlyItemsOf(ticklist[i]) && Holds(ticklist[i], es)
      ensures Shows(w.(slots := w.slots[i := es]))
    {
      forall j | 0 <= j < |ticklist| && j != i ensures Holds(ticklist[j], w.slots[j]) {
        assert old(Holds(ticklist[j], w.slots[j])) && ticklist[j] != ticklist[i];
      }
      assert old(Holds(longlist, w.parked));
    }

    twostate lemma ShowsParked(new w: Wheel, new es: seq<Entry>)
      requires old(Shows(w)) && Apart() && OnlyItemsOf(longlist) && Holds(longlist, es) && LeftWithin(es)
      ensures Shows(w.(parked := es))
    {
      forall j | 0 <= j < |ticklist| ensures Holds(ticklist[j], w.slots[j]) {
        assert old(Holds(ticklist[j], w.slots[j])) && ticklist[j] != longlist;
      }
    }

    twostate lemma ShowsFree(new w: Wheel, new ids: seq<Id>)
      requires old(Shows(w)) && Apart() && OnlyItemsOf(freelist)
      requires |freelist.items| == |ids| && forall i :: 0 <= i < |ids| ==> freelist.items[i].id == ids[i]
      ensures Shows(w.(free := ids))
    {
      forall j | 0 <= j < |ticklist| ensures Holds(ticklist[j], w.slots[j]) {
        assert old(Holds(ticklist[j], w.slots[j])) && ticklist[j] != freelist;
      }
      assert old(Holds(longlist, w.parked));
    }

    /** Between two calls each node of the pool is on exactly one queue of the timer, once, and the
        pool is indexed by node number. */
    lemma EachNodeOnce(o: TObj)
      requires Valid({}, {}) && o in nodes
      ensures o.container in queues && (forall q :: q in queues ==> (o in q.items <==> q == o.container))
      ensures exists i :: 0 <= i < |o.container.items| && o.container.items[i] == o
                && forall j :: 0 <= j < |o.container.items| && j != i ==> o.container.items[j] != o
      ensures o.id <= |objpool| && objpool[o.id - 1] == o
    {
      var q := o.container;
      assert q.Valid() && o in q.items;
      var i :| 0 <= i < |q.items| && q.items[i] == o;
    }

    /** A node that is on no queue. */
    lemma OutIsOff(o: TObj, out: set<TObj>, tmp: set<TObjQueue>)
      requires Valid(out, tmp) && o in out
      ensures o in nodes && forall q :: q in queues ==> o !in q.items
    {
    }

    /** What a node on no queue holds does not show. */
    twostate lemma ShowsOff(new w: Wheel, new o: TObj)
      requires old(Shows(w)) && (forall q :: q in queues ==> o !in q.items && q.items == old(q.items))
      requires current == old(current) && ticking == old(ticking) && objpool == old(objpool) && nodes == old(nodes)
      requires forall p :: p in nodes && p != o ==> p.View() == old(p.View())
      ensures Shows(w)
    {
      forall j | 0 <= j < |ticklist| ensures Holds(ticklist[j], w.slots[j]) {
        assert old(Holds(ticklist[j], w.slots[j]));
      }
      assert old(Holds(longlist, w.parked));
    }

    lemma ShowsOk(w: Wheel)
      requires Shows(w)
      ensures w.Ok() && |ticklist| == w.n && current == w.current && ticking == w.ticking
    {
    }

    lemma SlotShown(i: nat, w: Wheel)
      requires Shows(w) && i < |ticklist|
      ensures i < |w.slots| && ticklist[i] in queues && Holds(ticklist[i], w.slots[i])
      ensures |ticklist[i].items| == |w.slots[i]|
    {
    }

    lemma ParkedShown(w: Wheel)
      requires Shows(w)
      ensures longlist in queues && Holds(longlist, w.parked) && |longlist.items| == |w.parked| && LeftWithin(w.parked)
    {
    }

    lemma FreeShown(w: Wheel)
      requires Shows(w)
      ensures freelist in queues && |freelist.items| == |w.free|
      ensures forall i :: 0 <= i < |w.free| ==> freelist.items[i].id == w.free[i]
    {
    }

    /** The writes to a node that is on no queue (timer.c:214-218). */
    method Fill(o: TObj, timeleft: nat, timeout: nat, repeat: nat, ud: Ud, ghost w: Wheel, ghost out: set<TObj>,
        ghost tmp: set<TObjQueue>)
      requires Valid(out, tmp) && o in out && Shows(w)
      modifies o`timeout, o`timeleft, o`repeat, o`ud
      ensures Valid(out, tmp) && Shows(w)
      ensures o.View() == Entry(o.id, ud, timeout, timeleft, repeat)
    {
      hide Valid, Shows;
      OutIsOff(o, out, tmp);
      o.ud, o.timeout, o.timeleft, o.repeat := ud, timeout, timeleft, repeat;
      ShowsOff(w, o);
    }

    method AppendToSlot(i: nat, o: TObj, ghost w: Wheel, ghost out: set<TObj>, ghost tmp: set<TObjQueue>)
      requires Valid(out + {o}, tmp) && o !in out && i < |ticklist| && Shows(w)
      modifies ticklist[i], nodes`container, nodes`prev, nodes`next
      ensures Valid(out, tmp) && Shows(w.(slots := w.slots[i := w.slots[i] + [o.View()]]))
    {
      hide Valid, TObjQueue.Valid, Shows, Holds, OnlyItemsOf;
      ValidApart(out + {o}, tmp);
      OutIsOff(o, out + {o}, tmp);
      SlotShown(i, w);
      Append(ticklist[i], o, out, tmp);
      HoldsMore(ticklist[i], o, w.slots[i]);
      ShowsSlot(w, i, w.slots[i] + [o.View()]);
    }

    method Park(o: TObj, ghost w: Wheel, ghost out: set<TObj>, ghost tmp: set<TObjQueue>)
      requires Valid(out + {o}, tmp) && o !in out && Shows(w) && o.timeleft <= o.timeout
      modifies longlist, nodes`container, nodes`prev, nodes`next
      ensures Valid(out, tmp) && Shows(w.(parked := w.parked + [o.View()]))
    {
      hide Valid, TObjQueue.Valid, Shows, Holds, OnlyItemsOf;
      ValidApart(out + {o}, tmp);
      OutIsOff(o, out + {o}, tmp);
      ParkedShown(w);
      Append(longlist, o, out, tmp);
      HoldsMore(longlist, o, w.parked);
      ShowsParked(w, w.parked + [o.View()]);
    }

    method Release(o: TObj, ghost w: Wheel, ghost out: set<TObj>, ghost tmp: set<TObjQueue>)
      requires Valid(out + {o}, tmp) && o !in out && Shows(w)
      modifies freelist, nodes`container, nodes`prev, nodes`next
      ensures Valid(out, tmp) && Shows(w.(free := w.free + [o.id]))
    {
      hide Valid, TObjQueue.Valid, Shows, OnlyItemsOf;
      ValidApart(out + {o}, tmp);
      FreeShown(w);
      Append(freelist, o, out, tmp);
      ShowsFree(w, w.free + [o.id]);
    }

    /** add_obj_raw (timer.c:209-228); uq_addtail resets the `next` link once more. */
    method AddObjRaw(o: TObj, timeleft: nat, timeout: nat, repeat: nat, ud: Ud, ghost w: Wheel, ghost out: set<TObj>,
        ghost tmp: set<TObjQueue>)
      requires Valid(out + {o}, tmp) && o !in out && Shows(w)
      requires timeleft <= timeout
      modifies queues, nodes`container, nodes`prev, nodes`next, o`timeout, o`timeleft, o`repeat, o`ud
      ensures Valid(out, tmp) && Shows(Place(w, Entry(o.id, ud, timeout, 0, repeat), timeleft))
    {
      hide Valid, Shows;
      ShowsOk(w);
      var left := timeleft;
      if ticking != 0 {
        left := if left == 0 then 1 else left;
      }
      Fill(o, left, timeout, repeat, ud, w, out + {o}, tmp);
      if left >= |ticklist| {
        Fill(o, left - (|ticklist| - current), timeout, repeat, ud, w, out + {o}, tmp);
        ValidOwned(0, out + {o}, tmp);
        Park(o, w, out, tmp);
      } else {
        var slot := (current + left) % |ticklist|;
        ValidOwned(slot, out + {o}, tmp);
        AppendToSlot(slot, o, w, out, tmp);
      }
    }

    /** uq_pophead on a slot. */
    method TakeFromSlot(i: nat, ghost w: Wheel, ghost out: set<TObj>, ghost tmp: set<TObjQueue>) returns (o: TObj?)
      requires Valid(out, tmp) && i < |ticklist| && Shows(w)
      modifies ticklist[i], nodes`container, nodes`prev, nodes`next
      ensures w.slots[i] == [] ==> o == null && Valid(out, tmp) && Shows(w)
      ensures w.slots[i] != [] ==>
                && o != null && o !in out && Valid(out + {o}, tmp) && o.View() == w.slots[i][0]
                && Shows(w.(slots := w.slots[i := w.slots[i][1..]]))
    {
      hide Valid, TObjQueue.Valid, Shows, Holds, OnlyItemsOf;
      ValidApart(out, tmp);
      SlotShown(i, w);
      o := Take(ticklist[i], out, tmp);
      if o != null {
        HoldsLess(ticklist[i], w.slots[i]);
        ShowsSlot(w, i, w.slots[i][1..]);
      }
    }

    /** uq_pophead on the list of parked nodes. */
    method TakeParked(ghost w: Wheel, ghost out: set<TObj>, ghost tmp: set<TObjQueue>) returns (o: TObj?)
      requires Valid(out, tmp) && Shows(w)
      modifies longlist, nodes`container, nodes`prev, nodes`next
      ensures w.parked == [] ==> o == null && Valid(out, tmp) && Shows(w)
      ensures w.parked != [] ==>
                && o != null && o !in out && Valid(out + {o}, tmp) && o.View() == w.parked[0] && o.timeleft <= o.timeout
                && Shows(w.(parked := w.parked[1..]))
    {
      hide Valid, TObjQueue.Valid, Shows, Holds, OnlyItemsOf;
      ValidApart(out, tmp);
      ParkedShown(w);
      o := Take(longlist, out, tmp);
      if o != null {
        HoldsLess(longlist, w.parked);
        ShowsParked(w, w.parked[1..]);
      }
    }

    /** uq_pophead on the free list. */
    method TakeFree(ghost w: Wheel, ghost out: set<TObj>) returns (o: TObj?)
      requires Valid(out, {}) && Shows(w)
      modifies freelist, nodes`container, nodes`prev, nodes`next
      ensures w.free == [] ==> o == null && Valid(out, {}) && Shows(w)
      ensures w.free != [] ==>
                && o != null && o !in out && Valid(out + {o}, {}) && o.id == w.free[0]
                && Shows(w.(free := w.free[1..]))
    {
      hide Valid, TObjQueue.Valid, Shows, OnlyItemsOf;
      ValidApart(out, {});
      FreeShown(w);
      o := Take(freelist, out, {});
      if o != null {
        ShowsFree(w, w.free[1..]);
      }
    }

    twostate lemma ValidWithNew(new o: TObj, out: set<TObj>)
      requires old(Valid(out, {})) && o !in old(nodes) && o.container == null && o.id == old(|objpool|) + 1
      requires objpool == old(objpool) + [o] && nodes == old(nodes) + {o}
      requires forall q :: q in queues ==> unchanged(q)
      requires forall p :: p in old(nodes) ==> unchanged(p)
      ensures Valid(out + {o}, {})
    {
      forall q | q in queues ensures (forall p :: p in q.items ==> p in nodes) && q.Valid() {
        assert q in queues + {} && old(q.Valid()) && q.items == old(q.items);
        forall p | p in q.items ensures p in old(nodes) {
          assert p in old(q.items);
        }
        q.Still();
      }
    }

    twostate lemma ShowsWithNew(new o: TObj, new w: Wheel)
      requires old(Shows(w)) && objpool == old(objpool) + [o] && nodes == old(nodes) + {o}
      requires current == old(current) && ticking == old(ticking)
      requires forall q :: q in queues ==> unchanged(q)
      requires forall p :: p in old(nodes) ==> unchanged(p)
      ensures Shows(w.(pooln := w.pooln + 1))
    {
      forall j | 0 <= j < |ticklist| ensures Holds(ticklist[j], w.slots[j]) {
        assert old(Holds(ticklist[j], w.slots[j]));
      }
      assert old(Holds(longlist, w.parked));
    }

    /** One turn of the loop of expand_objpool (timer.c:235-238). */
    method NewNode(ghost w: Wheel, ghost out: set<TObj>) returns (o: TObj)
      requires Valid(out, {}) && Shows(w)
      modifies `objpool, `nodes
      ensures fresh(o) && o !in out && nodes == old(nodes) + {o}
      ensures Valid(out + {o}, {}) && Shows(w.(pooln := w.pooln + 1)) && o.id == w.pooln + 1
    {
      assert |objpool| == w.pooln && out <= nodes;
      hide Valid, Shows, TObjQueue.Valid;
      o := new TObj(|objpool| + 1);
      objpool := objpool + [o];
      nodes := nodes + {o};
      ValidWithNew(o, out);
      ShowsWithNew(o, w);
    }

    ghost function Grown(w: Wheel, k: nat): Wheel {
      w.(free := w.free + seq(k, i requires 0 <= i => (w.pooln + i + 1) as Id), pooln := w.pooln + k)
    }

    /** expand_objpool (timer.c:230-242) */
    method ExpandObjpool(ghost w: Wheel, ghost out: set<TObj>)
      requires Valid(out, {}) && Shows(w)
      modifies `objpool, `nodes, freelist, nodes`container, nodes`prev, nodes`next
      ensures old(nodes) <= nodes && fresh(nodes - old(nodes))
      ensures Valid(out, {}) && Shows(Expand(w))
    {
      hide Valid, TObjQueue.Valid;
      assert |objpool| == w.pooln && w.free + [] == w.free;
      hide Shows;
      var pooln := if |objpool| == 0 then 8 else |objpool| * 2;
      var i := |objpool|;
      while i < pooln
        invariant w.pooln <= i <= pooln
        invariant old(nodes) <= nodes && fresh(nodes - old(nodes))
        invariant Valid(out, {}) && Shows(Grown(w, i - w.pooln))
      {
        ghost var g := Grown(w, i - w.pooln);
        var o := NewNode(g, out);
        Release(o, g.(pooln := g.pooln + 1), out, {});
        i := i + 1;
        assert Grown(w, i - w.pooln) == g.(pooln := g.pooln + 1, free := g.free + [o.id]);
      }
    }

    /** The node that timer_add fills (timer.c:75-81). */
    method Acquire(ghost w: Wheel, ghost out: set<TObj>) returns (o: TObj)
      requires Valid(out, {}) && Shows(w)
      modifies `objpool, `nodes, freelist, nodes`container, nodes`prev, nodes`next
      ensures old(nodes) <= nodes && fresh(nodes - old(nodes)) && o in nodes
      ensures o !in out && Valid(out + {o}, {})
      ensures o.id == Stocked(w).free[0] && Shows(Stocked(w).(free := Stocked(w).free[1..]))
    {
      hide Valid, TObjQueue.Valid, Shows;
      var tobj := TakeFree(w, out);
      if tobj == null {
        ExpandObjpool(w, out);
        tobj := TakeFree(Expand(w), out);
      }
      assert tobj != null;
      o := tobj;
      OutIsOff(o, out + {o}, {});
    }

    /** timer_add (timer.c:74-84); a callback may call it, while its own node is in `out`. */
    method TimerAdd(timeout: nat, ud: Ud, repeat: nat, ghost w: Wheel, ghost out: set<TObj>) returns (tid: nat)
      requires Valid(out, {}) && Shows(w)
      modifies `objpool, `nodes, queues, nodes`container, nodes`prev, nodes`next
      modifies (nodes - out)`timeout, (nodes - out)`timeleft, (nodes - out)`repeat, (nodes - out)`ud
      ensures old(nodes) <= nodes && fresh(nodes - old(nodes))
      ensures Valid(out, {}) && Shows(Add(w, Req(timeout, ud, repeat))) && tid == Stocked(w).free[0]
    {
      hide Valid, TObjQueue.Valid, Shows;
      ValidOwned(0, out, {});
      var tobj := Acquire(w, out);
      hide Stocked, Place;
      AddObjRaw(tobj, timeout, timeout, repeat, ud, Stocked(w).(free := Stocked(w).free[1..]), out, {});
      tid := tobj.id;
    }

    lemma ShowsSize(w: Wheel)
      requires Shows(w)
      ensures w.Ok() && current < |ticklist| && ticklist[current] in queues
              && |ticklist[current].items| == |w.slots[w.current]|
    {
      assert Holds(ticklist[current], w.slots[current]);
    }

    /** What a callback does to the timer: it adds timers. */
    method CallBack(adds: seq<Req>, ghost w: Wheel, ghost out: set<TObj>)
      requires Valid(out, {}) && Shows(w) && w.Ok()
      modifies `objpool, `nodes, queues, nodes`container, nodes`prev, nodes`next
      modifies (nodes - out)`timeout, (nodes - out)`timeleft, (nodes - out)`repeat, (nodes - out)`ud
      ensures old(nodes) <= nodes && fresh(nodes - old(nodes))
      ensures Valid(out, {}) && Shows(AddAll(w, adds))
    {
      hide Valid, Shows, Add;
      ghost var v := w;
      var i := 0;
      assert adds[0..] == adds;
      while i < |adds|
        invariant 0 <= i <= |adds| && v.Ok()
        invariant old(nodes) <= nodes && fresh(nodes - old(nodes))
        invariant Valid(out, {}) && Shows(v) && AddAll(v, adds[i..]) == AddAll(w, adds)
      {
        assert adds[i..][0] == adds[i] && adds[i..][1..] == adds[i + 1..];
        var tid := TimerAdd(adds[i].timeout, adds[i].ud, adds[i].repeat, v, out);
        v := Add(v, adds[i]);
        ShowsOk(v);
        i := i + 1;
      }
    }

    twostate lemma ShowsTicking(new w: Wheel, new t: nat)
      requires old(Shows(w)) && ticking == t
      requires current == old(current) && objpool == old(objpool) && nodes == old(nodes)
      requires (forall q :: q in queues ==> q.items == old(q.items))
               && (forall p :: p in nodes ==> p.View() == old(p.View()))
      ensures Shows(w.(ticking := t))
    {
      forall j | 0 <= j < |ticklist| ensures Holds(ticklist[j], w.slots[j]) {
        assert old(Holds(ticklist[j], w.slots[j]));
      }
      assert old(Holds(longlist, w.parked));
    }

    method SetTicking(t: nat, ghost w: Wheel, ghost out: set<TObj>, ghost tmp: set<TObjQueue>)
      requires Valid(out, tmp) && Shows(w)
      modifies `ticking
      ensures ticking == t && Valid(out, tmp) && Shows(w.(ticking := t))
    {
      hide Valid, Shows;
      ticking := t;
      ShowsTicking(w, t);
    }

    /** Before the callback (timer.c:108-111). */
    method CountDown(o: TObj, ghost w: Wheel) returns (erased: bool)
      requires Valid({o}, {}) && Shows(w)
      modifies `ticking, o`timeout, o`timeleft, o`repeat, o`ud
      ensures Valid({o}, {}) && Shows(w.(ticking := o.id))
      ensures erased == (old(o.repeat) == 1)
      ensures o.View() == old(o.View()).(repeat := if old(o.repeat) == 0 then 0 else old(o.repeat) - 1)
    {
      hide Valid, Shows;
      SetTicking(o.id, w, {o}, {});
      erased := false;
      if o.repeat > 0 {
        Fill(o, o.timeleft, o.timeout, o.repeat - 1, o.ud, w.(ticking := o.id), {o}, {});
        if o.repeat == 0 {
          erased := true;
        }
      }
    }

    /** Finish the callback (timer.c:112-117). */
    method Rearm(o: TObj, erased: bool, ghost w: Wheel, ghost e: Entry)
      requires Valid({o}, {}) && Shows(w) && w.Ok()
      requires erased == (e.repeat == 1) && o.View() == e.(repeat := if e.repeat == 0 then 0 else e.repeat - 1)
      modifies queues, nodes`container, nodes`prev, nodes`next, o`timeout, o`timeleft, o`repeat, o`ud
      ensures Valid({}, {}) && Shows(Finish(w, e))
    {
      hide Valid, Shows;
      ValidOwned(0, {o}, {});
      assert {} + {o} == {o};
      if erased {
        Release(o, w, {}, {});
      } else {
        AddObjRaw(o, o.timeout, o.timeout, o.repeat, o.ud, w, {}, {});
      }
    }

    /** A turn of the firing loop up to the callback (timer.c:106-112); none if the slot is empty. */
    method StartFire(slot: nat, ghost w: Wheel) returns (o: TObj?, f: Firing)
      requires Valid({}, {}) && Shows(w) && w.Ok() && slot == w.current && slot < |ticklist|
      modifies `ticking, queues, nodes`container, nodes`prev, nodes`next
      modifies nodes`timeout, nodes`timeleft, nodes`repeat, nodes`ud
      ensures o == null <==> w.slots[slot] == []
      ensures o == null ==> Valid({}, {}) && Shows(w)
      ensures o != null ==>
                var e := w.slots[slot][0];
                && o in nodes && Valid({o}, {}) && Shows(Popped(w)) && f == Firing(e.ud, e.id, e.repeat == 1)
                && o.View() == e.(repeat := if e.repeat == 0 then 0 else e.repeat - 1)
    {
      hide Valid, Shows, TObjQueue.Valid;
      ValidOwned(slot, {}, {});
      f := Firing(0, 1, false);
      o := TakeFromSlot(slot, w, {}, {});
      if o != null {
        assert {} + {o} == {o};
        OutIsOff(o, {o}, {});
        var erased := CountDown(o, w.(slots := w.slots[slot := w.slots[slot][1..]]));
        f := Firing(o.ud, o.id, erased);
      }
    }

    /** One turn of the firing loop (timer.c:106-118); none if the slot is empty. */
    method FireFirst(slot: nat, adds: seq<Req>, ghost w: Wheel) returns (fired: bool, f: Firing)
      requires Valid({}, {}) && Shows(w) && w.Ok() && slot == w.current && slot < |ticklist|
      modifies `ticking, `objpool, `nodes, queues, nodes`container, nodes`prev, nodes`next
      modifies nodes`timeout, nodes`timeleft, nodes`repeat, nodes`ud
      ensures old(nodes) <= nodes && fresh(nodes - old(nodes))
      ensures Valid({}, {}) && fired == (w.slots[slot] != [])
      ensures !fired ==> Shows(w)
      ensures fired ==> Shows(Fire(w, adds))
      ensures fired ==> var e := w.slots[slot][0]; f == Firing(e.ud, e.id, e.repeat == 1)
    {
      hide Valid, Shows, TObjQueue.Valid, Finish, AddAll, Popped;
      var tobj;
      tobj, f := StartFire(slot, w);
      fired := tobj != null;
      if tobj != null {
        CallBack(adds, Popped(w), {tobj});
        Rearm(tobj, f.erased, AddAll(Popped(w), adds), w.slots[slot][0]);
      }
    }

    lemma FirstTurn(w: Wheel, num: nat, script: seq<seq<Req>>, log: seq<Firing>)
      requires w.Ok() && num > 0
      ensures w.slots[w.current] == [] ==> FireAll(w, num, script) == w && log + Firings(w, num, script) == log
      ensures w.slots[w.current] != [] ==>
                var e := w.slots[w.current][0];
                && FireAll(w, num, script) == FireAll(Fire(w, Now(script)), num - 1, Later(script))
                && log + Firings(w, num, script)
                   == log + [Firing(e.ud, e.id, e.repeat == 1)] + Firings(Fire(w, Now(script)), num - 1, Later(script))
    {
    }

    lemma NoTurn(w: Wheel, script: seq<seq<Req>>, log: seq<Firing>)
      requires w.Ok()
      ensures FireAll(w, 0, script) == w && log + Firings(w, 0, script) == log
    {
    }

    lemma SlotSize(w: Wheel)
      requires Valid({}, {}) && Shows(w)
      ensures w.Ok() && current == w.current && |ticklist| == w.n && ticklist[current].objn == |w.slots[w.current]|
      ensures current % |ticklist| == current
    {
      ShowsOk(w);
      ShowsSize(w);
      assert ticklist[current].Valid();
    }

    lemma NothingYet(log: seq<Firing>)
      ensures [] + log == log
    {
    }

    /** The firing loop (timer.c:104-119); `log` lists the callbacks made. */
    method FireLoop(slot: nat, num: nat, script: seq<seq<Req>>, ghost w: Wheel) returns (log: seq<Firing>)
      requires Valid({}, {}) && Shows(w) && w.Ok() && slot == w.current && slot < |ticklist|
      modifies `ticking, `objpool, `nodes, queues, nodes`container, nodes`prev, nodes`next
      modifies nodes`timeout, nodes`timeleft, nodes`repeat, nodes`ud
      ensures old(nodes) <= nodes && fresh(nodes - old(nodes))
      ensures Valid({}, {}) && Shows(FireAll(w, num, script)) && log == Firings(w, num, script)
    {
      hide *;
      log := [];
      ghost var end, fired := FireAll(w, num, script), Firings(w, num, script);
      NothingYet(fired);
      ghost var v := w;
      var left, rest := num, script;
      while left > 0
        invariant old(nodes) <= nodes && fresh(nodes - old(nodes))
        invariant Valid({}, {}) && Shows(v) && v.Ok() && v.current == slot
        invariant FireAll(v, left, rest) == end && log + Firings(v, left, rest) == fired
      {
        FirstTurn(v, left, rest, log);
        left := left - 1;
        var more, f := FireFirst(slot, Now(rest), v);
        if !more {
          return;
        }
        log := log + [f];
        v := Fire(v, Now(rest));
        rest := Later(rest);
      }
      NoTurn(v, rest, log);
    }

    /** Items of q hold es, and none of them is node o. */
    twostate lemma HoldsElse(q: TObjQueue, new es: seq<Entry>, new o: TObj)
      requires old(Holds(q, es)) && q.items == old(q.items) && nodes == old(nodes) && o !in q.items
      requires forall p :: p in nodes && p != o ==> p.View() == old(p.View())
      ensures Holds(q, es)
    {
    }

    twostate lemma HoldsStill(q: TObjQueue, new es: seq<Entry>)
      requires old(Holds(q, es)) && q.items == old(q.items) && nodes == old(nodes)
      requires forall p :: p in nodes ==> p.View() == old(p.View())
      ensures Holds(q, es)
    {
    }

    twostate lemma ShowsStill(new w: Wheel)
      requires old(Shows(w)) && (forall q :: q in queues ==> q.items == old(q.items))
      requires current == old(current) && ticking == old(ticking) && objpool == old(objpool) && nodes == old(nodes)
      requires forall p :: p in nodes ==> p.View() == old(p.View())
      ensures Shows(w)
    {
      forall j | 0 <= j < |ticklist| ensures Holds(ticklist[j], w.slots[j]) {
        assert old(Holds(ticklist[j], w.slots[j]));
      }
      assert old(Holds(longlist, w.parked));
    }

    lemma TmpApart(q: TObjQueue, out: set<TObj>, tmp: set<TObjQueue>)
      requires Valid(out, tmp) && q in tmp
      ensures q !in queues && longlist in queues
    {
    }

    lemma OffTmp(o: TObj, q: TObjQueue, out: set<TObj>, tmp: set<TObjQueue>)
      requires Valid(out, tmp) && o in out && q in tmp
      ensures o in nodes && o !in q.items && q !in queues
    {
    }

    /** The queue on the stack of timer_tick (timer.c:125-126). */
    method NewQueue(ghost w: Wheel) returns (q: TObjQueue)
      requires Valid({}, {}) && Shows(w)
      ensures fresh(q) && Valid({}, {q}) && Shows(w) && Holds(q, []) && LeftWithin([])
    {
      q := new TObjQueue();
      assert {} + {q} == {q};
    }

    /** A parked node goes to its slot (timer.c:129-130). */
    method Promote(o: TObj, q: TObjQueue, ghost w: Wheel, ghost es: seq<Entry>)
      requires Valid({o}, {q}) && Shows(w) && w.Ok() && Holds(q, es)
      requires o.timeleft <= o.timeout
      modifies queues, nodes`container, nodes`prev, nodes`next, o`timeout, o`timeleft, o`repeat, o`ud
      ensures Valid({}, {q}) && Shows(Place(w, old(o.View()), old(o.timeleft))) && Holds(q, es)
    {
      hide Valid, Shows, Holds, TObjQueue.Valid;
      OffTmp(o, q, {o}, {q});
      assert {} + {o} == {o};
      AddObjRaw(o, o.timeleft, o.timeout, o.repeat, o.ud, w, {}, {q});
      HoldsElse(q, es, o);
    }

    /** uq_addtail on the queue on the stack. */
    method AppendTmp(o: TObj, q: TObjQueue, ghost w: Wheel, ghost es: seq<Entry>)
      requires Valid({o}, {q}) && Shows(w) && Holds(q, es) && q !in queues && o in nodes
      modifies q, nodes`container, nodes`prev, nodes`next
      ensures Valid({}, {q}) && Shows(w) && Holds(q, es + [o.View()])
    {
      hide Valid, Shows, Holds, TObjQueue.Valid;
      assert {} + {o} == {o};
      Append(q, o, {}, {q});
      ShowsStill(w);
      HoldsMore(q, o, es);
    }

    method Shorten(o: TObj, q: TObjQueue, ghost w: Wheel, ghost es: seq<Entry>)
      requires Valid({o}, {q}) && Shows(w) && Holds(q, es) && |ticklist| <= o.timeleft
      modifies o`timeout, o`timeleft, o`repeat, o`ud
      ensures Valid({o}, {q}) && Shows(w) && Holds(q, es) && q !in queues && o in nodes
      ensures o.View() == old(o.View()).(timeleft := old(o.timeleft) - |ticklist|)
    {
      hide Valid, Shows, Holds, TObjQueue.Valid;
      OffTmp(o, q, {o}, {q});
      Fill(o, o.timeleft - |ticklist|, o.timeout, o.repeat, o.ud, w, {o}, {q});
      HoldsElse(q, es, o);
    }

    /** A parked node waits for another revolution (timer.c:132-133). */
    method Postpone(o: TObj, q: TObjQueue, ghost w: Wheel, ghost es: seq<Entry>)
      requires Valid({o}, {q}) && Shows(w) && Holds(q, es) && |ticklist| <= o.timeleft
      modifies q, nodes`container, nodes`prev, nodes`next, o`timeout, o`timeleft, o`repeat, o`ud
      ensures Valid({}, {q}) && Shows(w)
      ensures Holds(q, es + [old(o.View()).(timeleft := old(o.timeleft) - |ticklist|)])
    {
      hide *;
      Shorten(o, q, w, es);
      AppendTmp(o, q, w, es);
    }

    /** One turn of the first loop (timer.c:128-134), the node being off the list already. */
    method CascadeOne(o: TObj, q: TObjQueue, ghost w: Wheel, ghost es: seq<Entry>)
      requires w.parked != [] && w.Ok() && w.ticking == 0
      requires Valid({o}, {q}) && Shows(w.(parked := w.parked[1..])) && o.View() == w.parked[0]
               && o.timeleft <= o.timeout && Holds(q, es) && LeftWithin(es)
      modifies q, queues, nodes`container, nodes`prev, nodes`next, o`timeout, o`timeleft, o`repeat, o`ud
      ensures Valid({}, {q}) && Shows(CascadeTurn(w, es).0) && Holds(q, CascadeTurn(w, es).1)
      ensures LeftWithin(CascadeTurn(w, es).1)
    {
      hide Valid, Shows, Holds, Place, TObjQueue.Valid;
      ShowsOk(w.(parked := w.parked[1..]));
      if o.timeleft < |ticklist| {
        Promote(o, q, w.(parked := w.parked[1..]), es);
      } else {
        Postpone(o, q, w.(parked := w.parked[1..]), es);
      }
    }

    lemma CascadeStep(w: Wheel, es: seq<Entry>)
      requires w.Ok() && w.ticking == 0
      ensures w.parked == [] ==> Cascade(w, es) == w.(parked := es)
      ensures w.parked != [] ==> Cascade(w, es) == Cascade(CascadeTurn(w, es).0, CascadeTurn(w, es).1)
      ensures w.parked != [] ==> |CascadeTurn(w, es).0.parked| < |w.parked|
    {
    }

    /** The first loop over the parked nodes (timer.c:127-135). */
    method Examine(q: TObjQueue, ghost w: Wheel) returns (ghost v: Wheel, ghost es: seq<Entry>)
      requires Valid({}, {q}) && Shows(w) && w.Ok() && w.ticking == 0 && Holds(q, []) && LeftWithin([])
      modifies q, queues, nodes`container, nodes`prev, nodes`next, nodes`timeout, nodes`timeleft, nodes`repeat, nodes`ud
      ensures Valid({}, {q}) && Shows(v) && Holds(q, es) && LeftWithin(es)
      ensures v.parked == [] && v.(parked := es) == Cascade(w, [])
    {
      hide *;
      v, es := w, [];
      TmpApart(q, {}, {q});
      var tobj := TakeParked(v, {}, {q});
      HoldsStill(q, es);
      assert tobj != null ==> {} + {tobj} == {tobj};
      while tobj != null
        invariant v.Ok() && v.ticking == 0 && (tobj == null) == (v.parked == []) && Cascade(v, es) == Cascade(w, [])
        invariant Holds(q, es) && LeftWithin(es)
        invariant tobj == null ==> Valid({}, {q}) && Shows(v)
        invariant tobj != null ==>
          && Valid({tobj}, {q}) && Shows(v.(parked := v.parked[1..]))
          && tobj.View() == v.parked[0] && tobj.timeleft <= tobj.timeout
        decreases |v.parked|
      {
        CascadeStep(v, es);
        OutIsOff(tobj, {tobj}, {q});
        CascadeOne(tobj, q, v, es);
        v, es := CascadeTurn(v, es).0, CascadeTurn(v, es).1;
        label Turn:
        tobj := TakeParked(v, {}, {q});
        HoldsStill@Turn(q, es);
        assert tobj != null ==> {} + {tobj} == {tobj};
      }
      CascadeStep(v, es);
    }

    /** uq_pophead on the queue on the stack. */
    method TakeTmp(q: TObjQueue, ghost w: Wheel, ghost es: seq<Entry>) returns (o: TObj?)
      requires Valid({}, {q}) && Shows(w) && Holds(q, es) && q !in queues
      modifies q, nodes`container, nodes`prev, nodes`next
      ensures Shows(w)
      ensures es == [] ==> o == null && Valid({}, {q}) && q.items == []
      ensures es != [] ==> o != null && o in nodes && Valid({o}, {q}) && o.View() == es[0] && Holds(q, es[1..])
    {
      hide Valid, Shows, TObjQueue.Valid;
      o := Take(q, {}, {q});
      ShowsStill(w);
      if o != null {
        assert {} + {o} == {o};
        HoldsLess(q, es);
      }
    }

    lemma Move(done: seq<Entry>, todo: seq<Entry>)
      requires todo != [] && LeftWithin(todo)
      ensures done + todo == (done + [todo[0]]) + todo[1..]
      ensures todo[0].timeleft <= todo[0].timeout && LeftWithin(todo[1..])
    {
    }

    /** One turn of the second loop (timer.c:138-139). */
    method PutOne(o: TObj, q: TObjQueue, ghost w: Wheel, ghost todo: seq<Entry>) returns (next: TObj?)
      requires Valid({o}, {q}) && Shows(w) && Holds(q, todo) && o.View().timeleft <= o.View().timeout
      modifies q, longlist, nodes`container, nodes`prev, nodes`next
      ensures Shows(w.(parked := w.parked + [o.View()]))
      ensures todo == [] ==> next == null && Valid({}, {q}) && q.items == []
      ensures todo != [] ==>
                next != null && next in nodes && Valid({next}, {q}) && next.View() == todo[0] && Holds(q, todo[1..])
    {
      hide Valid, Shows, Holds, TObjQueue.Valid, LeftWithin, OnlyItemsOf;
      TmpApart(q, {o}, {q});
      assert {} + {o} == {o};
      Park(o, w, {}, {q});
      HoldsStill(q, todo);
      next := TakeTmp(q, w.(parked := w.parked + [o.View()]), todo);
    }

    /** The second loop (timer.c:137-140). */
    method PutBack(q: TObjQueue, ghost w: Wheel, ghost es: seq<Entry>)
      requires Valid({}, {q}) && Shows(w) && w.parked == [] && Holds(q, es) && LeftWithin(es)
      modifies q, longlist, nodes`container, nodes`prev, nodes`next
      ensures Valid({}, {q}) && Shows(w.(parked := es)) && q.items == []
    {
      hide *;
      TmpApart(q, {}, {q});
      ghost var v, todo := w, es;
      assert w.parked + todo == es;
      var tobj := TakeTmp(q, v, es);
      while tobj != null
        invariant v == w.(parked := v.parked) && v.parked + todo == es && LeftWithin(todo)
        invariant Shows(v) && (tobj == null) == (todo == [])
        invariant tobj == null ==> Valid({}, {q}) && q.items == []
        invariant tobj != null ==> Valid({tobj}, {q}) && tobj.View() == todo[0] && Holds(q, todo[1..])
        decreases |todo|
      {
        Move(v.parked, todo);
        tobj := PutOne(tobj, q, v, todo[1..]);
        v, todo := v.(parked := v.parked + [todo[0]]), todo[1..];
      }
      assert v.parked + [] == v.parked;
    }

    lemma DropTmp(q: TObjQueue)
      requires Valid({}, {q}) && q.items == []
      ensures Valid({}, {})
    {
    }

    /** The parked nodes at the start of a revolution (timer.c:125-140). */
    method CascadeAll(ghost w: Wheel)
      requires Valid({}, {}) && Shows(w) && w.Ok() && w.ticking == 0
      modifies queues, nodes`container, nodes`prev, nodes`next, nodes`timeout, nodes`timeleft, nodes`repeat, nodes`ud
      ensures Valid({}, {}) && Shows(Cascade(w, []))
    {
      hide *;
      var tmptick := NewQueue(w);
      ghost var mid, es := Examine(tmptick, w);
      PutBack(tmptick, mid, es);
      DropTmp(tmptick);
    }

    twostate lemma ShowsClock(new w: Wheel, new now: nat, new epoch: nat)
      requires old(Shows(w)) && current == now < |ticklist| && ticking == 0
      requires objpool == old(objpool) && nodes == old(nodes)
      requires (forall q :: q in queues ==> q.items == old(q.items))
               && (forall p :: p in nodes ==> p.View() == old(p.View()))
      ensures Shows(w.(current := now, ticking := 0, epoch := epoch))
    {
      forall j | 0 <= j < |ticklist| ensures Holds(ticklist[j], w.slots[j]) {
        assert old(Holds(ticklist[j], w.slots[j]));
      }
      assert old(Holds(longlist, w.parked));
    }

    /** The end of timer_tick (timer.c:120-141). */
    method AdvanceClock(ghost w: Wheel)
      requires Valid({}, {}) && Shows(w) && w.Ok()
      modifies `current, `ticking, queues, nodes`container, nodes`prev, nodes`next
      modifies nodes`timeout, nodes`timeleft, nodes`repeat, nodes`ud
      ensures Valid({}, {}) && Shows(Advance(w))
    {
      hide Valid, Shows, Holds, TObjQueue.Valid, Cascade;
      ShowsOk(w);
      current := (current + 1) % |ticklist|;
      ticking := 0;
      ghost var v := w.(current := current, ticking := 0, epoch := if current == 0 then w.epoch + w.n else w.epoch);
      ShowsClock(w, current, v.epoch);
      if current == 0 {
        CascadeAll(v);
      }
    }

    /** timer_tick (timer.c:101-142); the n-th callback adds the n-th part of `script`. */
    method TimerTick(script: seq<seq<Req>>, ghost w: Wheel) returns (log: seq<Firing>)
      requires Valid({}, {}) && Shows(w)
      modifies `current, `ticking, `objpool, `nodes, queues, nodes`container, nodes`prev, nodes`next
      modifies nodes`timeout, nodes`timeleft, nodes`repeat, nodes`ud
      ensures old(nodes) <= nodes && fresh(nodes - old(nodes))
      ensures w.Ok() && Valid({}, {}) && Shows(Tick(w, script)) && log == TickFirings(w, script)
    {
      SlotSize(w);
      hide *;
      var slot := current % |ticklist|;
      var num := ticklist[slot].objn;
      log := FireLoop(slot, num, script, w);
      AdvanceClock(FireAll(w, num, script));
      TickIs(w, script);
    }

    lemma TickIs(w: Wheel, script: seq<seq<Req>>)
      requires w.Ok()
      ensures Tick(w, script) == Advance(FireAll(w, |w.slots[w.current]|, script))
      ensures TickFirings(w, script) == Firings(w, |w.slots[w.current]|, script)
    {
    }
  }
}
