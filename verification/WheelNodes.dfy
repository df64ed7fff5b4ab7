/**
 Every node of the pool is in one place: on a slot, parked, free, or, during its callback, in none of
 these.  So a timer that has fired for the last time is nowhere but on the free list.
 */
module WheelNodes {
  import opened Basics
  import opened TimingWheel
  import opened WheelCounts
  import opened WheelRuns

  function FreeCount(free: seq<Id>, id: Id): nat {
    if free == [] then 0 else (if free[0] == id then 1 else 0) + FreeCount(free[1..], id)
  }

  /** In how many places node id is. */
  function Places(w: Wheel, id: Id): nat { Listed(w, OfNode(id)) + FreeCount(w.free, id) }

  /** Every node but `out` is in one place. */
  ghost predicate EachBut(w: Wheel, out: Option<Id>) {
    w.Ok() && forall id: Id :: Places(w, id) == if id <= w.pooln && out != Some(id) then 1 else 0
  }

  ghost predicate EachOnce(w: Wheel) { EachBut(w, None) }

  lemma {:induction false} FreeConcat(a: seq<Id>, b: seq<Id>, id: Id)
    ensures FreeCount(a + b, id) == FreeCount(a, id) + FreeCount(b, id)
  {
    if a == [] {
      assert a + b == b;
    } else {
      FreeConcat(a[1..], b, id);
      assert (a + b)[1..] == a[1..] + b;
    }
  }

  /** The new nodes of expand_objpool. */
  function Fresh(from: nat, k: nat): seq<Id> {
    seq(k, i requires 0 <= i => (from + i + 1) as Id)
  }

  lemma {:induction false} FreshCount(from: nat, k: nat, id: Id)
    ensures FreeCount(Fresh(from, k), id) == if from < id <= from + k then 1 else 0
  {
    if k > 0 {
      FreshCount(from, k - 1, id);
      FreeConcat(Fresh(from, k - 1), [(from + k) as Id], id);
      assert Fresh(from, k) == Fresh(from, k - 1) + [(from + k) as Id];
      assert [(from + k) as Id][1..] == [];
    }
  }

  lemma StockedNodes(w: Wheel, out: Option<Id>)
    requires EachBut(w, out) && (out.Some? ==> out.value <= w.pooln)
    ensures EachBut(Stocked(w), out) && Stocked(w).pooln >= w.pooln
  {
    if w.free == [] {
      var s := Expand(w);
      var more := s.pooln - w.pooln;
      assert s.free == w.free + Fresh(w.pooln, more);
      forall id: Id ensures Places(s, id) == if id <= s.pooln && out != Some(id) then 1 else 0 {
        assert Places(w, id) == if id <= w.pooln && out != Some(id) then 1 else 0;
        FreeConcat(w.free, Fresh(w.pooln, more), id);
        FreshCount(w.pooln, more, id);
      }
    }
  }

  lemma AddNodes(w: Wheel, q: Req, out: Option<Id>)
    requires EachBut(w, out) && (out.Some? ==> out.value <= w.pooln)
    ensures EachBut(Add(w, q), out) && Add(w, q).pooln >= w.pooln
  {
    StockedNodes(w, out);
    var s := Stocked(w);
    var w1, e := s.(free := s.free[1..]), Entry(s.free[0], q.ud, q.timeout, 0, q.repeat);
    forall id: Id ensures Places(Add(w, q), id) == if id <= s.pooln && out != Some(id) then 1 else 0 {
      assert Places(s, id) == if id <= s.pooln && out != Some(id) then 1 else 0;
      PlaceCounts(w1, e, q.timeout, OfNode(id));
    }
  }

  lemma {:induction false} AddAllNodes(w: Wheel, qs: seq<Req>, out: Option<Id>)
    requires EachBut(w, out) && (out.Some? ==> out.value <= w.pooln)
    ensures EachBut(AddAll(w, qs), out) && AddAll(w, qs).pooln >= w.pooln
    decreases |qs|
  {
    if qs != [] {
      AddNodes(w, qs[0], out);
      AddAllNodes(Add(w, qs[0]), qs[1..], out);
    }
  }

  /** During its callback a node is in no place. */
  lemma PoppedNodes(w: Wheel)
    requires EachOnce(w) && w.slots[w.current] != []
    ensures var id := w.slots[w.current][0].id; EachBut(Popped(w), Some(id)) && id <= w.pooln
  {
    var e := w.slots[w.current][0];
    assert e.id <= w.pooln by {
      PoppedCounts(w, OfNode(e.id));
      assert Places(w, e.id) == if e.id <= w.pooln then 1 else 0;
    }
    forall id: Id ensures Places(Popped(w), id) == if id <= w.pooln && Some(e.id) != Some(id) then 1 else 0 {
      assert Places(w, id) == if id <= w.pooln then 1 else 0;
      PoppedCounts(w, OfNode(id));
    }
  }

  lemma FinishNodes(w: Wheel, e: Entry)
    requires EachBut(w, Some(e.id)) && e.id <= w.pooln
    ensures EachOnce(Finish(w, e))
  {
    var r := Finish(w, e);
    forall id: Id ensures Places(r, id) == if id <= w.pooln then 1 else 0 {
      assert Places(w, id) == if id <= w.pooln && Some(e.id) != Some(id) then 1 else 0;
      if e.repeat == 1 {
        FreeConcat(w.free, [e.id], id);
        assert [e.id][1..] == [];
      } else {
        PlaceCounts(w, e.(repeat := if e.repeat == 0 then 0 else e.repeat - 1), e.timeout, OfNode(id));
      }
    }
  }

  lemma FireNodes(w: Wheel, adds: seq<Req>)
    requires EachOnce(w) && w.slots[w.current] != []
    ensures EachOnce(Fire(w, adds))
  {
    hide Places, Finish;
    var e := w.slots[w.current][0];
    PoppedNodes(w);
    AddAllNodes(Popped(w), adds, Some(e.id));
    FinishNodes(AddAll(Popped(w), adds), e);
  }

  /** A timer that fires for the last time is then on the free list, at its end, and on no slot and
      not parked, whatever its callback adds. */
  lemma LastFiring(w: Wheel, adds: seq<Req>)
    requires EachOnce(w) && w.slots[w.current] != [] && w.slots[w.current][0].repeat == 1
    ensures var t, id := Fire(w, adds), w.slots[w.current][0].id;
            t.free != [] && t.free[|t.free| - 1] == id && Listed(t, OfNode(id)) == 0
  {
    var t, e := Fire(w, adds), w.slots[w.current][0];
    PoppedNodes(w);
    AddAllNodes(Popped(w), adds, Some(e.id));
    assert Places(AddAll(Popped(w), adds), e.id) == 0;
  }

  lemma {:induction false} FireAllNodes(w: Wheel, num: nat, script: seq<seq<Req>>)
    requires EachOnce(w)
    ensures EachOnce(FireAll(w, num, script))
    decreases num
  {
    hide Places, Fire;
    if num > 0 && w.slots[w.current] != [] {
      FireNodes(w, Now(script));
      FireAllNodes(Fire(w, Now(script)), num - 1, Later(script));
    }
  }

  lemma {:induction false} CascadePool(w: Wheel, tmp: seq<Entry>)
    requires w.Ok() && w.ticking == 0
    ensures Cascade(w, tmp).free == w.free && Cascade(w, tmp).pooln == w.pooln
    decreases |w.parked|
  {
    if w.parked != [] {
      CascadePool(CascadeTurn(w, tmp).0, CascadeTurn(w, tmp).1);
    }
  }

  lemma AdvancePool(w: Wheel)
    requires w.Ok()
    ensures Advance(w).Ok() && Advance(w).free == w.free && Advance(w).pooln == w.pooln
  {
    var next := (w.current + 1) % w.n;
    if next == 0 {
      CascadePool(w.(current := next, ticking := 0, epoch := w.epoch + w.n), []);
    }
  }

  lemma AdvanceNodes(w: Wheel)
    requires EachOnce(w)
    ensures EachOnce(Advance(w))
  {
    hide Advance;
    AdvancePool(w);
    forall id: Id ensures Places(Advance(w), id) == if id <= w.pooln then 1 else 0 {
      assert Places(w, id) == if id <= w.pooln then 1 else 0;
      AdvanceCounts(w, OfNode(id));
    }
  }

  lemma DoNodes(w: Wheel, op: Op)
    requires EachOnce(w)
    ensures EachOnce(Do(w, op))
  {
    hide Places, Add, FireAll, Advance;
    match op
    case AddOp(q) => AddNodes(w, q, None);
    case TickOp(script) =>
      FireAllNodes(w, |w.slots[w.current]|, script);
      AdvanceNodes(FireAll(w, |w.slots[w.current]|, script));
  }

  lemma {:induction false} RunNodes(w: Wheel, ops: seq<Op>)
    requires Quiet(w) && EachOnce(w)
    ensures EachOnce(Run(w, ops))
    decreases |ops|
  {
    hide EachBut, Do;
    if ops != [] {
      DoAlways(w, ops);
      DoNodes(w, ops[0]);
      RunNodes(Do(w, ops[0]), ops[1..]);
    }
  }

  /** After any run each node of the pool is on one slot, parked, or free, and in one place only; no
      other number is in use. */
  lemma NodesConserved(n: nat, ops: seq<Op>, id: Id)
    requires n > 0
    ensures var w := Run(New(n), ops); Places(w, id) == if id <= w.pooln then 1 else 0
  {
    var w := New(n);
    forall x: Id ensures Places(w, x) == 0 {
      NewCounts(n, OfNode(x));
    }
    RunNodes(w, ops);
  }
}
