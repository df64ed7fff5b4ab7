/**
 Node numbers as timer_add hands them out: the pool doubles only when it is used up, and a timer is called
 back under the number that timer_add has returned for it.
 */
module WheelIds {
  import opened TimingWheel
  import opened WheelCounts
  import opened WheelRuns

  /** What a timer is added to the wheel under: the number that has been free longest, or the next one. */
  function NextId(w: Wheel): Id { if w.free != [] then w.free[0] else w.pooln + 1 }

  /** timer_add puts one timer on that node, and the pool grows only if no node was free: to 8 nodes first,
      and then to twice as many; the numbers of the new ones follow each other. */
  lemma AddTakes(w: Wheel, q: Req)
    requires w.Ok()
    ensures var r := Add(w, q);
            && Listed(r, OnNode(q.ud, NextId(w))) == Listed(w, OnNode(q.ud, NextId(w))) + 1
            && (w.free != [] ==> r.free == w.free[1..] && r.pooln == w.pooln)
            && (w.free == [] ==>
                  && r.pooln == (if w.pooln == 0 then 8 else 2 * w.pooln)
                  && |r.free| == r.pooln - w.pooln - 1
                  && forall i :: 0 <= i < |r.free| ==> r.free[i] == w.pooln + 2 + i)
  {
    var s := Stocked(w);
    var w1, e := s.(free := s.free[1..]), Entry(s.free[0], q.ud, q.timeout, 0, q.repeat);
    PlaceCounts(w1, e, q.timeout, OnNode(q.ud, NextId(w)));
  }

  // ---- the number of a timer --------------------------------------------------------

  /** All timers of u are on node id. */
  predicate Keeps(w: Wheel, u: Ud, id: Id) { Listed(w, OnNode(u, id)) == Listed(w, OfUser(u)) }

  lemma {:induction false} CountAtMost(es: seq<Entry>, u: Ud, id: Id)
    ensures Count(es, OnNode(u, id)) <= Count(es, OfUser(u))
  {
    if es != [] {
      CountAtMost(es[1..], u, id);
    }
  }

  lemma {:induction false} SlotsAtMost(slots: seq<seq<Entry>>, u: Ud, id: Id)
    ensures SlotCount(slots, OnNode(u, id)) <= SlotCount(slots, OfUser(u))
  {
    if slots != [] {
      CountAtMost(slots[0], u, id);
      SlotsAtMost(slots[1..], u, id);
    }
  }

  lemma PoppedKeeps(w: Wheel, u: Ud, id: Id)
    requires w.Ok() && w.slots[w.current] != [] && Keeps(w, u, id)
    ensures Keeps(Popped(w), u, id) && (w.slots[w.current][0].ud == u ==> w.slots[w.current][0].id == id)
  {
    PoppedCounts(w, OnNode(u, id));
    PoppedCounts(w, OfUser(u));
    SlotsAtMost(Popped(w).slots, u, id);
    CountAtMost(Popped(w).parked, u, id);
  }

  lemma PlaceKeeps(w: Wheel, e: Entry, timeleft: nat, u: Ud, id: Id)
    requires w.Ok() && Keeps(w, u, id) && (e.ud == u ==> e.id == id)
    ensures Keeps(Place(w, e, timeleft), u, id)
  {
    PlaceCounts(w, e, timeleft, OnNode(u, id));
    PlaceCounts(w, e, timeleft, OfUser(u));
  }

  lemma AddKeepsId(w: Wheel, q: Req, u: Ud, id: Id)
    requires w.Ok() && Keeps(w, u, id) && q.ud != u
    ensures Add(w, q).Ok() && Keeps(Add(w, q), u, id)
  {
    var s := Stocked(w);
    PlaceKeeps(s.(free := s.free[1..]), Entry(s.free[0], q.ud, q.timeout, 0, q.repeat), q.timeout, u, id);
  }

  lemma {:induction false} AddAllKeeps(w: Wheel, qs: seq<Req>, u: Ud, id: Id)
    requires w.Ok() && Keeps(w, u, id) && AvoidsReqs(qs, u)
    ensures Keeps(AddAll(w, qs), u, id)
    decreases |qs|
  {
    hide Keeps, Add;
    if qs != [] {
      AddKeepsId(w, qs[0], u, id);
      AddAllKeeps(Add(w, qs[0]), qs[1..], u, id);
    }
  }

  lemma FireKeepsId(w: Wheel, adds: seq<Req>, u: Ud, id: Id)
    requires w.Ok() && w.slots[w.current] != [] && Keeps(w, u, id) && AvoidsReqs(adds, u)
    ensures Keeps(Fire(w, adds), u, id) && (w.slots[w.current][0].ud == u ==> w.slots[w.current][0].id == id)
  {
    hide Listed, Place;
    var e := w.slots[w.current][0];
    PoppedKeeps(w, u, id);
    AddAllKeeps(Popped(w), adds, u, id);
    var w1 := AddAll(Popped(w), adds);
    if e.repeat == 1 {
      FreeKeeps(w1, w1.free + [e.id], u, id);
    } else {
      PlaceKeeps(w1, e.(repeat := if e.repeat == 0 then 0 else e.repeat - 1), e.timeout, u, id);
    }
  }

  lemma FreeKeeps(w: Wheel, free: seq<Id>, u: Ud, id: Id)
    requires Keeps(w, u, id)
    ensures Keeps(w.(free := free), u, id)
  {
  }

  /** The numbers under which u is called back. */
  function Ids(fs: seq<Firing>, u: Ud): seq<Id> {
    if fs == [] then [] else (if fs[0].ud == u then [fs[0].id] else []) + Ids(fs[1..], u)
  }

  ghost predicate All(ids: seq<Id>, id: Id) { forall i :: 0 <= i < |ids| ==> ids[i] == id }

  lemma {:induction false} FiringIds(w: Wheel, num: nat, script: seq<seq<Req>>, u: Ud, id: Id)
    requires w.Ok() && Keeps(w, u, id) && forall i :: 0 <= i < |script| ==> AvoidsReqs(script[i], u)
    ensures All(Ids(Firings(w, num, script), u), id) && Keeps(FireAll(w, num, script), u, id)
    decreases num
  {
    hide Keeps, Fire;
    if num > 0 && w.slots[w.current] != [] {
      FireKeepsId(w, Now(script), u, id);
      FiringIds(Fire(w, Now(script)), num - 1, Later(script), u, id);
      var e, rest := w.slots[w.current][0], Firings(Fire(w, Now(script)), num - 1, Later(script));
      assert ([Firing(e.ud, e.id, e.repeat == 1)] + rest)[1..] == rest;
    }
  }

  /** The numbers under which u is called back in a run. */
  ghost function CallIds(w: Wheel, ops: seq<Op>, u: Ud): seq<Id>
    requires Quiet(w)
    decreases |ops|
  {
    DoAlways(w, ops);
    if ops == [] then [] else
    (if ops[0].TickOp? then Ids(TickFirings(w, ops[0].script), u) else []) + CallIds(Do(w, ops[0]), ops[1..], u)
  }

  lemma DoKeeps(w: Wheel, op: Op, u: Ud, id: Id)
    requires Quiet(w) && Keeps(w, u, id) && Avoids(op, u)
    ensures Keeps(Do(w, op), u, id)
    ensures op.TickOp? ==> All(Ids(TickFirings(w, op.script), u), id)
  {
    hide Add, FireAll, Firings, Advance, Listed;
    match op
    case AddOp(q) => AddKeepsId(w, q, u, id);
    case TickOp(script) =>
      var w1 := FireAll(w, |w.slots[w.current]|, script);
      FiringIds(w, |w.slots[w.current]|, script, u, id);
      AdvanceCounts(w1, OnNode(u, id));
      AdvanceCounts(w1, OfUser(u));
  }

  lemma {:induction false} HitsAreIds(fs: seq<Firing>, u: Ud, t: nat)
    ensures |Ids(fs, u)| == |Hits(fs, u, t)|
  {
    if fs != [] {
      HitsAreIds(fs[1..], u, t);
    }
  }

  lemma {:induction false} RunKeeps(w: Wheel, ops: seq<Op>, u: Ud, id: Id)
    requires Quiet(w) && Keeps(w, u, id) && AvoidsAll(ops, u)
    ensures All(CallIds(w, ops, u), id) && |CallIds(w, ops, u)| == |FireTimes(w, ops, u)|
    decreases |ops|
  {
    hide Keeps, Do, Ids, Hits, Avoids;
    if ops != [] {
      DoAlways(w, ops);
      AvoidsStep(ops, u);
      DoKeeps(w, ops[0], u, id);
      if ops[0].TickOp? {
        HitsAreIds(TickFirings(w, ops[0].script), u, w.Clock());
      }
      RunKeeps(Do(w, ops[0]), ops[1..], u, id);
    }
  }

  /** Every callback of an added timer gets the number that timer_add has returned, on every run that adds no
      second timer for that user data. */
  lemma CalledUnderItsId(w: Wheel, q: Req, ops: seq<Op>)
    requires Quiet(w) && Listed(w, OfUser(q.ud)) == 0 && AvoidsAll(ops, q.ud)
    ensures Quiet(Add(w, q)) && All(CallIds(Add(w, q), ops, q.ud), NextId(w))
    ensures |CallIds(Add(w, q), ops, q.ud)| == |FireTimes(Add(w, q), ops, q.ud)|
  {
    DoQuiet(w, AddOp(q));
    AddTakes(w, q);
    NoneOn(w, q.ud, NextId(w));
    AddOfUser(w, q);
    hide Add, NextId, Listed;
    RunKeeps(Add(w, q), ops, q.ud, NextId(w));
  }

  lemma NoneOn(w: Wheel, u: Ud, id: Id)
    requires Listed(w, OfUser(u)) == 0
    ensures Listed(w, OnNode(u, id)) == 0
  {
    SlotsAtMost(w.slots, u, id);
    CountAtMost(w.parked, u, id);
  }

  lemma AddOfUser(w: Wheel, q: Req)
    requires w.Ok()
    ensures Listed(Add(w, q), OfUser(q.ud)) == Listed(w, OfUser(q.ud)) + 1
  {
    var s := Stocked(w);
    PlaceCounts(s.(free := s.free[1..]), Entry(s.free[0], q.ud, q.timeout, 0, q.repeat), q.timeout, OfUser(q.ud));
  }
}
