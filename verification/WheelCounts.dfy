/** How often something is on the wheel, and that moving timers loses none and doubles none. */
module WheelCounts {
  import opened TimingWheel

  /** What is counted: the timers of a user, those of them with a timeout or on a node, or the
      appearances of a node. */
  datatype Mark = OfUser(ud: Ud) | OfTimer(ud: Ud, timeout: nat) | OnNode(ud: Ud, id: Id) | OfNode(id: Id)
  {
    function On(e: Entry): nat {
      match this
      case OfUser(u) => if e.ud == u then 1 else 0
      case OfTimer(u, p) => if e.ud == u && e.timeout == p then 1 else 0
      case OnNode(u, id) => if e.ud == u && e.id == id then 1 else 0
      case OfNode(id) => if e.id == id then 1 else 0
    }
  }

  function Count(es: seq<Entry>, m: Mark): nat {
    if es == [] then 0 else m.On(es[0]) + Count(es[1..], m)
  }

  function SlotCount(slots: seq<seq<Entry>>, m: Mark): nat {
    if slots == [] then 0 else Count(slots[0], m) + SlotCount(slots[1..], m)
  }

  /** On the slots and the list of parked nodes. */
  function Listed(w: Wheel, m: Mark): nat { SlotCount(w.slots, m) + Count(w.parked, m) }

  lemma {:induction false} CountSnoc(es: seq<Entry>, e: Entry, m: Mark)
    ensures Count(es + [e], m) == Count(es, m) + m.On(e)
  {
    if es == [] {
      assert [] + [e] == [e] && [e][1..] == [];
    } else {
      CountSnoc(es[1..], e, m);
      assert (es + [e])[1..] == es[1..] + [e];
    }
  }

  lemma {:induction false} SlotUpdate(slots: seq<seq<Entry>>, i: nat, q: seq<Entry>, m: Mark)
    requires i < |slots|
    ensures SlotCount(slots[i := q], m) == SlotCount(slots, m) - Count(slots[i], m) + Count(q, m)
  {
    var now := slots[i := q];
    if i == 0 {
      assert now[1..] == slots[1..];
    } else {
      SlotUpdate(slots[1..], i - 1, q, m);
      assert now[1..] == slots[1..][i - 1 := q];
    }
  }

  lemma PlaceCounts(w: Wheel, e: Entry, timeleft: nat, m: Mark)
    requires w.Ok()
    ensures Listed(Place(w, e, timeleft), m) == Listed(w, m) + m.On(e)
  {
    hide Count, SlotCount;
    var left := if w.ticking != 0 && timeleft == 0 then 1 else timeleft;
    if left >= w.n {
      CountSnoc(w.parked, e.(timeleft := left - (w.n - w.current)), m);
    } else {
      var slot := (w.current + left) % w.n;
      CountSnoc(w.slots[slot], e.(timeleft := left), m);
      SlotUpdate(w.slots, slot, w.slots[slot] + [e.(timeleft := left)], m);
    }
  }

  lemma PoppedCounts(w: Wheel, m: Mark)
    requires w.Ok() && w.slots[w.current] != []
    ensures Listed(Popped(w), m) + m.On(w.slots[w.current][0]) == Listed(w, m)
  {
    SlotUpdate(w.slots, w.current, w.slots[w.current][1..], m);
  }

  lemma {:induction false} CascadeCounts(w: Wheel, tmp: seq<Entry>, m: Mark)
    requires w.Ok() && w.ticking == 0
    ensures Listed(Cascade(w, tmp), m) == Listed(w, m) + Count(tmp, m)
    decreases |w.parked|
  {
    if w.parked != [] {
      TurnCounts(w, tmp, m);
      CascadeCounts(CascadeTurn(w, tmp).0, CascadeTurn(w, tmp).1, m);
    }
  }

  lemma TurnCounts(w: Wheel, tmp: seq<Entry>, m: Mark)
    requires w.Ok() && w.ticking == 0 && w.parked != []
    ensures var r := CascadeTurn(w, tmp); Listed(r.0, m) + Count(r.1, m) == Listed(w, m) + Count(tmp, m)
  {
    var e, w1 := w.parked[0], w.(parked := w.parked[1..]);
    assert Count(w.parked, m) == m.On(e) + Count(w.parked[1..], m);
    hide Count, SlotCount;
    if e.timeleft < w.n {
      PlaceCounts(w1, e, e.timeleft, m);
    } else {
      CountSnoc(tmp, e.(timeleft := e.timeleft - w.n), m);
    }
  }

  /** The end of a tick moves timers, and none is lost. */
  lemma AdvanceCounts(w: Wheel, m: Mark)
    requires w.Ok()
    ensures Listed(Advance(w), m) == Listed(w, m)
  {
    var next := (w.current + 1) % w.n;
    if next == 0 {
      CascadeCounts(w.(current := next, ticking := 0, epoch := w.epoch + w.n), [], m);
    }
  }

  lemma NewCounts(n: nat, m: Mark)
    requires n > 0
    ensures Listed(New(n), m) == 0
  {
    NoSlots(New(n).slots, m);
  }

  lemma {:induction false} NoSlots(slots: seq<seq<Entry>>, m: Mark)
    requires forall i :: 0 <= i < |slots| ==> slots[i] == []
    ensures SlotCount(slots, m) == 0
  {
    if slots != [] {
      NoSlots(slots[1..], m);
    }
  }
}
