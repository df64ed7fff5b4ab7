/** What becomes of the user data of timers that fire once: each stays on the wheel until it fires. */
module WheelTokens {
  import opened TimingWheel
  import opened WheelCounts

  /** How often u is on the wheel. */
  function OnWheel(w: Wheel, u: Ud): nat { Listed(w, OfUser(u)) }

  ghost predicate AllOnce(es: seq<Entry>) { forall j :: 0 <= j < |es| ==> es[j].repeat == 1 }

  /** Every timer on the wheel fires once. */
  ghost predicate Once(w: Wheel) {
    w.Ok() && (forall i :: 0 <= i < |w.slots| ==> AllOnce(w.slots[i])) && AllOnce(w.parked)
  }

  lemma PlaceOnce(w: Wheel, e: Entry, timeleft: nat)
    requires Once(w) && e.repeat == 1
    ensures Once(Place(w, e, timeleft))
  {
  }

  lemma AddKeeps(w: Wheel, q: Req, u: Ud)
    requires Once(w) && q.repeat == 1
    ensures Once(Add(w, q)) && OnWheel(Add(w, q), u) == OnWheel(w, u) + if q.ud == u then 1 else 0
  {
    var s := Stocked(w);
    var w1, e := s.(free := s.free[1..]), Entry(s.free[0], q.ud, q.timeout, 0, q.repeat);
    PlaceOnce(w1, e, q.timeout);
    PlaceCounts(w1, e, q.timeout, OfUser(u));
  }

  /** A turn of the firing loop takes off the wheel just the user data that it calls back with. */
  lemma FireKeeps(w: Wheel, u: Ud)
    requires Once(w) && w.slots[w.current] != []
    ensures Once(Fire(w, []))
    ensures OnWheel(w, u) == OnWheel(Fire(w, []), u) + if w.slots[w.current][0].ud == u then 1 else 0
  {
    PoppedCounts(w, OfUser(u));
    assert AllOnce(w.slots[w.current]);
  }

  lemma {:induction false} CascadeOnce(w: Wheel, tmp: seq<Entry>)
    requires Once(w) && w.ticking == 0 && AllOnce(tmp)
    ensures Once(Cascade(w, tmp))
    decreases |w.parked|
  {
    if w.parked != [] {
      var e, w1 := w.parked[0], w.(parked := w.parked[1..]);
      assert Once(w1) && e.repeat == 1;
      if e.timeleft < w.n {
        PlaceOnce(w1, e, e.timeleft);
      }
      CascadeOnce(CascadeTurn(w, tmp).0, CascadeTurn(w, tmp).1);
    }
  }

  /** The end of a tick moves timers, and none is lost. */
  lemma AdvanceKeeps(w: Wheel, u: Ud)
    requires Once(w)
    ensures Once(Advance(w)) && OnWheel(Advance(w), u) == OnWheel(w, u)
  {
    var next := (w.current + 1) % w.n;
    if next == 0 {
      CascadeOnce(w.(current := next, ticking := 0, epoch := w.epoch + w.n), []);
    }
    AdvanceCounts(w, OfUser(u));
  }

  lemma NewIsEmpty(n: nat, u: Ud)
    requires n > 0
    ensures Once(New(n)) && OnWheel(New(n), u) == 0
  {
    NewCounts(n, OfUser(u));
  }
}
