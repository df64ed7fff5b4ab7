/** How many timers there are, and how many ticks they have to wait altogether. */
module WheelWaits {
  import opened Basics
  import opened TimingWheel
  import opened WheelCounts

  /** The ticks until slot i is the current one. */
  function Ahead(n: nat, current: nat, i: nat): nat
    requires current < n && i < n
  {
    if i >= current then i - current else i + n - current
  }

  function SlotsSize(slots: seq<seq<Entry>>, k: nat): nat
    requires k <= |slots|
  {
    if k == 0 then 0 else SlotsSize(slots, k - 1) + |slots[k - 1]|
  }

  function SlotsWait(slots: seq<seq<Entry>>, current: nat, k: nat): nat
    requires current < |slots| && k <= |slots|
  {
    if k == 0 then 0 else SlotsWait(slots, current, k - 1) + |slots[k - 1]| * Ahead(|slots|, current, k - 1)
  }

  /** Nodes that come off their list in `turn` ticks. */
  function ListWait(es: seq<Entry>, turn: nat): nat {
    if es == [] then 0 else turn + es[0].timeleft + ListWait(es[1..], turn)
  }

  function Size(w: Wheel): nat
    requires w.Ok()
  {
    SlotsSize(w.slots, w.n) + |w.parked|
  }

  function Wait(w: Wheel): nat
    requires w.Ok()
  {
    SlotsWait(w.slots, w.current, w.n) + ListWait(w.parked, w.n - w.current)
  }

  lemma {:induction false} SizeSet(slots: seq<seq<Entry>>, i: nat, q: seq<Entry>, k: nat)
    requires i < |slots| && k <= |slots|
    ensures SlotsSize(slots[i := q], k) == SlotsSize(slots, k) + if i < k then |q| - |slots[i]| else 0
  {
    if k > 0 {
      SizeSet(slots, i, q, k - 1);
    }
  }

  lemma {:induction false} WaitMore(slots: seq<seq<Entry>>, current: nat, i: nat, e: Entry, k: nat)
    requires current < |slots| && i < |slots| && k <= |slots|
    ensures SlotsWait(slots[i := slots[i] + [e]], current, k)
         == SlotsWait(slots, current, k) + if i < k then Ahead(|slots|, current, i) else 0
  {
    if k > 0 {
      WaitMore(slots, current, i, e, k - 1);
      if i == k - 1 {
        var a := Ahead(|slots|, current, i);
        assert (|slots[i]| + 1) * a == |slots[i]| * a + a;
      }
    }
  }

  lemma {:induction false} ListWaitSnoc(es: seq<Entry>, e: Entry, turn: nat)
    ensures ListWait(es + [e], turn) == ListWait(es, turn) + turn + e.timeleft
  {
    if es == [] {
      assert [] + [e] == [e] && [e][1..] == [];
    } else {
      ListWaitSnoc(es[1..], e, turn);
      assert (es + [e])[1..] == es[1..] + [e];
    }
  }

  lemma PlaceSize(w: Wheel, e: Entry, timeleft: nat)
    requires w.Ok()
    ensures Size(Place(w, e, timeleft)) == Size(w) + 1
  {
    var left := if w.ticking != 0 && timeleft == 0 then 1 else timeleft;
    if left < w.n {
      var slot := (w.current + left) % w.n;
      SizeSet(w.slots, slot, w.slots[slot] + [e.(timeleft := left)], w.n);
    }
  }

  lemma AheadOf(n: nat, current: nat, left: nat)
    requires current < n && left < n
    ensures Ahead(n, current, (current + left) % n) == left
  {
    if current + left < n {
      Quotient(current + left, n, 0, current + left);
    } else {
      Quotient(current + left, n, 1, current + left - n);
    }
  }

  /** Outside of a tick a node that is placed waits for as long as it has left. */
  lemma PlaceWait(w: Wheel, e: Entry, timeleft: nat)
    requires w.Ok() && w.ticking == 0
    ensures Wait(Place(w, e, timeleft)) == Wait(w) + timeleft
  {
    hide SlotsWait, ListWait;
    if timeleft >= w.n {
      ListWaitSnoc(w.parked, e.(timeleft := timeleft - (w.n - w.current)), w.n - w.current);
    } else {
      AheadOf(w.n, w.current, timeleft);
      WaitMore(w.slots, w.current, (w.current + timeleft) % w.n, e.(timeleft := timeleft), w.n);
    }
  }

  lemma AddWaits(w: Wheel, q: Req)
    requires w.Ok()
    ensures Size(Add(w, q)) == Size(w) + 1 && (w.ticking == 0 ==> Wait(Add(w, q)) == Wait(w) + q.timeout)
    ensures Add(w, q).ticking == w.ticking
  {
    var s := Stocked(w);
    var w1, e := s.(free := s.free[1..]), Entry(s.free[0], q.ud, q.timeout, 0, q.repeat);
    PlaceSize(w1, e, q.timeout);
    if w.ticking == 0 {
      PlaceWait(w1, e, q.timeout);
    }
  }

  /** A timer that fires for the last time leaves the wheel, and the others stay. */
  lemma FireSize(w: Wheel)
    requires w.Ok() && w.slots[w.current] != [] && w.slots[w.current][0].repeat == 1
    ensures Size(Fire(w, [])) == Size(w) - 1 && Wait(Fire(w, [])) == Wait(w)
    ensures Fire(w, []).slots[w.current] == w.slots[w.current][1..]
  {
    SizeSet(w.slots, w.current, w.slots[w.current][1..], w.n);
    WaitSame(w.slots, w.current, w.slots[w.current][1..], w.n);
  }

  /** Those that are due do not wait. */
  lemma {:induction false} WaitSame(slots: seq<seq<Entry>>, current: nat, q: seq<Entry>, k: nat)
    requires current < |slots| && k <= |slots|
    ensures SlotsWait(slots[current := q], current, k) == SlotsWait(slots, current, k)
  {
    if k > 0 {
      WaitSame(slots, current, q, k - 1);
    }
  }

  lemma {:induction false} CascadeWait(w: Wheel, tmp: seq<Entry>)
    requires w.Ok() && w.ticking == 0 && w.current == 0
    ensures Wait(Cascade(w, tmp)) == SlotsWait(w.slots, 0, w.n) + ListWait(w.parked, 0) + ListWait(tmp, w.n)
    ensures Size(Cascade(w, tmp)) == Size(w) + |tmp|
    decreases |w.parked|
  {
    if w.parked != [] {
      var e, w1 := w.parked[0], w.(parked := w.parked[1..]);
      CascadeWait(CascadeTurn(w, tmp).0, CascadeTurn(w, tmp).1);
      if e.timeleft < w.n {
        PlaceWait(w1, e, e.timeleft);
        PlaceSize(w1, e, e.timeleft);
      } else {
        ListWaitSnoc(tmp, e.(timeleft := e.timeleft - w.n), w.n);
      }
    }
  }

  lemma {:induction false} SlotsNearer(slots: seq<seq<Entry>>, current: nat, k: nat)
    requires current < |slots| && k <= |slots| && slots[current] == []
    ensures SlotsWait(slots, (current + 1) % |slots|, k) + SlotsSize(slots, k) == SlotsWait(slots, current, k)
  {
    if k > 0 {
      SlotsNearer(slots, current, k - 1);
      if k - 1 != current {
        AheadNearer(|slots|, current, k - 1, |slots[k - 1]|);
      }
    }
  }

  lemma NextSlot(n: nat, current: nat)
    requires current < n
    ensures (current + 1) % n == if current + 1 < n then current + 1 else 0
  {
  }

  lemma OneLess(x: nat, a: int)
    ensures x * (a - 1) + x == x * a
  {
  }

  lemma AheadNearer(n: nat, current: nat, i: nat, size: nat)
    requires current < n && i < n && i != current
    ensures size * Ahead(n, (current + 1) % n, i) + size == size * Ahead(n, current, i)
  {
    NextSlot(n, current);
    OneLess(size, Ahead(n, current, i));
  }

  lemma {:induction false} ListNearer(es: seq<Entry>, turn: nat)
    ensures ListWait(es, turn + 1) == ListWait(es, turn) + |es|
  {
    if es != [] {
      ListNearer(es[1..], turn);
    }
  }

  /** The end of a tick brings every timer one tick nearer. */
  lemma AdvanceWait(w: Wheel)
    requires w.Ok() && w.slots[w.current] == []
    ensures Size(Advance(w)) == Size(w) && Wait(Advance(w)) == Wait(w) - Size(w) && Advance(w).ticking == 0
  {
    SlotsNearer(w.slots, w.current, w.n);
    ListNearer(w.parked, w.n - w.current - 1);
    NextSlot(w.n, w.current);
    hide SlotsSize, SlotsWait, Cascade;
    if w.current + 1 == w.n {
      CascadeWait(w.(current := 0, ticking := 0, epoch := w.epoch + w.n), []);
    }
  }

  /** What is on the wheel is one of its timers. */
  lemma {:induction false} SlotCountSize(slots: seq<seq<Entry>>, m: Mark, k: nat)
    requires k <= |slots|
    ensures SlotCount(slots[..k], m) > 0 ==> SlotsSize(slots, k) > 0
  {
    if k > 0 {
      SlotCountSize(slots, m, k - 1);
      SlotCountSnoc(slots[..k - 1], slots[k - 1], m);
      assert slots[..k] == slots[..k - 1] + [slots[k - 1]];
    }
  }

  lemma {:induction false} SlotCountSnoc(slots: seq<seq<Entry>>, q: seq<Entry>, m: Mark)
    ensures SlotCount(slots + [q], m) == SlotCount(slots, m) + Count(q, m)
  {
    if slots == [] {
      assert [] + [q] == [q] && [q][1..] == [];
    } else {
      SlotCountSnoc(slots[1..], q, m);
      assert (slots + [q])[1..] == slots[1..] + [q];
    }
  }

  lemma ListedSize(w: Wheel, m: Mark)
    requires w.Ok() && Listed(w, m) > 0
    ensures Size(w) > 0
  {
    SlotCountSize(w.slots, m, w.n);
    assert w.slots[..w.n] == w.slots;
  }
}
