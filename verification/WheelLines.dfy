/**
 The timing wheel refines a plain agenda: one line-up of timers for every deadline.

 `Line(w, d)` is the sequence of timers due at tick d: those on the slot of d, then those parked
 for d.  A tick calls back exactly the line-up of its own number, in order; every other line-up
 only changes by the insertions of that tick; and the cascade moves timers without changing any.
 */
module WheelLines {
  import opened Basics
  import opened TimingWheel

  /** A timer, whatever node holds it. */
  datatype Timer = Timer(ud: Ud, timeout: nat, repeat: nat)

  /** A timer put into the wheel, to fire at tick `due`. */
  datatype Placement = Placement(due: nat, timer: Timer)

  function Key(e: Entry): Timer {
    Timer(e.ud, e.timeout, e.repeat)
  }

  function Keys(es: seq<Entry>): seq<Timer> {
    seq(|es|, i requires 0 <= i < |es| => Key(es[i]))
  }

  /** The parked timers with this many ticks left. */
  function Pick(es: seq<Entry>, left: int): seq<Timer> {
    if es == [] then [] else (if es[0].timeleft == left then [Key(es[0])] else []) + Pick(es[1..], left)
  }

  /** The placements due at tick d. */
  function Due(js: seq<Placement>, d: nat): seq<Timer> {
    if js == [] then [] else (if js[0].due == d then [js[0].timer] else []) + Due(js[1..], d)
  }

  /** The timers on the slot of tick d, when d is within one revolution. */
  function Direct(w: Wheel, d: nat): seq<Timer>
    requires w.Ok()
  {
    if w.Clock() <= d < w.Clock() + w.n then
      Keys(w.slots[if d - w.epoch < w.n then d - w.epoch else d - w.epoch - w.n])
    else []
  }

  /** The timers parked for tick d. */
  function Parked(w: Wheel, d: nat): seq<Timer> {
    Pick(w.parked, d - w.epoch - w.n)
  }

  function Line(w: Wheel, d: nat): seq<Timer>
    requires w.Ok()
  {
    Direct(w, d) + Parked(w, d)
  }

  lemma {:induction false} PickConcat(a: seq<Entry>, b: seq<Entry>, left: int)
    ensures Pick(a + b, left) == Pick(a, left) + Pick(b, left)
  {
    if a == [] {
      assert a + b == b;
    } else {
      assert (a + b)[1..] == a[1..] + b;
      PickConcat(a[1..], b, left);
      Assoc(if a[0].timeleft == left then [Key(a[0])] else [], Pick(a[1..], left), Pick(b, left));
    }
  }

  lemma {:induction false} NoneLeft(es: seq<Entry>, left: int)
    requires left < 0
    ensures Pick(es, left) == []
  {
    if es != [] {
      NoneLeft(es[1..], left);
    }
  }

  lemma {:induction false} DueConcat(a: seq<Placement>, b: seq<Placement>, d: nat)
    ensures Due(a + b, d) == Due(a, d) + Due(b, d)
  {
    if a == [] {
      assert a + b == b;
    } else {
      assert (a + b)[1..] == a[1..] + b;
      DueConcat(a[1..], b, d);
      Assoc(if a[0].due == d then [a[0].timer] else [], Due(a[1..], d), Due(b, d));
    }
  }

  // ---- insertion -------------------------------------------------------------------

  /** From w to w' the line-up of tick d has got `more`: behind the timers of its slot while d is
      within one revolution, behind the parked ones otherwise. */
  ghost predicate Inserted(w: Wheel, w': Wheel, d: nat, more: seq<Timer>)
    requires w.Ok() && w'.Ok()
  {
    && w'.n == w.n && w'.current == w.current && w'.epoch == w.epoch
    && Direct(w', d) == (if d < w.Clock() + w.n then Direct(w, d) + more else Direct(w, d))
    && Parked(w', d) == (if d < w.Clock() + w.n then Parked(w, d) else Parked(w, d) + more)
  }

  /** Slot arithmetic needs at most one subtraction. */
  lemma ModOnce(a: nat, n: nat)
    requires 0 < n && a < 2 * n
    ensures a % n == if a < n then a else a - n
  {
    if a >= n {
      assert a == n + (a - n);
    }
  }

  /** The delay with which a timer is placed: never 0 during a tick. */
  function Delay(w: Wheel, timeleft: nat): nat {
    if w.ticking != 0 && timeleft == 0 then 1 else timeleft
  }

  /** A timer a revolution or more away goes to the end of the parked ones. */
  lemma ParkInserts(w: Wheel, e: Entry, left: nat, d: nat)
    requires w.Ok() && left >= w.n
    ensures Inserted(w, w.(parked := w.parked + [e.(timeleft := left - (w.n - w.current))]), d,
                     if d == w.Clock() + left then [Key(e)] else [])
  {
    var parked, more := e.(timeleft := left - (w.n - w.current)), if d == w.Clock() + left then [Key(e)] else [];
    var w' := w.(parked := w.parked + [parked]);
    assert Direct(w', d) == Direct(w, d);
    PickConcat(w.parked, [parked], d - w.epoch - w.n);
    assert Pick([parked], d - w.epoch - w.n) == more;
    assert Parked(w', d) == Parked(w, d) + more;
    hide Direct, Parked;
    if d < w.Clock() + w.n {
      assert Parked(w, d) + [] == Parked(w, d) && Direct(w, d) + [] == Direct(w, d);
    }
  }

  /** The slot on which a delay of less than one revolution falls (timer.c:224). */
  function Slot(w: Wheel, left: nat): nat {
    if w.current + left < w.n then w.current + left else w.current + left - w.n
  }

  lemma SlotInserts(w: Wheel, e: Entry, left: nat, d: nat)
    requires w.Ok() && left < w.n
    ensures Inserted(w, w.(slots := w.slots[Slot(w, left) := w.slots[Slot(w, left)] + [e]]), d,
                     if d == w.Clock() + left then [Key(e)] else [])
  {
  }

  /** add_obj_raw puts the timer into exactly one line-up. */
  lemma PlaceInserts(w: Wheel, e: Entry, timeleft: nat, d: nat)
    requires w.Ok()
    ensures Place(w, e, timeleft).Ok()
    ensures Inserted(w, Place(w, e, timeleft), d, if d == w.Clock() + Delay(w, timeleft) then [Key(e)] else [])
  {
    var left := Delay(w, timeleft);
    if left >= w.n {
      assert Place(w, e, timeleft) == w.(parked := w.parked + [e.(timeleft := left - (w.n - w.current))]);
      hide *;
      ParkInserts(w, e, left, d);
    } else {
      ModOnce(w.current + left, w.n);
      var slot := Slot(w, left);
      assert Place(w, e, timeleft) == w.(slots := w.slots[slot := w.slots[slot] + [e.(timeleft := left)]]);
      assert Key(e.(timeleft := left)) == Key(e);
      hide *;
      SlotInserts(w, e.(timeleft := left), left, d);
    }
  }

  // ---- what a tick inserts ---------------------------------------------------------

  function AtLeastOne(x: nat): nat {
    if x == 0 then 1 else x
  }

  /** The placements made by the adds of one callback, at tick t. */
  function AddsJournal(t: nat, adds: seq<Req>): seq<Placement> {
    seq(|adds|, i requires 0 <= i < |adds| =>
      Placement(t + AtLeastOne(adds[i].timeout), Timer(adds[i].ud, adds[i].timeout, adds[i].repeat)))
  }

  /** The timer after it has fired once more: gone, or due again one period later. */
  function RearmJournal(t: nat, k: Timer): seq<Placement> {
    if k.repeat == 1 then []
    else [Placement(t + AtLeastOne(k.timeout), k.(repeat := if k.repeat == 0 then 0 else k.repeat - 1))]
  }

  /** All placements of tick t, when the timers `fired` are called back. */
  function Journal(t: nat, fired: seq<Timer>, script: seq<seq<Req>>): seq<Placement> {
    if fired == [] then []
    else AddsJournal(t, Now(script)) + RearmJournal(t, fired[0]) + Journal(t, fired[1..], Later(script))
  }

  lemma InsertedTwice(w: Wheel, w1: Wheel, w2: Wheel, d: nat, a: seq<Timer>, b: seq<Timer>)
    requires w.Ok() && w1.Ok() && w2.Ok() && Inserted(w, w1, d, a) && Inserted(w1, w2, d, b)
    ensures Inserted(w, w2, d, a + b)
  {
    hide Direct, Parked;
    Assoc(Direct(w, d), a, b);
    Assoc(Parked(w, d), a, b);
  }

  lemma Rebase(w: Wheel, w0: Wheel, w1: Wheel, d: nat, more: seq<Timer>)
    requires w.Ok() && w0.Ok() && w1.Ok() && w0.n == w.n && w0.current == w.current && w0.epoch == w.epoch
    requires Direct(w0, d) == Direct(w, d) && Parked(w0, d) == Parked(w, d) && Inserted(w0, w1, d, more)
    ensures Inserted(w, w1, d, more)
  {
  }

  /** timer_add puts the timer into exactly one line-up. */
  lemma AddInserts(w: Wheel, q: Req, d: nat)
    requires w.Ok()
    ensures Add(w, q).Ok() && Add(w, q).ticking == w.ticking
    ensures Inserted(w, Add(w, q), d,
              if d == w.Clock() + Delay(w, q.timeout) then [Timer(q.ud, q.timeout, q.repeat)] else [])
  {
    var s := Stocked(w);
    var taken, e := s.(free := s.free[1..]), Entry(s.free[0], q.ud, q.timeout, 0, q.repeat);
    assert taken.slots == w.slots && taken.parked == w.parked && taken.ticking == w.ticking;
    assert Direct(taken, d) == Direct(w, d) && Parked(taken, d) == Parked(w, d) && taken.Ok();
    assert Delay(taken, q.timeout) == Delay(w, q.timeout) && taken.Clock() == w.Clock();
    assert Add(w, q) == Place(taken, e, q.timeout) && Key(e) == Timer(q.ud, q.timeout, q.repeat);
    hide Direct, Parked, Place, Delay, Key, Inserted, Stocked;
    PlaceInserts(taken, e, q.timeout, d);
    PlaceKeeps(taken, e, q.timeout);
    Rebase(w, taken, Add(w, q), d, if d == w.Clock() + Delay(w, q.timeout) then [Key(e)] else []);
  }

  lemma PlaceKeeps(w: Wheel, e: Entry, timeleft: nat)
    requires w.Ok()
    ensures Place(w, e, timeleft).Ok() && Place(w, e, timeleft).ticking == w.ticking
  {
  }

  lemma AddsFirst(t: nat, qs: seq<Req>, d: nat)
    requires qs != []
    ensures Due(AddsJournal(t, qs), d) ==
            (if d == t + AtLeastOne(qs[0].timeout) then [Timer(qs[0].ud, qs[0].timeout, qs[0].repeat)] else [])
            + Due(AddsJournal(t, qs[1..]), d)
  {
    assert AddsJournal(t, qs)[1..] == AddsJournal(t, qs[1..]);
  }

  lemma {:induction false} AddAllInserts(w: Wheel, qs: seq<Req>, d: nat)
    requires w.Ok() && w.ticking != 0
    ensures Inserted(w, AddAll(w, qs), d, Due(AddsJournal(w.Clock(), qs), d))
    decreases |qs|
  {
    if qs != [] {
      var t, w1, rest := w.Clock(), Add(w, qs[0]), qs[1..];
      var first := if d == t + AtLeastOne(qs[0].timeout) then [Timer(qs[0].ud, qs[0].timeout, qs[0].repeat)] else [];
      AddInserts(w, qs[0], d);
      assert Inserted(w, w1, d, first) && w1.Clock() == t && w1.ticking == w.ticking;
      assert AddAll(w, qs) == AddAll(w1, rest);
      hide *;
      AddsFirst(t, qs, d);
      AddAllInserts(w1, rest, d);
      InsertedTwice(w, w1, AddAll(w1, rest), d, first, Due(AddsJournal(t, rest), d));
    }
  }

  lemma PoppedLines(w: Wheel, d: nat)
    requires w.Ok() && w.slots[w.current] != []
    ensures Parked(Popped(w), d) == Parked(w, d)
    ensures d != w.Clock() ==> Direct(Popped(w), d) == Direct(w, d)
    ensures d == w.Clock() ==> Direct(Popped(w), d) == Direct(w, d)[1..] && Direct(w, d) != []
    ensures Key(w.slots[w.current][0]) == Direct(w, w.Clock())[0]
  {
  }

  lemma FinishInserts(w: Wheel, e: Entry, d: nat)
    requires w.Ok() && w.ticking != 0
    ensures Finish(w, e).Ok()
    ensures Inserted(w, Finish(w, e), d, Due(RearmJournal(w.Clock(), Key(e)), d))
  {
    if e.repeat != 1 {
      var again := e.(repeat := if e.repeat == 0 then 0 else e.repeat - 1);
      assert Finish(w, e) == Place(w, again, e.timeout);
      assert Due(RearmJournal(w.Clock(), Key(e)), d) ==
             if d == w.Clock() + Delay(w, e.timeout) then [Key(again)] else [];
      hide *;
      PlaceInserts(w, again, e.timeout, d);
    }
  }

  /** One turn of the firing loop, seen by one line-up. */
  lemma FireInserts(w: Wheel, adds: seq<Req>, d: nat)
    requires w.Ok() && w.slots[w.current] != []
    ensures Inserted(Popped(w), Fire(w, adds), d,
              Due(AddsJournal(w.Clock(), adds) + RearmJournal(w.Clock(), Key(w.slots[w.current][0])), d))
  {
    var e, w0 := w.slots[w.current][0], Popped(w);
    var w1 := AddAll(w0, adds);
    AddAllInserts(w0, adds, d);
    FinishInserts(w1, e, d);
    assert Fire(w, adds) == Finish(w1, e) && w0.Clock() == w1.Clock() == w.Clock();
    hide *;
    DueConcat(AddsJournal(w.Clock(), adds), RearmJournal(w.Clock(), Key(e)), d);
    InsertedTwice(w0, w1, Finish(w1, e), d,
                  Due(AddsJournal(w.Clock(), adds), d), Due(RearmJournal(w.Clock(), Key(e)), d));
  }

  /** Nothing a callback adds or re-arms is due before the next tick. */
  lemma {:induction false} NothingDueNow(t: nat, adds: seq<Req>, k: Timer)
    ensures Due(AddsJournal(t, adds) + RearmJournal(t, k), t) == []
  {
    DueConcat(AddsJournal(t, adds), RearmJournal(t, k), t);
    if adds != [] {
      NothingDueNow(t, adds[1..], k);
      DueConcat(AddsJournal(t, adds[1..]), RearmJournal(t, k), t);
      assert AddsJournal(t, adds)[1..] == AddsJournal(t, adds[1..]);
    }
  }

  /** A turn takes the first timer off the line-up of the current tick, and puts none on it. */
  lemma FireShifts(w: Wheel, adds: seq<Req>)
    requires w.Ok() && w.slots[w.current] != []
    ensures Direct(w, w.Clock()) != []
    ensures Direct(Fire(w, adds), w.Clock()) == Direct(w, w.Clock())[1..]
    ensures Key(w.slots[w.current][0]) == Direct(w, w.Clock())[0]
  {
    PoppedLines(w, w.Clock());
    FireInserts(w, adds, w.Clock());
    NothingDueNow(w.Clock(), adds, Key(w.slots[w.current][0]));
  }

  /** The firing loop empties the current slot ... */
  lemma {:induction false} FireAllEmpties(w: Wheel, num: nat, script: seq<seq<Req>>)
    requires w.Ok() && num == |w.slots[w.current]|
    ensures FireAll(w, num, script).slots[w.current] == []
    decreases num
  {
    if num != 0 {
      FireShifts(w, Now(script));
      assert |Direct(w, w.Clock())| == num;
      FireAllEmpties(Fire(w, Now(script)), num - 1, Later(script));
    }
  }

  /** One turn inserts its journal into the line-up of every later tick ... */
  lemma TurnInserts(w: Wheel, adds: seq<Req>, d: nat)
    requires w.Ok() && w.slots[w.current] != [] && d > w.Clock()
    ensures Direct(w, w.Clock()) != []
    ensures Inserted(w, Fire(w, adds), d,
              Due(AddsJournal(w.Clock(), adds) + RearmJournal(w.Clock(), Direct(w, w.Clock())[0]), d))
  {
    hide Fire, Direct, Parked, Due, AddsJournal, RearmJournal, Inserted;
    PoppedLines(w, d);
    PoppedLines(w, w.Clock());
    FireInserts(w, adds, d);
    Rebase(w, Popped(w), Fire(w, adds), d,
           Due(AddsJournal(w.Clock(), adds) + RearmJournal(w.Clock(), Direct(w, w.Clock())[0]), d));
  }

  lemma FireAllStep(w: Wheel, num: nat, script: seq<seq<Req>>)
    requires w.Ok() && 0 < num == |w.slots[w.current]|
    ensures var t, fired, w1 := w.Clock(), Direct(w, w.Clock()), Fire(w, Now(script));
            && w1.Ok() && w1.Clock() == t && w1.n == w.n && |w1.slots[w1.current]| == num - 1
            && fired != [] && Direct(w1, t) == fired[1..]
            && FireAll(w, num, script) == FireAll(w1, num - 1, Later(script))
            && Journal(t, fired, script) ==
                 AddsJournal(t, Now(script)) + RearmJournal(t, fired[0]) + Journal(t, fired[1..], Later(script))
  {
    FireShifts(w, Now(script));
    hide Fire, AddsJournal, RearmJournal;
    assert |Direct(w, w.Clock())| == num;
    assert |Direct(Fire(w, Now(script)), w.Clock())| == |Fire(w, Now(script)).slots[w.current]|;
  }

  lemma FireAllDone(w: Wheel, script: seq<seq<Req>>, d: nat)
    requires w.Ok() && 0 == |w.slots[w.current]|
    ensures Inserted(w, FireAll(w, 0, script), d, Due(Journal(w.Clock(), Direct(w, w.Clock()), script), d))
  {
    assert Direct(w, w.Clock()) == [];
  }

  /** ... and so does the firing loop. */
  lemma {:induction false} FireAllInserts(w: Wheel, num: nat, script: seq<seq<Req>>, d: nat)
    requires w.Ok() && num == |w.slots[w.current]| && d > w.Clock()
    ensures Inserted(w, FireAll(w, num, script), d, Due(Journal(w.Clock(), Direct(w, w.Clock()), script), d))
    decreases num
  {
    hide *;
    if num == 0 {
      FireAllDone(w, script, d);
    } else {
      var t, fired, w1 := w.Clock(), Direct(w, w.Clock()), Fire(w, Now(script));
      FireAllStep(w, num, script);
      TurnInserts(w, Now(script), d);
      var now, later := AddsJournal(t, Now(script)) + RearmJournal(t, fired[0]), Journal(t, fired[1..], Later(script));
      FireAllInserts(w1, num - 1, Later(script), d);
      DueConcat(now, later, d);
      InsertedTwice(w, w1, FireAll(w1, num - 1, Later(script)), d, Due(now, d), Due(later, d));
    }
  }

  // ---- the end of a tick -----------------------------------------------------------

  /** The parked timers that are due at tick d, counted from the start of the new revolution. */
  function Falling(w: Wheel, d: nat): seq<Timer> {
    if d < w.epoch + w.n then Pick(w.parked, d - w.epoch) else []
  }

  lemma FallsDirect(w: Wheel, e: Entry, d: nat)
    requires w.Ok() && w.ticking == 0 && w.current == 0 && e.timeleft < w.n
    ensures Direct(Place(w, e, e.timeleft), d) ==
            Direct(w, d) + (if d < w.epoch + w.n && e.timeleft == d - w.epoch then [Key(e)] else [])
  {
    PlaceInserts(w, e, e.timeleft, d);
  }

  lemma FallingFirst(w: Wheel, d: nat)
    requires w.parked != []
    ensures Falling(w, d) ==
            (if d < w.epoch + w.n && w.parked[0].timeleft == d - w.epoch then [Key(w.parked[0])] else [])
            + Falling(w.(parked := w.parked[1..]), d)
  {
  }

  /** One parked timer goes to the end of its slot, or stays parked. */
  lemma CascadeTurnDirect(w: Wheel, tmp: seq<Entry>, d: nat)
    requires w.Ok() && w.ticking == 0 && w.current == 0 && w.parked != []
    ensures var w1 := CascadeTurn(w, tmp).0; Direct(w1, d) + Falling(w1, d) == Direct(w, d) + Falling(w, d)
  {
    var e, w0, w1 := w.parked[0], w.(parked := w.parked[1..]), CascadeTurn(w, tmp).0;
    var first := if d < w.epoch + w.n && e.timeleft == d - w.epoch then [Key(e)] else [];
    FallingFirst(w, d);
    assert Direct(w0, d) == Direct(w, d);
    FallingSame(w0, w1, d);
    if e.timeleft < w.n {
      FallsDirect(w0, e, d);
      hide *;
      Assoc(Direct(w, d), first, Falling(w0, d));
    } else {
      assert w1 == w0 && first == [];
    }
  }

  lemma FallingSame(w: Wheel, w': Wheel, d: nat)
    requires w'.parked == w.parked && w'.epoch == w.epoch && w'.n == w.n
    ensures Falling(w', d) == Falling(w, d)
  {
  }

  /** The cascade takes the parked timers that are due within the new revolution to their slots,
      behind what is there, in the order in which they were parked ... */
  lemma {:induction false} CascadeDirect(w: Wheel, tmp: seq<Entry>, d: nat)
    requires w.Ok() && w.ticking == 0 && w.current == 0
    ensures Direct(Cascade(w, tmp), d) == Direct(w, d) + Falling(w, d)
    decreases |w.parked|
  {
    if w.parked != [] {
      hide Direct, Falling, CascadeTurn;
      CascadeTurnDirect(w, tmp, d);
      CascadeDirect(CascadeTurn(w, tmp).0, CascadeTurn(w, tmp).1, d);
    }
  }

  /** The parked timers that stay parked, one revolution nearer. */
  function Stay(es: seq<Entry>, n: nat): seq<Entry> {
    if es == [] then []
    else (if es[0].timeleft < n then [] else [es[0].(timeleft := es[0].timeleft - n)]) + Stay(es[1..], n)
  }

  lemma {:induction false} StayPick(es: seq<Entry>, n: nat, left: int)
    ensures Pick(Stay(es, n), left) == if left < 0 then [] else Pick(es, left + n)
  {
    if es != [] {
      var first := if es[0].timeleft < n then [] else [es[0].(timeleft := es[0].timeleft - n)];
      StayPick(es[1..], n, left);
      assert Stay(es, n) == first + Stay(es[1..], n);
      PickConcat(first, Stay(es[1..], n), left);
    }
  }

  /** ... and leaves the others parked, in order. */
  lemma {:induction false} CascadeParked(w: Wheel, tmp: seq<Entry>)
    requires w.Ok() && w.ticking == 0
    ensures Cascade(w, tmp).parked == tmp + Stay(w.parked, w.n)
    decreases |w.parked|
  {
    if w.parked != [] {
      var r := CascadeTurn(w, tmp);
      assert r.1 + Stay(r.0.parked, w.n) == tmp + Stay(w.parked, w.n);
      hide Stay, CascadeTurn;
      CascadeParked(r.0, r.1);
    }
  }

  /** The wheel at the start of a new revolution, before the cascade. */
  function Wrapped(w: Wheel): Wheel {
    w.(current := 0, ticking := 0, epoch := w.epoch + w.n)
  }

  lemma WrappedLines(w: Wheel, d: nat)
    requires w.Ok() && w.slots[w.current] == [] && w.current + 1 == w.n && d > w.Clock()
    ensures Wrapped(w).Ok() && Direct(Wrapped(w), d) == Direct(w, d)
    ensures Parked(w, d) == if d < w.epoch + 2 * w.n then Falling(Wrapped(w), d) else Pick(w.parked, d - w.epoch - w.n)
  {
  }

  lemma WrapLines(w: Wheel, d: nat)
    requires w.Ok() && w.slots[w.current] == [] && w.current + 1 == w.n && d > w.Clock()
    ensures Wrapped(w).Ok()
    ensures Line(Cascade(Wrapped(w), []), d) == Line(w, d)
  {
    hide Direct, Cascade, Pick, Stay;
    var w1 := Wrapped(w);
    var r := Cascade(w1, []);
    WrappedLines(w, d);
    CascadeDirect(w1, [], d);
    CascadeParked(w1, []);
    StayPick(w1.parked, w1.n, d - w1.epoch - w1.n);
    assert r.parked == Stay(w1.parked, w1.n) && r.epoch == w.epoch + w.n && r.n == w.n;
    assert Parked(r, d) == if d < w.epoch + 2 * w.n then [] else Pick(w.parked, d - w.epoch - w.n);
    assert Falling(w1, d) == if d < w.epoch + 2 * w.n then Parked(w, d) else [];
  }

  /** The end of a tick, with or without a cascade, changes no line-up of a later tick. */
  lemma AdvanceLines(w: Wheel, d: nat)
    requires w.Ok() && w.slots[w.current] == [] && d > w.Clock()
    ensures Advance(w).Ok() && Advance(w).n == w.n && Advance(w).Clock() == w.Clock() + 1
    ensures Line(Advance(w), d) == Line(w, d)
  {
    ModOnce(w.current + 1, w.n);
    if w.current + 1 == w.n {
      WrapLines(w, d);
      assert Advance(w) == Cascade(Wrapped(w), []);
    } else {
      var w1 := w.(current := w.current + 1, ticking := 0);
      assert Direct(w1, d) == Direct(w, d);
    }
  }

  // ---- a whole tick ----------------------------------------------------------------

  /** What the firing loop calls back is the content of the slot, in order. */
  lemma {:induction false} FiringsAre(w: Wheel, num: nat, script: seq<seq<Req>>)
    requires w.Ok() && num == |w.slots[w.current]|
    ensures |Firings(w, num, script)| == |Direct(w, w.Clock())|
    ensures forall i :: 0 <= i < num ==>
              var f, k := Firings(w, num, script)[i], Direct(w, w.Clock())[i];
              f.ud == k.ud && (f.erased <==> k.repeat == 1)
    decreases num
  {
    if num != 0 {
      var w1 := Fire(w, Now(script));
      FireShifts(w, Now(script));
      assert |Direct(w1, w1.Clock())| == num - 1;
      FiringsAre(w1, num - 1, Later(script));
      forall i | 0 < i < num
        ensures Firings(w, num, script)[i] == Firings(w1, num - 1, Later(script))[i - 1]
        ensures Direct(w, w.Clock())[i] == Direct(w1, w1.Clock())[i - 1]
      {
      }
    }
  }

  /** A tick calls back exactly the line-up of its own number, in order. */
  lemma TickFires(w: Wheel, script: seq<seq<Req>>)
    requires w.Ok()
    ensures var fs, line := TickFirings(w, script), Line(w, w.Clock());
            && |fs| == |line|
            && forall i :: 0 <= i < |fs| ==> fs[i].ud == line[i].ud && (fs[i].erased <==> line[i].repeat == 1)
  {
    FiringsAre(w, |w.slots[w.current]|, script);
    NoneLeft(w.parked, w.Clock() - w.epoch - w.n);
  }

  /** Every later line-up gets what this tick places there, and nothing else: behind the timers
      already on the slot, or, when it is more than one revolution away, behind the parked ones. */
  lemma TickLine(w: Wheel, script: seq<seq<Req>>, d: nat)
    requires w.Ok() && d > w.Clock()
    ensures Tick(w, script).Ok() && Tick(w, script).n == w.n && Tick(w, script).Clock() == w.Clock() + 1
    ensures var more := Due(Journal(w.Clock(), Line(w, w.Clock()), script), d);
            Line(Tick(w, script), d) ==
              if d < w.Clock() + w.n then Direct(w, d) + more + Parked(w, d) else Line(w, d) + more
  {
    var num := |w.slots[w.current]|;
    NoneLeft(w.parked, w.Clock() - w.epoch - w.n);
    assert Line(w, w.Clock()) == Direct(w, w.Clock());
    hide Direct, Parked, Due, FireAll, Advance, Journal;
    FireAllEmpties(w, num, script);
    FireAllInserts(w, num, script, d);
    AdvanceLines(FireAll(w, num, script), d);
    InsertedLine(w, FireAll(w, num, script), d, Due(Journal(w.Clock(), Line(w, w.Clock()), script), d));
  }

  lemma InsertedLine(w: Wheel, w': Wheel, d: nat, more: seq<Timer>)
    requires w.Ok() && w'.Ok() && Inserted(w, w', d, more)
    ensures Line(w', d) == if d < w.Clock() + w.n then Direct(w, d) + more + Parked(w, d) else Line(w, d) + more
  {
    hide Direct, Parked;
    Assoc(Direct(w, d), Parked(w, d), more);
  }

  /** A timer added between two ticks joins one line-up, and its place there depends only on
      whether it is due within one revolution. */
  lemma AddLine(w: Wheel, q: Req, d: nat)
    requires w.Ok() && w.ticking == 0
    ensures Add(w, q).Ok() && Add(w, q).Clock() == w.Clock() && Add(w, q).ticking == 0 && Add(w, q).n == w.n
    ensures var more := if d == w.Clock() + q.timeout then [Timer(q.ud, q.timeout, q.repeat)] else [];
            Line(Add(w, q), d) ==
              if d < w.Clock() + w.n then Direct(w, d) + more + Parked(w, d) else Line(w, d) + more
  {
    AddInserts(w, q, d);
    InsertedLine(w, Add(w, q), d, if d == w.Clock() + q.timeout then [Timer(q.ud, q.timeout, q.repeat)] else []);
  }

  lemma TickIdle(w: Wheel, script: seq<seq<Req>>)
    requires w.Ok()
    ensures Tick(w, script).ticking == 0
  {
  }

  /** `current` is the number of completed ticks modulo N, and `epoch` the multiple of N below it. */
  ghost predicate OnTheClock(w: Wheel) {
    w.Ok() && w.current == w.Clock() % w.n && w.epoch == (w.Clock() / w.n) * w.n
  }

  lemma ClockOfTick(w: Wheel, script: seq<seq<Req>>)
    requires OnTheClock(w)
    ensures OnTheClock(Tick(w, script))
  {
    var r, q := FireAll(w, |w.slots[w.current]|, script), w.Clock() / w.n;
    ModOnce(w.current + 1, w.n);
    ClockOfAdvance(r, q);
  }

  lemma ClockOfAdvance(w: Wheel, q: nat)
    requires w.Ok() && w.epoch == q * w.n
    ensures OnTheClock(Advance(w))
  {
    ModOnce(w.current + 1, w.n);
    if w.current + 1 < w.n {
      Quotient(q * w.n + w.current + 1, w.n, q, w.current + 1);
    } else {
      Quotient((q + 1) * w.n, w.n, q + 1, 0);
      assert (q + 1) * w.n == q * w.n + w.n;
    }
  }
}
