/**
 The timing wheel of common/timer/timer.c on values: N slots, a list for the deadlines beyond
 one revolution, and a pool of numbered nodes.  `TimerObjects` is the same in place, on linked
 nodes, and is proved to compute these functions.
 */
module TimingWheel {

  type Ud = nat                                // what a user-data pointer points to
  type Id = x: nat | x > 0 witness 1           // a node number: its pool index plus one

  /** A node that is on a slot or parked: tobj_t (timer.c:16-26). */
  datatype Entry = Entry(id: Id, ud: Ud, timeout: nat, timeleft: nat, repeat: nat)

  /** What a caller of timer_add asks for. */
  datatype Req = Req(timeout: nat, ud: Ud, repeat: nat)

  /** A call of a callback. */
  datatype Firing = Firing(ud: Ud, id: Id, erased: bool)

  /** timer_t (timer.c:35-44).  `epoch` is history: the ticks completed when `current` last was 0. */
  datatype Wheel = Wheel(
    n: nat, current: nat, epoch: nat, slots: seq<seq<Entry>>, parked: seq<Entry>,
    ticking: nat, free: seq<Id>, pooln: nat)
  {
    /** The number of completed ticks. */
    function Clock(): nat { epoch + current }

    predicate Ok() { n == |slots| && current < n }
  }

  function New(n: nat): Wheel {
    Wheel(n, 0, 0, seq(n, i => []), [], 0, [], 0)
  }

  /** add_obj_raw (timer.c:209-228) */
  function Place(w: Wheel, e: Entry, timeleft: nat): Wheel
    requires w.Ok()
  {
    var left := if w.ticking != 0 && timeleft == 0 then 1 else timeleft;
    if left >= w.n then
      w.(parked := w.parked + [e.(timeleft := left - (w.n - w.current))])
    else
      var slot := (w.current + left) % w.n;
      w.(slots := w.slots[slot := w.slots[slot] + [e.(timeleft := left)]])
  }

  /** expand_objpool (timer.c:230-242) */
  function Expand(w: Wheel): Wheel {
    var pooln := if w.pooln == 0 then 8 else w.pooln * 2;
    w.(free := w.free + seq(pooln - w.pooln, i requires 0 <= i => (w.pooln + i + 1) as Id), pooln := pooln)
  }

  /** The wheel from which timer_add takes a node: its free list is not empty. */
  function Stocked(w: Wheel): (r: Wheel)
    ensures r.free != []
  {
    if w.free == [] then Expand(w) else w
  }

  /** timer_add (timer.c:74-84) */
  function Add(w: Wheel, q: Req): Wheel
    requires w.Ok()
  {
    var s := Stocked(w);
    Place(s.(free := s.free[1..]), Entry(s.free[0], q.ud, q.timeout, 0, q.repeat), q.timeout)
  }

  /** The timers a callback adds. */
  function AddAll(w: Wheel, qs: seq<Req>): (r: Wheel)
    requires w.Ok()
    ensures r.Ok() && r.n == w.n && r.current == w.current && r.epoch == w.epoch && r.ticking == w.ticking
    decreases |qs|
  {
    if qs == [] then w else AddAll(Add(w, qs[0]), qs[1..])
  }

  /** The wheel when the callback of the first node of the current slot starts (timer.c:106-111). */
  function Popped(w: Wheel): (r: Wheel)
    requires w.Ok() && w.slots[w.current] != []
    ensures r.Ok()
  {
    w.(slots := w.slots[w.current := w.slots[w.current][1..]], ticking := w.slots[w.current][0].id)
  }

  /** What the firing loop does with node e after its callback: free it or arm it again
      (timer.c:112-117). */
  function Finish(w: Wheel, e: Entry): Wheel
    requires w.Ok()
  {
    if e.repeat == 1 then w.(free := w.free + [e.id])
    else Place(w, e.(repeat := if e.repeat == 0 then 0 else e.repeat - 1), e.timeout)
  }

  /** One turn of the firing loop (timer.c:106-118): the first node of the current slot is called
      back, during which `adds` are added, and is freed or armed again. */
  function Fire(w: Wheel, adds: seq<Req>): (r: Wheel)
    requires w.Ok() && w.slots[w.current] != []
    ensures r.Ok() && r.n == w.n && r.current == w.current && r.epoch == w.epoch
  {
    Finish(AddAll(Popped(w), adds), w.slots[w.current][0])
  }

  /** The adds of the next callback. */
  function Now(script: seq<seq<Req>>): seq<Req> {
    if script == [] then [] else script[0]
  }

  function Later(script: seq<seq<Req>>): seq<seq<Req>> {
    if script == [] then [] else script[1..]
  }

  /** The firing loop (timer.c:104-119).  `script` says what each callback adds. */
  function FireAll(w: Wheel, num: nat, script: seq<seq<Req>>): (r: Wheel)
    requires w.Ok()
    ensures r.Ok() && r.n == w.n && r.current == w.current && r.epoch == w.epoch
    decreases num
  {
    if num == 0 || w.slots[w.current] == [] then w
    else FireAll(Fire(w, Now(script)), num - 1, Later(script))
  }

  /** The callbacks that the firing loop makes. */
  function Firings(w: Wheel, num: nat, script: seq<seq<Req>>): seq<Firing>
    requires w.Ok()
    decreases num
  {
    if num == 0 || w.slots[w.current] == [] then [] else
    var e := w.slots[w.current][0];
    [Firing(e.ud, e.id, e.repeat == 1)] + Firings(Fire(w, Now(script)), num - 1, Later(script))
  }

  /** One turn of the first loop over the parked nodes (timer.c:126-134); `tmp` is the queue on
      the stack. */
  function CascadeTurn(w: Wheel, tmp: seq<Entry>): (r: (Wheel, seq<Entry>))
    requires w.Ok() && w.ticking == 0 && w.parked != []
    ensures r.0.Ok() && r.0.ticking == 0 && r.0.n == w.n && r.0.current == w.current && r.0.epoch == w.epoch
    ensures r.0.parked == w.parked[1..]
  {
    var e, w1 := w.parked[0], w.(parked := w.parked[1..]);
    if e.timeleft < w.n then (Place(w1, e, e.timeleft), tmp)
    else (w1, tmp + [e.(timeleft := e.timeleft - w.n)])
  }

  /** Both loops over the parked nodes (timer.c:125-140). */
  function Cascade(w: Wheel, tmp: seq<Entry>): (r: Wheel)
    requires w.Ok() && w.ticking == 0
    ensures r.Ok() && r.n == w.n && r.current == w.current && r.epoch == w.epoch && r.ticking == 0
    decreases |w.parked|
  {
    if w.parked == [] then w.(parked := tmp)
    else Cascade(CascadeTurn(w, tmp).0, CascadeTurn(w, tmp).1)
  }

  /** The end of a tick (timer.c:120-141) */
  function Advance(w: Wheel): Wheel
    requires w.Ok()
  {
    var next := (w.current + 1) % w.n;
    var w1 := w.(current := next, ticking := 0, epoch := if next == 0 then w.epoch + w.n else w.epoch);
    if next == 0 then Cascade(w1, []) else w1
  }

  /** timer_tick (timer.c:101-142) */
  function Tick(w: Wheel, script: seq<seq<Req>>): Wheel
    requires w.Ok()
  {
    Advance(FireAll(w, |w.slots[w.current]|, script))
  }

  function TickFirings(w: Wheel, script: seq<seq<Req>>): seq<Firing>
    requires w.Ok()
  {
    Firings(w, |w.slots[w.current]|, script)
  }

  /** With at most 2^31 slots and delays below 2^32 the 32-bit arithmetic of the source does not
      wrap: at timer.c:120, 220-221 and 224. */
  lemma NoWrap(w: Wheel, left: nat)
    requires w.Ok() && w.n <= 0x8000_0000 && left < 0x1_0000_0000
    ensures left >= w.n ==> 0 <= left - (w.n - w.current) < 0x1_0000_0000
    ensures left < w.n ==> w.current + left < 0x1_0000_0000
    ensures w.current + 1 < 0x1_0000_0000
  {
  }
}
