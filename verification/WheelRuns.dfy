/** When timers fire, over every run of timer_add and timer_tick. */
module WheelRuns {
  import opened Basics
  import opened TimingWheel
  import opened WheelLines

  /** What the owner of the timer does between and during ticks. */
  datatype Op = AddOp(q: Req) | TickOp(script: seq<seq<Req>>)

  function Do(w: Wheel, op: Op): Wheel
    requires w.Ok()
  {
    match op
    case AddOp(q) => Add(w, q)
    case TickOp(script) => Tick(w, script)
  }

  /** The wheel between two operations. */
  ghost predicate Quiet(w: Wheel) {
    w.Ok() && w.ticking == 0
  }

  lemma DoQuiet(w: Wheel, op: Op)
    requires Quiet(w)
    ensures Quiet(Do(w, op)) && Do(w, op).n == w.n
    ensures Do(w, op).Clock() == if op.TickOp? then w.Clock() + 1 else w.Clock()
  {
    match op
    case AddOp(q) => AddLine(w, q, 0);
    case TickOp(script) =>
      TickLine(w, script, w.Clock() + 1);
      TickIdle(w, script);
  }

  ghost function Run(w: Wheel, ops: seq<Op>): (r: Wheel)
    requires Quiet(w)
    ensures Quiet(r) && r.n == w.n && r.Clock() >= w.Clock()
    decreases |ops|
  {
    DoAlways(w, ops);
    if ops == [] then w else Run(Do(w, ops[0]), ops[1..])
  }

  lemma DoAlways(w: Wheel, ops: seq<Op>)
    requires Quiet(w)
    ensures ops != [] ==> Quiet(Do(w, ops[0])) && Do(w, ops[0]).n == w.n
    ensures ops != [] ==> Do(w, ops[0]).Clock() == if ops[0].TickOp? then w.Clock() + 1 else w.Clock()
  {
    if ops != [] {
      DoQuiet(w, ops[0]);
    }
  }

  // ---- one user's timers -----------------------------------------------------------

  /** The timers of user u in a line-up. */
  function Of(ks: seq<Timer>, u: Ud): seq<Timer> {
    if ks == [] then [] else (if ks[0].ud == u then [ks[0]] else []) + Of(ks[1..], u)
  }

  lemma {:induction false} OfConcat(a: seq<Timer>, b: seq<Timer>, u: Ud)
    ensures Of(a + b, u) == Of(a, u) + Of(b, u)
  {
    if a == [] {
      assert a + b == b;
    } else {
      assert (a + b)[1..] == a[1..] + b;
      OfConcat(a[1..], b, u);
      Assoc(if a[0].ud == u then [a[0]] else [], Of(a[1..], u), Of(b, u));
    }
  }

  predicate AvoidsReqs(qs: seq<Req>, u: Ud) {
    forall i :: 0 <= i < |qs| ==> qs[i].ud != u
  }

  /** No operation adds a timer for user u. */
  predicate Avoids(op: Op, u: Ud) {
    match op
    case AddOp(q) => q.ud != u
    case TickOp(script) => forall i :: 0 <= i < |script| ==> AvoidsReqs(script[i], u)
  }

  predicate AvoidsAll(ops: seq<Op>, u: Ud) {
    ops == [] || (Avoids(ops[0], u) && AvoidsAll(ops[1..], u))
  }

  /** What the timers ks of one user, all fired at tick t, place at tick d. */
  function Again(t: nat, ks: seq<Timer>, d: nat): seq<Timer> {
    if ks == [] then [] else Due(RearmJournal(t, ks[0]), d) + Again(t, ks[1..], d)
  }

  lemma {:induction false} AddsOf(t: nat, qs: seq<Req>, u: Ud, d: nat)
    requires AvoidsReqs(qs, u)
    ensures Of(Due(AddsJournal(t, qs), d), u) == []
  {
    if qs != [] {
      var js := AddsJournal(t, qs);
      AddsOf(t, qs[1..], u, d);
      assert js[1..] == AddsJournal(t, qs[1..]);
      OfConcat(if js[0].due == d then [js[0].timer] else [], Due(js[1..], d), u);
    }
  }

  lemma AgainCons(t: nat, x: Timer, ks: seq<Timer>, d: nat)
    ensures Again(t, [x] + ks, d) == Due(RearmJournal(t, x), d) + Again(t, ks, d)
  {
    assert ([x] + ks)[1..] == ks;
  }

  /** A tick places for user u only what u's own fired timers re-arm. */
  lemma {:induction false} JournalOf(t: nat, fired: seq<Timer>, script: seq<seq<Req>>, u: Ud, d: nat)
    requires Avoids(TickOp(script), u)
    ensures Of(Due(Journal(t, fired, script), d), u) == Again(t, Of(fired, u), d)
    decreases |fired|
  {
    if fired != [] {
      var rest := Journal(t, fired[1..], Later(script));
      JournalOf(t, fired[1..], Later(script), u, d);
      TurnOf(t, Now(script), fired[0], rest, u, d);
      AgainCons(t, fired[0], Of(fired[1..], u), d);
      assert [] + Of(fired[1..], u) == Of(fired[1..], u);
    }
  }

  /** One callback places for user u what u's own timer re-arms, if it was u's. */
  lemma TurnOf(t: nat, adds: seq<Req>, x: Timer, rest: seq<Placement>, u: Ud, d: nat)
    requires AvoidsReqs(adds, u)
    ensures Of(Due(AddsJournal(t, adds) + RearmJournal(t, x) + rest, d), u) ==
            (if x.ud == u then Due(RearmJournal(t, x), d) else []) + Of(Due(rest, d), u)
  {
    var a, re := AddsJournal(t, adds), RearmJournal(t, x);
    AddsOf(t, adds, u, d);
    DueConcat(a + re, rest, d);
    DueConcat(a, re, d);
    OfConcat(Due(a + re, d), Due(rest, d), u);
    OfConcat(Due(a, d), Due(re, d), u);
    RearmOf(t, x, u, d);
  }

  lemma RearmOf(t: nat, k: Timer, u: Ud, d: nat)
    ensures Of(Due(RearmJournal(t, k), d), u) == if k.ud == u then Due(RearmJournal(t, k), d) else []
  {
  }

  /** After a tick, u's timers due at d are those that were, with those re-armed for d. */
  lemma TickOf(w: Wheel, script: seq<seq<Req>>, u: Ud, d: nat)
    requires Quiet(w) && Avoids(TickOp(script), u) && d > w.Clock()
    ensures Tick(w, script).Ok()
    ensures Of(Line(w, d), u) == Of(Direct(w, d), u) + Of(Parked(w, d), u)
    ensures var again := Again(w.Clock(), Of(Line(w, w.Clock()), u), d);
            Of(Line(Tick(w, script), d), u) ==
              if d < w.Clock() + w.n then Of(Direct(w, d), u) + again + Of(Parked(w, d), u)
              else Of(Line(w, d), u) + again
  {
    var more := Due(Journal(w.Clock(), Line(w, w.Clock()), script), d);
    TickLine(w, script, d);
    JournalOf(w.Clock(), Line(w, w.Clock()), script, u, d);
    OfConcat(Direct(w, d), Parked(w, d), u);
    InsertOf(Direct(w, d), Parked(w, d), more, u);
  }

  lemma InsertOf(a: seq<Timer>, b: seq<Timer>, more: seq<Timer>, u: Ud)
    ensures Of(a + more + b, u) == Of(a, u) + Of(more, u) + Of(b, u)
    ensures Of(a + b + more, u) == Of(a, u) + Of(b, u) + Of(more, u)
  {
    OfConcat(a, more, u);
    OfConcat(a + more, b, u);
    OfConcat(a, b, u);
    OfConcat(a + b, more, u);
  }

  lemma OneOf(ks: seq<Timer>, v: Ud, u: Ud)
    requires |ks| <= 1 && (ks == [] || ks[0].ud == v)
    ensures Of(ks, u) == if v == u then ks else []
  {
  }

  lemma AddOf(w: Wheel, q: Req, u: Ud, d: nat)
    requires Quiet(w)
    ensures Add(w, q).Ok()
    ensures Of(Line(w, d), u) == Of(Direct(w, d), u) + Of(Parked(w, d), u)
    ensures var more := if d == w.Clock() + q.timeout && q.ud == u then [Timer(q.ud, q.timeout, q.repeat)] else [];
            Of(Line(Add(w, q), d), u) ==
              if d < w.Clock() + w.n then Of(Direct(w, d), u) + more + Of(Parked(w, d), u)
              else Of(Line(w, d), u) + more
  {
    hide Of, Add, Direct, Parked;
    var more := if d == w.Clock() + q.timeout then [Timer(q.ud, q.timeout, q.repeat)] else [];
    AddLine(w, q, d);
    OneOf(if d == w.Clock() + q.timeout then [Timer(q.ud, q.timeout, q.repeat)] else [], q.ud, u);
    OfConcat(Direct(w, d), Parked(w, d), u);
    InsertOf(Direct(w, d), Parked(w, d), more, u);
  }

  // ---- the schedule of one timer ---------------------------------------------------

  /** User u has exactly one timer in the wheel, k, and it is due at tick `due`. */
  ghost predicate Armed(w: Wheel, u: Ud, due: nat, k: Timer)
    requires w.Ok()
  {
    && due >= w.Clock() && k.ud == u
    && Of(Line(w, due), u) == [k]
    && (forall d: nat :: d >= w.Clock() && d != due ==> Of(Line(w, d), u) == [])
  }

  ghost predicate Absent(w: Wheel, u: Ud)
    requires w.Ok()
  {
    forall d: nat :: d >= w.Clock() ==> Of(Line(w, d), u) == []
  }

  /** Timer k after one more firing. */
  function Fired(k: Timer): Timer {
    k.(repeat := if k.repeat == 0 then 0 else k.repeat - 1)
  }

  lemma AddArms(w: Wheel, q: Req)
    requires Quiet(w) && Absent(w, q.ud)
    ensures Quiet(Add(w, q))
    ensures Armed(Add(w, q), q.ud, w.Clock() + q.timeout, Timer(q.ud, q.timeout, q.repeat))
  {
    DoQuiet(w, AddOp(q));
    forall d: nat | d >= w.Clock()
      ensures Of(Line(Add(w, q), d), q.ud) ==
              if d == w.Clock() + q.timeout then [Timer(q.ud, q.timeout, q.repeat)] else []
    {
      AddOf(w, q, q.ud, d);
    }
  }

  /** Operations for others leave u's timers alone, until they are due. */
  lemma StepKeeps(w: Wheel, op: Op, u: Ud, d: nat)
    requires Quiet(w) && Avoids(op, u) && d >= Do(w, op).Clock() && Do(w, op).Ok()
    requires op.TickOp? ==> d > w.Clock() && Of(Line(w, w.Clock()), u) == []
    ensures Of(Line(Do(w, op), d), u) == Of(Line(w, d), u)
  {
    hide Of, Line, Add, Tick;
    match op
    case AddOp(q) => AddOf(w, q, u, d);
    case TickOp(script) => TickOf(w, script, u, d);
  }

  /** The tick at which the timer is due: it is gone, or due one period later. */
  lemma TickRearms(w: Wheel, script: seq<seq<Req>>, u: Ud, k: Timer, d: nat)
    requires Quiet(w) && Avoids(TickOp(script), u) && d > w.Clock()
    requires Of(Line(w, w.Clock()), u) == [k] && Of(Line(w, d), u) == []
    ensures Tick(w, script).Ok()
    ensures Of(Line(Tick(w, script), d), u) ==
            if k.repeat != 1 && d == w.Clock() + AtLeastOne(k.timeout) then [Fired(k)] else []
  {
    TickOf(w, script, u, d);
    AgainOne(w.Clock(), k, d);
  }

  lemma AgainOne(t: nat, k: Timer, d: nat)
    ensures Again(t, [k], d) == if k.repeat != 1 && d == t + AtLeastOne(k.timeout) then [Fired(k)] else []
  {
    AgainCons(t, k, [], d);
  }

  // ---- the ticks at which a user is called back ------------------------------------

  /** One entry t for every callback of user u in fs. */
  function Hits(fs: seq<Firing>, u: Ud, t: nat): seq<nat> {
    if fs == [] then [] else (if fs[0].ud == u then [t] else []) + Hits(fs[1..], u, t)
  }

  /** The ticks at which user u is called back in a run. */
  ghost function FireTimes(w: Wheel, ops: seq<Op>, u: Ud): seq<nat>
    requires Quiet(w)
    decreases |ops|
  {
    DoAlways(w, ops);
    if ops == [] then [] else
    (if ops[0].TickOp? then Hits(TickFirings(w, ops[0].script), u, w.Clock()) else [])
    + FireTimes(Do(w, ops[0]), ops[1..], u)
  }

  /** The plain schedule: `due`, then every max(1, timeout) ticks, `repeat` times or for ever. */
  function Expected(due: nat, k: Timer, end: nat): seq<nat>
    decreases end - due
  {
    if due >= end then []
    else [due] + (if k.repeat == 1 then [] else Expected(due + AtLeastOne(k.timeout), Fired(k), end))
  }

  function Times(i: nat, p: nat): nat { i * p }

  lemma TimesMore(i: nat, p: nat)
    ensures Times(i + 1, p) == p + Times(i, p)
  {
  }

  ghost predicate Grid(e: seq<nat>, due: nat, p: nat, end: nat) {
    forall i :: 0 <= i < |e| ==> e[i] == due + Times(i, p) < end
  }

  lemma GridCons(rest: seq<nat>, due: nat, p: nat, end: nat)
    requires Grid(rest, due + p, p, end) && due < end
    ensures Grid([due] + rest, due, p, end)
  {
    var e := [due] + rest;
    forall i | 0 <= i < |e| ensures e[i] == due + Times(i, p) < end {
      if i > 0 {
        assert e[i] == rest[i - 1];
        TimesMore(i - 1, p);
      }
    }
  }

  /** The schedule in closed form. */
  ghost predicate IsSchedule(e: seq<nat>, due: nat, k: Timer, end: nat) {
    var p := AtLeastOne(k.timeout);
    && Grid(e, due, p, end)
    && (k.repeat > 0 ==> |e| <= k.repeat)
    && (k.repeat == 0 || |e| < k.repeat ==> due + Times(|e|, p) >= end)
  }

  lemma ScheduleCons(rest: seq<nat>, due: nat, k: Timer, end: nat)
    requires due < end
    requires if k.repeat == 1 then rest == [] else IsSchedule(rest, due + AtLeastOne(k.timeout), Fired(k), end)
    ensures IsSchedule([due] + rest, due, k, end)
  {
    hide Times, Grid;
    var p := AtLeastOne(k.timeout);
    GridEmpty(due + p, p, end);
    GridCons(rest, due, p, end);
    TimesMore(|rest|, p);
  }

  lemma ScheduleOver(due: nat, k: Timer, end: nat)
    requires due >= end
    ensures IsSchedule([], due, k, end)
  {
    GridEmpty(due, AtLeastOne(k.timeout), end);
  }

  /** The i-th firing is at due + i * max(1, timeout), and there are `repeat` of them, or as many as
      there is time for. */
  lemma {:induction false} ExpectedIs(due: nat, k: Timer, end: nat)
    ensures IsSchedule(Expected(due, k, end), due, k, end)
    decreases end - due
  {
    hide IsSchedule;
    if due >= end {
      ScheduleOver(due, k, end);
    } else if k.repeat == 1 {
      ScheduleCons([], due, k, end);
    } else {
      ExpectedIs(due + AtLeastOne(k.timeout), Fired(k), end);
      ScheduleCons(Expected(due + AtLeastOne(k.timeout), Fired(k), end), due, k, end);
    }
  }

  lemma GridEmpty(due: nat, p: nat, end: nat)
    ensures Grid([], due, p, end) && Times(0, p) == 0
  {
  }

  lemma {:induction false} HitsOf(fs: seq<Firing>, line: seq<Timer>, u: Ud, t: nat)
    requires |fs| == |line| && forall i :: 0 <= i < |fs| ==> fs[i].ud == line[i].ud
    ensures |Hits(fs, u, t)| == |Of(line, u)|
    ensures forall i :: 0 <= i < |Hits(fs, u, t)| ==> Hits(fs, u, t)[i] == t
  {
    if fs != [] {
      HitsOf(fs[1..], line[1..], u, t);
    }
  }

  lemma TickHits(w: Wheel, script: seq<seq<Req>>, u: Ud)
    requires Quiet(w)
    ensures Of(Line(w, w.Clock()), u) == [] ==> Hits(TickFirings(w, script), u, w.Clock()) == []
    ensures |Of(Line(w, w.Clock()), u)| == 1 ==> Hits(TickFirings(w, script), u, w.Clock()) == [w.Clock()]
  {
    TickFires(w, script);
    HitsOf(TickFirings(w, script), Line(w, w.Clock()), u, w.Clock());
  }

  lemma {:induction false} AbsentNeverFires(w: Wheel, ops: seq<Op>, u: Ud)
    requires Quiet(w) && Absent(w, u) && AvoidsAll(ops, u)
    ensures FireTimes(w, ops, u) == []
    decreases |ops|
  {
    if ops != [] {
      var w1 := Do(w, ops[0]);
      DoQuiet(w, ops[0]);
      forall d: nat | d >= w1.Clock() ensures Of(Line(w1, d), u) == [] {
        StepKeeps(w, ops[0], u, d);
      }
      if ops[0].TickOp? {
        TickHits(w, ops[0].script, u);
      }
      AbsentNeverFires(w1, ops[1..], u);
    }
  }

  /** One operation: the timer stays armed for the same tick, or has fired. */
  lemma ArmedStep(w: Wheel, op: Op, u: Ud, due: nat, k: Timer)
    requires Quiet(w) && Armed(w, u, due, k) && Avoids(op, u)
    ensures Quiet(Do(w, op))
    ensures op.AddOp? || due > w.Clock() ==> Armed(Do(w, op), u, due, k)
    ensures op.TickOp? && due == w.Clock() ==>
              if k.repeat == 1 then Absent(Do(w, op), u)
              else Armed(Do(w, op), u, due + AtLeastOne(k.timeout), Fired(k))
    ensures op.TickOp? ==> Hits(TickFirings(w, op.script), u, w.Clock()) == if due == w.Clock() then [due] else []
  {
    var w1 := Do(w, op);
    DoQuiet(w, op);
    if op.TickOp? {
      TickHits(w, op.script, u);
    }
    forall d: nat | d >= w1.Clock()
      ensures op.AddOp? || due > w.Clock() ==> Of(Line(w1, d), u) == Of(Line(w, d), u)
      ensures op.TickOp? && due == w.Clock() ==>
                Of(Line(w1, d), u) == if k.repeat != 1 && d == due + AtLeastOne(k.timeout) then [Fired(k)] else []
    {
      if op.TickOp? && due == w.Clock() {
        TickRearms(w, op.script, u, k, d);
      } else {
        StepKeeps(w, op, u, d);
      }
    }
  }

  /** The ticks at which the first operation calls u back. */
  function FirstHits(w: Wheel, op: Op, u: Ud): seq<nat>
    requires Quiet(w)
  {
    if op.TickOp? then Hits(TickFirings(w, op.script), u, w.Clock()) else []
  }

  lemma RunStep(w: Wheel, ops: seq<Op>, u: Ud)
    requires Quiet(w) && ops != []
    ensures Quiet(Do(w, ops[0])) && Run(w, ops) == Run(Do(w, ops[0]), ops[1..])
    ensures FireTimes(w, ops, u) == FirstHits(w, ops[0], u) + FireTimes(Do(w, ops[0]), ops[1..], u)
  {
    DoQuiet(w, ops[0]);
  }

  lemma ArmedFacts(w: Wheel, op: Op, u: Ud, due: nat, k: Timer)
    requires Quiet(w) && Armed(w, u, due, k) && Avoids(op, u)
    ensures due >= w.Clock()
    ensures FirstHits(w, op, u) == if op.TickOp? && due == w.Clock() then [due] else []
  {
    ArmedStep(w, op, u, due, k);
  }

  lemma ExpectedStep(due: nat, k: Timer, end: nat)
    requires due < end
    ensures Expected(due, k, end) ==
            [due] + (if k.repeat == 1 then [] else Expected(due + AtLeastOne(k.timeout), Fired(k), end))
  {
  }

  lemma QuietOk(w: Wheel)
    requires Quiet(w)
    ensures w.Ok()
  {
  }

  lemma AvoidsStep(ops: seq<Op>, u: Ud)
    requires AvoidsAll(ops, u)
    ensures ops != [] ==> Avoids(ops[0], u) && AvoidsAll(ops[1..], u)
  {
  }

  lemma ScheduleDone(w: Wheel, u: Ud, due: nat, k: Timer)
    requires Quiet(w) && Armed(w, u, due, k)
    ensures FireTimes(w, [], u) == Expected(due, k, Run(w, []).Clock())
  {
  }

  /** The main result: an armed timer fires exactly on the plain schedule, whatever other timers
      are added meanwhile, between the ticks or by callbacks, over any number of revolutions. */
  lemma {:induction false} FiresOnSchedule(w: Wheel, ops: seq<Op>, u: Ud, due: nat, k: Timer)
    requires Quiet(w) && Armed(w, u, due, k) && AvoidsAll(ops, u)
    ensures FireTimes(w, ops, u) == Expected(due, k, Run(w, ops).Clock())
    decreases |ops|
  {
    hide *;
    AvoidsStep(ops, u);
    QuietOk(w);
    if ops == [] {
      ScheduleDone(w, u, due, k);
    } else {
      var op, w1, rest := ops[0], Do(w, ops[0]), ops[1..];
      RunStep(w, ops, u);
      ArmedFacts(w, op, u, due, k);
      ArmedStep(w, op, u, due, k);
      DoQuiet(w, op);
      if op.AddOp? || due > w.Clock() {
        FiresOnSchedule(w1, rest, u, due, k);
        assert [] + FireTimes(w1, rest, u) == FireTimes(w1, rest, u);
      } else {
        ExpectedStep(due, k, Run(w1, rest).Clock());
        if k.repeat == 1 {
          AbsentNeverFires(w1, rest, u);
        } else {
          FiresOnSchedule(w1, rest, u, due + AtLeastOne(k.timeout), Fired(k));
        }
      }
    }
  }

  /** A timer added between ticks with timeout p fires at T + p, then every max(1, p) ticks. */
  lemma AddedTimerFires(w: Wheel, q: Req, ops: seq<Op>)
    requires Quiet(w) && Absent(w, q.ud) && AvoidsAll(ops, q.ud)
    ensures Quiet(Add(w, q))
    ensures FireTimes(Add(w, q), ops, q.ud) ==
            Expected(w.Clock() + q.timeout, Timer(q.ud, q.timeout, q.repeat), Run(Add(w, q), ops).Clock())
  {
    AddArms(w, q);
    FiresOnSchedule(Add(w, q), ops, q.ud, w.Clock() + q.timeout, Timer(q.ud, q.timeout, q.repeat));
  }

  // ---- timers added by callbacks ---------------------------------------------------

  /** Everything the first n callbacks add. */
  function Reqs(n: nat, script: seq<seq<Req>>): seq<Req> {
    if n == 0 then [] else Now(script) + Reqs(n - 1, Later(script))
  }

  function ReqsOf(qs: seq<Req>, u: Ud): seq<Req> {
    if qs == [] then [] else (if qs[0].ud == u then [qs[0]] else []) + ReqsOf(qs[1..], u)
  }

  lemma {:induction false} ReqsConcat(a: seq<Req>, b: seq<Req>, u: Ud)
    ensures ReqsOf(a + b, u) == ReqsOf(a, u) + ReqsOf(b, u)
  {
    if a == [] {
      assert a + b == b;
    } else {
      assert (a + b)[1..] == a[1..] + b;
      ReqsConcat(a[1..], b, u);
      Assoc(if a[0].ud == u then [a[0]] else [], ReqsOf(a[1..], u), ReqsOf(b, u));
    }
  }

  lemma AddsConcat(t: nat, a: seq<Req>, b: seq<Req>)
    ensures AddsJournal(t, a + b) == AddsJournal(t, a) + AddsJournal(t, b)
  {
  }

  lemma {:induction false} AddsOfUser(t: nat, qs: seq<Req>, u: Ud, d: nat)
    ensures Of(Due(AddsJournal(t, qs), d), u) == Due(AddsJournal(t, ReqsOf(qs, u)), d)
  {
    if qs != [] {
      var first := if qs[0].ud == u then [qs[0]] else [];
      AddsOfUser(t, qs[1..], u, d);
      assert qs == [qs[0]] + qs[1..];
      AddsConcat(t, [qs[0]], qs[1..]);
      DueConcat(AddsJournal(t, [qs[0]]), AddsJournal(t, qs[1..]), d);
      OfConcat(Due(AddsJournal(t, [qs[0]]), d), Due(AddsJournal(t, qs[1..]), d), u);
      AddsConcat(t, first, ReqsOf(qs[1..], u));
      DueConcat(AddsJournal(t, first), AddsJournal(t, ReqsOf(qs[1..], u)), d);
    }
  }

  lemma TurnOfAdds(t: nat, adds: seq<Req>, x: Timer, rest: seq<Placement>, later: seq<Req>, u: Ud, d: nat)
    requires x.ud != u && Of(Due(rest, d), u) == Due(AddsJournal(t, ReqsOf(later, u)), d)
    ensures Of(Due(AddsJournal(t, adds) + RearmJournal(t, x) + rest, d), u) ==
            Due(AddsJournal(t, ReqsOf(adds + later, u)), d)
  {
    var a, re := AddsJournal(t, adds), RearmJournal(t, x);
    RearmOf(t, x, u, d);
    hide *;
    DueConcat(a + re, rest, d);
    DueConcat(a, re, d);
    InsertOf(Due(a, d), Due(rest, d), Due(re, d), u);
    AddsOfUser(t, adds, u, d);
    ReqsConcat(adds, later, u);
    AddsConcat(t, ReqsOf(adds, u), ReqsOf(later, u));
    DueConcat(AddsJournal(t, ReqsOf(adds, u)), AddsJournal(t, ReqsOf(later, u)), d);
  }

  /** A tick that fires none of u's timers places for u what the callbacks add for u. */
  lemma {:induction false} JournalOfAdds(t: nat, fired: seq<Timer>, script: seq<seq<Req>>, u: Ud, d: nat)
    requires Of(fired, u) == []
    ensures Of(Due(Journal(t, fired, script), d), u) == Due(AddsJournal(t, ReqsOf(Reqs(|fired|, script), u)), d)
    decreases |fired|
  {
    if fired != [] {
      JournalOfAdds(t, fired[1..], Later(script), u, d);
      var rest, later := Journal(t, fired[1..], Later(script)), Reqs(|fired| - 1, Later(script));
      TurnOfAdds(t, Now(script), fired[0], rest, later, u, d);
    }
  }

  lemma CallbackArmsAt(w: Wheel, script: seq<seq<Req>>, q: Req, d: nat)
    requires Quiet(w) && Of(Line(w, d), q.ud) == [] && d > w.Clock()
    requires ReqsOf(Reqs(|Line(w, w.Clock())|, script), q.ud) == [q] && Of(Line(w, w.Clock()), q.ud) == []
    ensures Tick(w, script).Ok()
    ensures Of(Line(Tick(w, script), d), q.ud) == Due(AddsJournal(w.Clock(), [q]), d)
  {
    hide Of, Direct, Parked, Tick, Reqs, ReqsOf, Journal, AddsJournal, Due;
    var u, t := q.ud, w.Clock();
    var more := Due(Journal(t, Line(w, t), script), d);
    TickLine(w, script, d);
    JournalOfAdds(t, Line(w, t), script, u, d);
    OfConcat(Direct(w, d), Parked(w, d), u);
    InsertOf(Direct(w, d), Parked(w, d), more, u);
  }

  lemma OneAdd(t: nat, q: Req, d: nat)
    ensures Due(AddsJournal(t, [q]), d) ==
            if d == t + AtLeastOne(q.timeout) then [Timer(q.ud, q.timeout, q.repeat)] else []
  {
  }

  /** A timer added by a callback of tick T with timeout p is due at T + max(1, p). */
  lemma CallbackArms(w: Wheel, script: seq<seq<Req>>, q: Req)
    requires Quiet(w) && Absent(w, q.ud)
    requires ReqsOf(Reqs(|Line(w, w.Clock())|, script), q.ud) == [q]
    ensures Quiet(Tick(w, script))
    ensures Armed(Tick(w, script), q.ud, w.Clock() + AtLeastOne(q.timeout), Timer(q.ud, q.timeout, q.repeat))
  {
    hide Of, Line, Tick, Reqs, ReqsOf, AddsJournal, Due;
    DoQuiet(w, TickOp(script));
    forall d: nat | d > w.Clock()
      ensures Of(Line(Tick(w, script), d), q.ud) ==
              if d == w.Clock() + AtLeastOne(q.timeout) then [Timer(q.ud, q.timeout, q.repeat)] else []
    {
      CallbackArmsAt(w, script, q, d);
      OneAdd(w.Clock(), q, d);
    }
  }

  // ---- the order of firing ---------------------------------------------------------

  /** Line a is line b with some timers left out; `at` says where its timers are in b. */
  ghost predicate Embeds(a: seq<Timer>, b: seq<Timer>, at: seq<nat>) {
    && |at| == |a|
    && (forall i :: 0 <= i < |a| ==> at[i] < |b| && b[at[i]] == a[i])
    && (forall i, j :: 0 <= i < j < |at| ==> at[i] < at[j])
  }

  ghost predicate InOrder(a: seq<Timer>, b: seq<Timer>) {
    exists at: seq<nat> :: Embeds(a, b, at)
  }

  lemma InsertInOrder(a: seq<Timer>, more: seq<Timer>, b: seq<Timer>)
    ensures InOrder(a + b, a + more + b)
  {
    var at: seq<nat> := seq(|a + b|, i requires 0 <= i => if i < |a| then i else i + |more|);
    assert Embeds(a + b, a + more + b, at);
  }

  lemma InOrderTransitive(a: seq<Timer>, b: seq<Timer>, c: seq<Timer>)
    requires InOrder(a, b) && InOrder(b, c)
    ensures InOrder(a, c)
  {
    var f: seq<nat> :| Embeds(a, b, f);
    var g: seq<nat> :| Embeds(b, c, g);
    var h: seq<nat> := seq(|a|, i requires 0 <= i < |a| => g[f[i]]);
    assert Embeds(a, c, h);
  }

  lemma InsertedInOrder(a: seq<Timer>, b: seq<Timer>, more: seq<Timer>, r: seq<Timer>)
    requires r == a + more + b || r == a + b + more
    ensures InOrder(a + b, r)
  {
    InsertInOrder(a, more, b);
    InsertInOrder(a + b, more, []);
    assert a + b + [] == a + b && a + b + more + [] == a + b + more;
  }

  lemma StepInOrder(w: Wheel, op: Op, d: nat)
    requires Quiet(w) && Do(w, op).Ok() && d >= Do(w, op).Clock() && (op.TickOp? ==> d > w.Clock())
    ensures InOrder(Line(w, d), Line(Do(w, op), d))
  {
    match op
    case AddOp(q) =>
      AddLine(w, q, d);
      InsertedInOrder(Direct(w, d), Parked(w, d),
                      if d == w.Clock() + q.timeout then [Timer(q.ud, q.timeout, q.repeat)] else [],
                      Line(Add(w, q), d));
    case TickOp(script) =>
      TickLine(w, script, d);
      InsertedInOrder(Direct(w, d), Parked(w, d),
                      Due(Journal(w.Clock(), Line(w, w.Clock()), script), d), Line(Tick(w, script), d));
  }

  /** Timers due at the same tick are never reordered, over any number of cascades. */
  lemma {:induction false} RunInOrder(w: Wheel, ops: seq<Op>, d: nat)
    requires Quiet(w) && d >= Run(w, ops).Clock()
    ensures InOrder(Line(w, d), Line(Run(w, ops), d))
    decreases |ops|
  {
    if ops == [] {
      InsertInOrder(Line(w, d), [], []);
      assert Line(w, d) + [] + [] == Line(w, d) && Line(w, d) + [] == Line(w, d);
    } else {
      DoQuiet(w, ops[0]);
      StepInOrder(w, ops[0], d);
      RunInOrder(Do(w, ops[0]), ops[1..], d);
      InOrderTransitive(Line(w, d), Line(Do(w, ops[0]), d), Line(Run(w, ops), d));
    }
  }

  /** The line-up of tick d right after a timer due at d was added. */
  function LineWith(w: Wheel, q: Req): seq<Timer>
    requires w.Ok()
  {
    var d, k := w.Clock() + q.timeout, Timer(q.ud, q.timeout, q.repeat);
    if q.timeout < w.n then Direct(w, d) + [k] + Parked(w, d) else Line(w, d) + [k]
  }

  lemma AddLineWith(w: Wheel, q: Req)
    requires Quiet(w)
    ensures Quiet(Add(w, q)) && Line(Add(w, q), w.Clock() + q.timeout) == LineWith(w, q)
  {
    hide Add, Direct, Parked;
    AddLine(w, q, w.Clock() + q.timeout);
  }

  /** A timer that is parked fires after all that were then due at its tick; one that goes
      straight to its slot fires after those on the slot and before those still parked. */
  lemma FiringOrder(w: Wheel, q: Req, w1: Wheel, ops: seq<Op>, d: nat)
    requires Quiet(w) && w1 == Add(w, q) && d == w.Clock() + q.timeout
    requires Quiet(w1) && Run(w1, ops).Clock() == d
    ensures InOrder(LineWith(w, q), Line(Run(w1, ops), d))
  {
    hide *;
    AddLineWith(w, q);
    RunInOrder(w1, ops, d);
  }

  /** The line-up of a later tick d right after a tick: what its callbacks add and what fires again is
      placed in the order of the calls, the adds of a callback before its own timer. */
  function LineAfter(w: Wheel, script: seq<seq<Req>>, d: nat): seq<Timer>
    requires w.Ok()
  {
    var more := Due(Journal(w.Clock(), Line(w, w.Clock()), script), d);
    if d < w.Clock() + w.n then Direct(w, d) + more + Parked(w, d) else Line(w, d) + more
  }

  lemma TickLineAfter(w: Wheel, script: seq<seq<Req>>, d: nat)
    requires Quiet(w) && d > w.Clock()
    ensures Quiet(Tick(w, script)) && Line(Tick(w, script), d) == LineAfter(w, script, d)
  {
    hide Tick, Direct, Parked, Due, Journal;
    TickLine(w, script, d);
    TickIdle(w, script);
  }

  /** The same for timers added or armed again in a tick: they keep that place until they fire. */
  lemma TickFiringOrder(w: Wheel, script: seq<seq<Req>>, w1: Wheel, ops: seq<Op>, d: nat)
    requires Quiet(w) && w1 == Tick(w, script) && d > w.Clock()
    requires Quiet(w1) && Run(w1, ops).Clock() == d
    ensures InOrder(LineAfter(w, script, d), Line(Run(w1, ops), d))
  {
    hide *;
    TickLineAfter(w, script, d);
    RunInOrder(w1, ops, d);
  }
}
