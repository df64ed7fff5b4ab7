/** What a round of common/somgr/somgr.c does to the sockets: the turns of its loops, and the events. */
module SoTurns {
  import opened Basics
  import opened LuaValues
  import opened Sockets
  import opened SoUtil

  /** How the service of an event ends: as it should, or with a failing assert, or at a null socket. */
  datatype Outcome = Served | StaleFails | AcceptFails | NullSocket

  /** An event for output on a connection that has been made bad since it was reported. */
  predicate Stale(so: So, ev: Event) {
    so.Connected() && so.bad && ev.output && !ev.input && !ev.hangup
  }

  /** The capacity of the read buffer when read is called: it has grown if it was full (somgr.c:227-233). */
  function ReadCap(so: So, memory: bool): nat {
    if |so.rbuf| == so.rcap && memory then Grown(so.rcap, if so.rcap == 0 then 1024 else so.rcap).GetOr(so.rcap)
    else so.rcap
  }

  /** There is room to read into. */
  predicate HasRoom(so: So, memory: bool) { |so.rbuf| < ReadCap(so, memory) }

  /** The read buffer grows to 2048 bytes first and then to a little more than twice as much, below 2^32. */
  lemma ReadCapIs(so: So, memory: bool)
    requires so.Capacities()
    ensures ReadCap(so, memory) ==
            if |so.rbuf| < so.rcap || !memory then so.rcap
            else if so.rcap == 0 then 2048
            else if 2 * so.rcap + 1024 < 0x1_0000_0000 then 2 * so.rcap + 1024 else so.rcap
  {
    GrownTwice(so.rcap);
    assert Grown(0, 1024) == Some(2048);
    hide Grown;
  }

  /** The read of this event gives something. */
  predicate Gives(so: So, memory: bool, answer: Read) {
    HasRoom(so, memory) && answer.Got? && answer.data != []
  }

  /** What it gives: the bytes of the answer that there is room for. */
  function Delivered(so: So, ev: Event): Bytes
    requires Gives(so, ev.memory, ev.answer)
  {
    var room := ReadCap(so, ev.memory) - |so.rbuf|;
    if |ev.answer.data| <= room then ev.answer.data else ev.answer.data[..room]
  }

  /** The read gives something, and the callback uses up no more than there is. */
  predicate ReadsOn(so: So, ev: Event) {
    Gives(so, ev.memory, ev.answer) && 0 <= ev.pn <= |so.rbuf + Delivered(so, ev)|
  }

  /** Input is neither lost nor out of order: what the callback is shown is what was left and then what
      was read, and what it uses up are the first bytes of that. */
  ghost predicate ReadIn(a: So, b: So, ev: Event) {
    && b.rcap == ReadCap(a, ev.memory)
    && if Gives(a, ev.memory, ev.answer) then
         var all := a.rbuf + Delivered(a, ev);
         && b.received == a.received + Delivered(a, ev)
         && if 0 <= ev.pn <= |all| then b.rbuf == all[ev.pn..] && b.consumed == a.consumed + all[..ev.pn]
            else b.rbuf == all && b.consumed == a.consumed
       else b.rbuf == a.rbuf && b.received == a.received && b.consumed == a.consumed
  }

  ghost predicate OnlyRead(a: So, b: So) {
    b == a.(rbuf := b.rbuf, rcap := b.rcap, received := b.received, consumed := b.consumed)
  }

  /** What a callback that returns pn leaves in the read buffer. */
  function Used(a: So, pn: int): So {
    if 0 <= pn <= |a.rbuf| then a.(rbuf := a.rbuf[pn..], consumed := a.consumed + a.rbuf[..pn]) else a
  }

  /** Sending everything is reported to epoll, which may refuse (somgr.c:264-266). */
  predicate NotMuted(a: So, ev: Event) { Sent(a, ev.script) == |a.wbuf| && !ev.modOk }

  /** What an event for input or output makes of a connection that its own callback leaves alone. */
  ghost predicate OwnRw(a: So, b: So, ev: Event) {
    var good := !a.bad && (ev.input ==> ReadsOn(a, ev));
    var n := if good && ev.output then Sent(a, ev.script) else 0;
    && b == a.(rbuf := b.rbuf, rcap := b.rcap, received := b.received, consumed := b.consumed, given := b.given,
               wbuf := b.wbuf, bad := b.bad, writable := b.writable, interest := b.interest, curq := b.curq)
    && (if ev.input then ReadIn(a, b, ev) else b == a.(given := b.given, wbuf := b.wbuf, bad := b.bad,
                                                       writable := b.writable, interest := b.interest, curq := b.curq))
    && b.given == a.given + a.wbuf[..n] && b.wbuf == a.wbuf[n..]
    && (b.bad <==> !good || (ev.output && (Fails(a, ev.script) || NotMuted(a, ev))))
    && (!b.bad && ev.output ==> b.writable == (b.wbuf == []) && b.interest == if b.wbuf == [] then Input else Both)
    && (!b.bad && !ev.output ==> b.writable == a.writable && b.interest == a.interest && b.curq == a.curq)
  }

  lemma UsedIs(a: So, pn: int)
    ensures Used(a, pn) ==
            if 0 <= pn <= |a.rbuf| then a.(rbuf := a.rbuf[pn..], consumed := a.consumed + a.rbuf[..pn]) else a
  {
  }

  lemma NothingRead(a: So, b: So, ev: Event)
    requires !Gives(a, ev.memory, ev.answer) && b == a.(rcap := ReadCap(a, ev.memory))
    ensures ReadIn(a, b, ev) && OnlyRead(a, b) && !ReadsOn(a, ev)
  {
    hide Gives, ReadCap;
  }

  /** What is read and what of it is used up, whatever the callback does besides. */
  lemma CallbackRead(a: So, m: So, w: So, b: So, ev: Event)
    requires Gives(a, ev.memory, ev.answer) && Evolves(m, w) && b == Used(w, ev.pn)
    requires m == a.(rbuf := a.rbuf + Delivered(a, ev), rcap := ReadCap(a, ev.memory),
                     received := a.received + Delivered(a, ev))
    ensures ReadIn(a, b, ev) && (ReadsOn(a, ev) <==> 0 <= ev.pn <= |w.rbuf|)
    ensures w == m ==> OnlyRead(a, b)
  {
    hide Gives, ReadCap;
  }

  /** The read part fails. */
  lemma ReadFailed(a: So, m: So, b: So, ev: Event)
    requires a.Connected() && ev.input && OnlyRead(a, m) && ReadIn(a, m, ev) && !(ReadsOn(a, ev) && !m.bad)
    requires b == Removed(m)
    ensures OwnRw(a, b, ev)
  {
    hide ReadsOn, Fails;
    assert a.given + a.wbuf[..0] == a.given && a.wbuf[0..] == a.wbuf;
  }

  lemma JustRead(a: So, b: So, ev: Event)
    requires !a.bad && ev.input && !ev.output && OnlyRead(a, b) && ReadIn(a, b, ev) && ReadsOn(a, ev)
    ensures OwnRw(a, b, ev)
  {
    hide ReadsOn, Fails;
    assert a.given + a.wbuf[..0] == a.given && a.wbuf[0..] == a.wbuf;
  }

  lemma ReadAndWrote(a: So, m: So, b: So, ev: Event)
    requires if ev.input then OnlyRead(a, m) && ReadIn(a, m, ev) && ReadsOn(a, ev) else m == a
    requires !m.bad && ev.output && GaveAway(m, b, ev.script, NotMuted(m, ev))
    ensures OwnRw(a, b, ev)
  {
    hide ReadsOn, Offered, EndsBroken;
  }

  lemma StillRead(a: So, m: So, b: So, ev: Event)
    requires ReadIn(a, m, ev) && (b == Removed(m) || GaveAway(m, b, ev.script, NotMuted(m, ev)))
    ensures ReadIn(a, b, ev)
  {
    hide Gives, Sent, Fails;
  }

  /** The sockets a when an event of socket i is served, and s when its callback is called. */
  ghost predicate AtCallback(a: seq<So>, s: seq<So>, i: nat, ev: Event) {
    && 0 < i < |a| <= |s|
    && if a[i].listen then s[i] == a[i] && exists n :: Enters(a, s, n, READER)
       else if a[i].connecting then s == a[i := a[i].(connecting := false, writable := true, interest := Input)]
       else
         && Gives(a[i], ev.memory, ev.answer)
         && s == a[i := a[i].(rbuf := a[i].rbuf + Delivered(a[i], ev), rcap := ReadCap(a[i], ev.memory),
                              received := a[i].received + Delivered(a[i], ev))]
  }

  /** The sockets s when the callback has returned, and b when the event has been served. */
  ghost predicate Finished(s: seq<So>, b: seq<So>, i: nat, ev: Event, rw: bool) {
    && 0 < i < |b| == |s| && b == s[i := b[i]]
    && if !rw then b[i] == s[i]
       else
         var so := Used(s[i], ev.pn);
         if !(0 <= ev.pn <= |s[i].rbuf|) || so.bad then b[i] == Removed(so)
         else if ev.output then GaveAway(so, b[i], ev.script, NotMuted(so, ev))
         else b[i] == so
  }

  /** All that serving an event of socket i does, step by step if it calls a callback. */
  ghost predicate Exactly(a: seq<So>, b: seq<So>, i: nat, ev: Event, steps: seq<seq<So>>) {
    && 0 < i < |a|
    && if CallsBack(a[i], ev) then
         && Ran(steps, ev.ops, |ev.ops|) && AtCallback(a, steps[0], i, ev)
         && Finished(steps[|ev.ops|], b, i, ev, a[i].Connected())
       else
         && |b| == |a| && b == a[i := b[i]]
         && if ev.hangup || (a[i].connecting && !a[i].listen) then b[i] == Removed(a[i])
            else if a[i].listen then b[i] == a[i]
            else OwnRw(a[i], b[i], ev)
  }

  /** Serving this event calls a callback: that of accept, of connect, or of read. */
  predicate CallsBack(so: So, ev: Event) {
    && !ev.hangup
    && if so.listen then ev.accept == Added
       else if so.connecting then !so.bad && !ev.error && ev.modOk
       else ev.input && Gives(so, ev.memory, ev.answer)
  }

  /** accept ends at the null socket (somgr.c:276-309). */
  predicate AcceptNull(ev: Event, p: Pool) {
    match ev.accept
    case NotNow => false
    case NoSocket => true
    case NotAdded => Opened(p, false) == None
    case Added => Opened(p, true) == None || PoolAfter(Opened(p, true).value, ev.ops, |ev.ops|) == None
  }

  /** Exactly then serving the event comes to a null socket: accept ends so, or a callback opens more
      sockets than the pool has. */
  predicate ComesToNull(so: So, ev: Event, p: Pool) {
    if so.listen && !ev.hangup then AcceptNull(ev, p)
    else CallsBack(so, ev) && PoolAfter(p, ev.ops, |ev.ops|) == None
  }

  /** Exactly then the assert of somgr.c:473 fails: epoll refuses the socket that was accepted. */
  predicate RefusesAccepted(so: So, ev: Event, p: Pool) {
    so.listen && !ev.hangup && ev.accept == NotAdded && Opened(p, false).Some?
  }

  /** Whatever the pool: a null socket needs an accept that got somewhere or a callback that opens. */
  predicate CanBeNull(so: So, ev: Event) {
    !ev.hangup && if so.listen then ev.accept != NotNow else CallsBack(so, ev) && !NoOpens(ev.ops)
  }

  lemma NullCause(so: So, ev: Event, p: Pool)
    requires ComesToNull(so, ev, p)
    ensures CanBeNull(so, ev)
  {
    if NoOpens(ev.ops) {
      SamePool(p, ev.ops, |ev.ops|);
    }
  }

  /** Whatever the pool: such an event is not served to its end. */
  predicate Breaks(so: So, ev: Event) {
    Stale(so, ev) || (so.listen && !ev.hangup && (ev.accept == NoSocket || ev.accept == NotAdded))
  }

  /** The turn of an event that calls no callback of accept or connect. */
  lemma QuietTurn(a: seq<So>, b: seq<So>, i: nat, ev: Event)
    requires 0 < i < |a| == |b| && !CallsBack(a[i], ev)
    requires if ev.hangup || (a[i].connecting && !a[i].listen) then b == a[i := Removed(a[i])]
             else a[i].listen && b == a
    ensures Exactly(a, b, i, ev, [])
  {
    hide CallsBack, Removed;
  }

  /** A turn whose callback runs from mid to b and is followed by nothing. */
  lemma CalledTurn(a: seq<So>, b: seq<So>, i: nat, ev: Event, steps: seq<seq<So>>)
    requires 0 < i < |a| && CallsBack(a[i], ev) && (a[i].listen || a[i].connecting) && i < |b|
    requires Ran(steps, ev.ops, |ev.ops|) && AtCallback(a, steps[0], i, ev) && steps[|ev.ops|] == b
    ensures Exactly(a, b, i, ev, steps)
  {
    hide CallsBack, Ran, AtCallback;
  }

  /** What serving an event of socket i does to the other sockets in use. */
  ghost predicate Others(a: seq<So>, b: seq<So>, i: nat, ev: Event) {
    && 0 < i < |a| <= |b|
    && (forall j :: 0 < j < |a| && j != i && !a[j].free ==> Evolves(a[j], b[j]))
    && (forall j :: 0 < j < |a| && j != i && !a[j].free && !Names(ev.ops, |ev.ops|, j) ==> b[j] == a[j])
  }

  /** Those that its callback kicks are bad. */
  ghost predicate Kicked(a: seq<So>, b: seq<So>, i: nat, ev: Event) {
    && 0 < i < |a| <= |b|
    && (CallsBack(a[i], ev) ==>
          forall j :: 0 < j < |a| && j != i && !a[j].free && Kicks(ev.ops, |ev.ops|, j) ==> b[j].bad)
  }

  ghost predicate Turn(a: seq<So>, b: seq<So>, i: nat, ev: Event) {
    Others(a, b, i, ev) && Kicked(a, b, i, ev) && exists steps :: Exactly(a, b, i, ev, steps)
  }

  lemma FewerNamed(ops: seq<Op>, n: nat)
    requires n <= |ops|
    ensures forall j :: Names(ops, n, j) ==> Names(ops, |ops|, j)
  {
  }

  lemma NotNamed(a: seq<So>, b: seq<So>, ops: seq<Op>, n: nat, i: nat)
    requires n <= |ops| && Moved(a, b, ops, n) && i < |a| && !a[i].free
    ensures |a| <= |b| && Evolves(a[i], b[i]) && (!Names(ops, |ops|, i) ==> b[i] == a[i])
  {
    FewerNamed(ops, n);
  }

  /** A callback that runs from mid to b, in a turn from a to c. */
  lemma MovedOthers(a: seq<So>, mid: seq<So>, b: seq<So>, c: seq<So>, i: nat, ev: Event, n: nat)
    requires 0 < i < |a| <= |mid| && n <= |ev.ops| && Moved(mid, b, ev.ops, n)
    requires forall j :: 0 < j < |a| && j != i && !a[j].free ==> mid[j] == a[j]
    requires |c| == |b| && c == b[i := c[i]]
    ensures Others(a, c, i, ev) && (n == |ev.ops| ==> Kicked(a, c, i, ev))
  {
    FewerNamed(ev.ops, n);
  }

  lemma NotCalledBack(a: seq<So>, b: seq<So>, i: nat, ev: Event)
    requires 0 < i < |a| == |b| && b == a[i := b[i]] && !CallsBack(a[i], ev)
    ensures Others(a, b, i, ev) && Kicked(a, b, i, ev)
  {
    SameEvolves(a);
    hide CallsBack, Evolves, Names;
  }

  lemma OthersBut(a: seq<So>, b: seq<So>, c: seq<So>, i: nat, ev: Event)
    requires Others(a, b, i, ev) && Kicked(a, b, i, ev) && |c| == |b| && c == b[i := c[i]]
    ensures Others(a, c, i, ev) && Kicked(a, c, i, ev)
  {
  }

  lemma Reaped(a: seq<So>, b: seq<So>, c: seq<So>)
    requires |a| == |b| == |c| && (forall j :: 0 < j < |a| ==> b[j] == UNUSED || Evolves(a[j], b[j]))
    requires forall j :: 0 < j < |a| && !b[j].free ==> c[j] == UNUSED || Evolves(b[j], c[j])
    requires forall j :: 0 < j < |a| && b[j].free ==> c[j] == b[j]
    ensures forall j :: 0 < j < |a| ==> c[j] == UNUSED || Evolves(a[j], c[j])
  {
    forall j | 0 < j < |a| ensures c[j] == UNUSED || Evolves(a[j], c[j]) {
      if !b[j].free && c[j] != UNUSED {
        EvolvesOn(a[j], b[j], c[j]);
      }
    }
  }

  /** Socket i was bad: its error callback is called, and then it is free. */
  ghost predicate ReapsBy(a: seq<So>, b: seq<So>, i: nat, ops: seq<Op>, steps: seq<seq<So>>) {
    && 0 < i < |a| && a[i].bad && Ran(steps, ops, |ops|) && steps[0] == a[i := a[i].(curq := NoQueue)]
    && i < |steps[|ops|]| && b == steps[|ops|][i := UNUSED]
  }

  ghost predicate Reaps(a: seq<So>, b: seq<So>, i: nat, ops: seq<Op>) {
    exists steps :: ReapsBy(a, b, i, ops, steps)
  }

  /** The turns of the first loop: the k-th socket that it takes off the queue gets the k-th callback. */
  ghost predicate Reapings(turns: seq<seq<So>>, callbacks: seq<seq<Op>>) {
    turns != [] && forall k :: 0 <= k < |turns| - 1 ==> ReapedOne(turns[k], turns[k + 1], OpsAt(callbacks, k))
  }

  ghost predicate ReapedOne(a: seq<So>, b: seq<So>, ops: seq<Op>) { exists i :: Reaps(a, b, i, ops) }

  lemma NoReapings(sos: seq<So>, callbacks: seq<seq<Op>>)
    ensures Reapings([sos], callbacks)
  {
  }

  lemma MoreReapings(turns: seq<seq<So>>, now: seq<So>, i: nat, callbacks: seq<seq<Op>>)
    requires Reapings(turns, callbacks) && Reaps(turns[|turns| - 1], now, i, OpsAt(callbacks, |turns| - 1))
    ensures Reapings(turns + [now], callbacks)
  {
    hide Reaps;
    var more := turns + [now];
    assert forall k :: 0 <= k < |turns| ==> more[k] == turns[k];
    assert ReapedOne(turns[|turns| - 1], now, OpsAt(callbacks, |turns| - 1));
  }

  /** What the k-th callback does. */
  function OpsAt(callbacks: seq<seq<Op>>, k: nat): seq<Op> {
    if k < |callbacks| then callbacks[k] else []
  }

  lemma OpsOf(callbacks: seq<seq<Op>>, k: nat)
    ensures (forall i :: 0 <= i < |callbacks| ==> NoOpens(callbacks[i])) ==> NoOpens(OpsAt(callbacks, k))
    ensures k >= |callbacks| ==> NoOpens(OpsAt(callbacks, k))
    ensures forall j: nat :: Unnamed(callbacks, j) ==> !Names(OpsAt(callbacks, k), |OpsAt(callbacks, k)|, j)
  {
  }

  /** No callback writes to or kicks j. */
  predicate Unnamed(callbacks: seq<seq<Op>>, j: nat) {
    forall k :: 0 <= k < |callbacks| ==> !Names(callbacks[k], |callbacks[k]|, j)
  }

  ghost predicate Turns(states: seq<seq<So>>, evs: seq<(nat, Event)>) {
    && 0 < |states| <= |evs| + 1
    && forall k :: 0 <= k < |states| - 1 ==>
         Turn(states[k], states[k + 1], evs[k].0, evs[k].1) && !Breaks(states[k][evs[k].0], evs[k].1)
  }

  /** How a turn ends that is not served to its end. */
  predicate BrokenOff(so: So, ev: Event, o: Outcome) {
    && (o == StaleFails <==> Stale(so, ev))
    && (o == AcceptFails ==> so.listen && !ev.hangup && ev.accept == NotAdded)
    && (o == NullSocket ==> CanBeNull(so, ev))
  }

  /** The turns made for the events evs.  The batch breaks off at a stale event exactly when the socket
      of an output-only event on a connection is bad at its turn. */
  ghost predicate Batch(states: seq<seq<So>>, evs: seq<(nat, Event)>, o: Outcome) {
    && Turns(states, evs) && AllDue(states[0], evs, 0)
    && (o == Served ==> |states| == |evs| + 1)
    && (o != Served ==> |states| <= |evs|)
    && (forall k :: 0 <= k < |states| && k < |evs| ==> evs[k].0 < |states[k]|)
    && (o == StaleFails <==> exists k :: 0 <= k < |states| && k < |evs| && Stale(states[k][evs[k].0], evs[k].1))
    && (o != Served ==> var k := |states| - 1; BrokenOff(states[k][evs[k].0], evs[k].1, o))
  }

  lemma NoTurns(sos: seq<So>, evs: seq<(nat, Event)>)
    ensures Turns([sos], evs)
  {
  }

  lemma NextDue(sos: seq<So>, evs: seq<(nat, Event)>, k: nat)
    requires k < |evs| && AllDue(sos, evs, k)
    ensures 0 < evs[k].0 < |sos| && Due(sos[evs[k].0], evs[k].1)
  {
  }

  lemma Before(states: seq<seq<So>>, evs: seq<(nat, Event)>)
    requires Turns(states, evs)
    ensures forall k :: 0 <= k < |states| - 1 ==> evs[k].0 < |states[k]| && !Stale(states[k][evs[k].0], evs[k].1)
  {
    forall k | 0 <= k < |states| - 1 ensures evs[k].0 < |states[k]| && !Stale(states[k][evs[k].0], evs[k].1) {
      assert Turn(states[k], states[k + 1], evs[k].0, evs[k].1);
    }
  }

  lemma BreaksOff(states: seq<seq<So>>, evs: seq<(nat, Event)>, o: Outcome)
    requires Turns(states, evs) && |states| <= |evs| && AllDue(states[0], evs, 0) && o != Served
    requires var k := |states| - 1; evs[k].0 < |states[k]| && BrokenOff(states[k][evs[k].0], evs[k].1, o)
    ensures Batch(states, evs, o)
  {
    Before(states, evs);
    hide Turn, Stale, Due, CanBeNull, Breaks;
    if o == StaleFails {
      assert Stale(states[|states| - 1][evs[|states| - 1].0], evs[|states| - 1].1);
    }
  }

  lemma Ends(states: seq<seq<So>>, evs: seq<(nat, Event)>)
    requires Turns(states, evs) && |states| == |evs| + 1 && AllDue(states[0], evs, 0)
    ensures Batch(states, evs, Served)
  {
    Before(states, evs);
    hide Turn, Stale, Due, BrokenOff, Breaks;
  }

  lemma MoreTurns(states: seq<seq<So>>, now: seq<So>, evs: seq<(nat, Event)>)
    requires Turns(states, evs) && |states| <= |evs|
    requires var k := |states| - 1; Turn(states[k], now, evs[k].0, evs[k].1) && !Breaks(states[k][evs[k].0], evs[k].1)
    ensures Turns(states + [now], evs)
  {
    var more := states + [now];
    assert forall k :: 0 <= k < |states| ==> more[k] == states[k];
  }

  lemma StillDue(was: seq<So>, now: seq<So>, evs: seq<(nat, Event)>, k: nat)
    requires k < |evs| && AllDue(was, evs, k) && Turn(was, now, evs[k].0, evs[k].1)
    ensures AllDue(now, evs, k + 1)
  {
    forall m | k + 1 <= m < |evs| ensures Due(now[evs[m].0], evs[m].1) {
      DueEvolves(was[evs[m].0], now[evs[m].0], evs[m].1);
    }
  }

  /** What epoll can report of a socket. */
  predicate Watched(so: So, ev: Event) {
    && so.interest != Nothing && (ev.hangup || ev.input || ev.output)
    && (ev.input ==> so.interest == Input || so.interest == Both)
    && (ev.output ==> so.interest == Output || so.interest == Both)
  }

  /** An event that has been reported and is waiting to be served. */
  ghost predicate Due(so: So, ev: Event) {
    && !so.free && (ev.hangup || ev.input || ev.output)
    && (so.connecting ==> !ev.input) && (so.Connected() && ev.output ==> !so.writable)
  }

  lemma DueEvolves(a: So, b: So, ev: Event)
    requires Due(a, ev) && Evolves(a, b)
    ensures Due(b, ev)
  {
  }

  /** The events that epoll_wait reports: watched for, and one for each socket. */
  function Reported(sos: seq<So>, wanted: seq<(nat, Event)>): seq<(nat, Event)> {
    if wanted == [] then [] else
    var i, ev, rest := wanted[0].0, wanted[0].1, Reported(sos, wanted[1..]);
    if 0 < i < |sos| && Watched(sos[i], ev) && (forall k :: 0 <= k < |rest| ==> rest[k].0 != i)
    then [wanted[0]] + rest else rest
  }

  /** What is reported is wanted and watched for. */
  lemma {:induction false} ReportedIs(sos: seq<So>, wanted: seq<(nat, Event)>, m: nat)
    requires m < |Reported(sos, wanted)|
    ensures var e := Reported(sos, wanted)[m]; e in wanted && 0 < e.0 < |sos| && Watched(sos[e.0], e.1)
  {
    hide Watched;
    var rest, all := Reported(sos, wanted[1..]), Reported(sos, wanted);
    if all == rest {
      ReportedIs(sos, wanted[1..], m);
    } else if m > 0 {
      assert all[m] == rest[m - 1];
      ReportedIs(sos, wanted[1..], m - 1);
    }
  }

  predicate About(evs: seq<(nat, Event)>, i: nat) { exists m :: 0 <= m < |evs| && evs[m].0 == i }

  /** And of each socket that something wanted is watched for, something is reported. */
  lemma {:induction false} ReportedAll(sos: seq<So>, wanted: seq<(nat, Event)>, k: nat)
    requires k < |wanted| && 0 < wanted[k].0 < |sos| && Watched(sos[wanted[k].0], wanted[k].1)
    ensures About(Reported(sos, wanted), wanted[k].0)
  {
    hide Watched;
    var rest, all := Reported(sos, wanted[1..]), Reported(sos, wanted);
    if k > 0 {
      assert wanted[k] == wanted[1..][k - 1];
      ReportedAll(sos, wanted[1..], k - 1);
      var m :| 0 <= m < |rest| && rest[m].0 == wanted[k].0;
      assert all[if all == rest then m else m + 1] == rest[m];
    } else if all != rest {
      assert all[0].0 == wanted[0].0;
    }
  }

  ghost predicate AllDue(sos: seq<So>, evs: seq<(nat, Event)>, from: nat) {
    && (forall m :: 0 <= m < |evs| ==> 0 < evs[m].0 < |sos|)
    && (forall m :: from <= m < |evs| ==> Due(sos[evs[m].0], evs[m].1))
    && (forall m, n :: 0 <= m < n < |evs| ==> evs[m].0 != evs[n].0)
  }

  ghost predicate NoneBad(sos: seq<So>, evs: seq<(nat, Event)>) {
    forall m :: 0 <= m < |evs| ==> 0 < evs[m].0 < |sos| && !sos[evs[m].0].bad
  }

  lemma AllDueNone(sos: seq<So>)
    ensures AllDue(sos, [], 0) && NoneBad(sos, [])
  {
  }

  lemma OneMoreDue(sos: seq<So>, e: (nat, Event), rest: seq<(nat, Event)>)
    requires AllDue(sos, rest, 0) && NoneBad(sos, rest) && 0 < e.0 < |sos| && Due(sos[e.0], e.1) && !sos[e.0].bad
    requires forall k :: 0 <= k < |rest| ==> rest[k].0 != e.0
    ensures AllDue(sos, [e] + rest, 0) && NoneBad(sos, [e] + rest)
  {
    var evs := [e] + rest;
    assert forall m :: 0 < m < |evs| ==> evs[m] == rest[m - 1];
  }

  lemma WatchedIsDue(so: So, ev: Event)
    requires so.Fine() && Watched(so, ev)
    ensures Due(so, ev) && !so.bad
  {
  }

  lemma {:induction false} ReportedDue(sos: seq<So>, wanted: seq<(nat, Event)>)
    requires forall i :: 0 < i < |sos| ==> sos[i].Fine()
    ensures AllDue(sos, Reported(sos, wanted), 0) && NoneBad(sos, Reported(sos, wanted))
  {
    hide So.Fine, Due, Watched, AllDue, NoneBad;
    if wanted == [] {
      AllDueNone(sos);
    } else {
      ReportedDue(sos, wanted[1..]);
      var e, rest := wanted[0], Reported(sos, wanted[1..]);
      if 0 < e.0 < |sos| && Watched(sos[e.0], e.1) && (forall k :: 0 <= k < |rest| ==> rest[k].0 != e.0) {
        assert Reported(sos, wanted) == [e] + rest;
        WatchedIsDue(sos[e.0], e.1);
        OneMoreDue(sos, e, rest);
      }
    }
  }
}
