/**
 The sockets of common/somgr/somgr.c and what is done to them one at a time: flushing, writing, kicking
 and opening.  The system calls answer as parameters say.  `SoUtil` has the queues and the buffers in
 place; here a queue is the sequence of the numbers of its sockets, and a buffer its contents and its
 capacity.
 */
module Sockets {
  import opened Basics
  import opened LuaValues
  import opened SoUtil

  /** so_t.curq (so_util.h:28) */
  datatype Queue = NoQueue | FreeQueue | BadQueue | WriteQueue

  /** What epoll watches a socket for, besides errors and hang-ups. */
  datatype Interest = Nothing | Input | Output | Both

  /** so_t (so_util.h:20-30), its flags one by one.  `given`, `accepted`, `received` and `consumed`
      are history: the bytes that write took, that somgr_write took, that read gave and that the
      read callback used up; so is `overrun`: somgr_write has returned 0 without taking its data. */
  datatype So = So(
    listen: bool, writable: bool, connecting: bool, bad: bool, free: bool,
    wbuf: Bytes, wcap: nat, rbuf: Bytes, rcap: nat, curq: Queue, interest: Interest,
    given: Bytes, accepted: Bytes, received: Bytes, consumed: Bytes, overrun: bool)
  {
    /** Neither listening nor on its way to a connection; perhaps removed. */
    predicate Connected() { !free && !listen && !connecting }

    /** Connected, and not removed. */
    predicate Live() { Connected() && !bad }

    ghost predicate Capacities() {
      |wbuf| <= wcap && |rbuf| <= rcap && Whole(wcap) && Whole(rcap)
    }

    /** What holds of a socket between two calls. */
    ghost predicate Fine() {
      && Capacities()
      && (free <==> curq == FreeQueue) && (bad <==> curq == BadQueue)
      && !(free && bad) && (bad ==> interest == Nothing) && (free ==> this == UNUSED)
      && (!free && !bad && (listen || connecting) ==> curq == NoQueue && wbuf == [] && rbuf == [])
      && (!free && !bad && connecting ==> !listen && !writable && interest == Output)
      && (!free && !bad && listen ==> interest == Input)
      && given + wbuf == accepted && consumed + rbuf == received
      && (Live() ==> Pending())
    }

    /** Buffered output is waiting for the next round or for the system, never for neither. */
    ghost predicate Pending() {
      && (writable ==> interest == Input && (curq == NoQueue || curq == WriteQueue))
      && (writable && wbuf != [] ==> curq == WriteQueue)
      && (writable && wbuf == [] && !overrun ==> curq == NoQueue)
      && (!writable ==> interest == Both && curq == NoQueue)
    }
  }

  /** A socket that has been reset (somgr.c:463, 517-528). */
  const RESET: So := So(false, false, false, false, false, [], 0, [], 0, NoQueue, Nothing, [], [], [], [], false)

  /** A socket that can be allocated. */
  const UNUSED: So := RESET.(free := true, curq := FreeQueue)

  /** What happens to a socket while others are served or the callbacks of others run. */
  ghost predicate Evolves(a: So, b: So) {
    && a.listen == b.listen && a.connecting == b.connecting && a.free == b.free && (a.bad ==> b.bad)
    && (b.writable ==> a.writable) && (!b.bad ==> (a.interest == b.interest || (a.Live() && b.interest == Both)))
    && a.given <= b.given && a.accepted <= b.accepted && a.rbuf == b.rbuf && a.rcap == b.rcap
    && a.received == b.received && a.consumed == b.consumed
  }

  lemma SameEvolves(a: seq<So>)
    ensures forall j :: 0 <= j < |a| ==> Evolves(a[j], a[j])
  {
  }

  lemma EvolvesOn(a: So, b: So, c: So)
    requires Evolves(a, b) && Evolves(b, c)
    ensures Evolves(a, c)
  {
  }

  /** What a call of write answers. */
  datatype Wrote = Took(n: nat) | Interrupted | WouldBlock | Broken

  /** The bytes that write takes by these answers until it blocks or fails; when they are over, it would
      block. */
  function Offered(script: seq<Wrote>): nat {
    if script == [] then 0 else
    match script[0]
    case Took(n) => if n == 0 then 0 else n + Offered(script[1..])
    case Interrupted => Offered(script[1..])
    case _ => 0
  }

  /** It fails then. */
  predicate EndsBroken(script: seq<Wrote>) {
    script != [] &&
    match script[0]
    case Took(n) => n == 0 || EndsBroken(script[1..])
    case Interrupted => EndsBroken(script[1..])
    case WouldBlock => false
    case Broken => true
  }

  predicate GoesOn(w: Wrote) { w.Interrupted? || (w.Took? && w.n > 0) }

  function Total(ws: seq<Wrote>): nat {
    if ws == [] then 0 else (if ws[0].Took? then ws[0].n else 0) + Total(ws[1..])
  }

  /** The answers count up to the first that is neither an interruption nor takes something. */
  lemma {:induction false} OfferedIs(script: seq<Wrote>, k: nat)
    requires k <= |script| && (forall j :: 0 <= j < k ==> GoesOn(script[j]))
    requires k < |script| ==> !GoesOn(script[k])
    ensures Offered(script) == Total(script[..k])
    ensures EndsBroken(script) <==> k < |script| && script[k] != WouldBlock
  {
    if k > 0 {
      OfferedIs(script[1..], k - 1);
      assert script[..k][1..] == script[1..][..k - 1];
    }
  }

  /** How many bytes a flush sends: what write takes, or everything. */
  function Sent(so: So, script: seq<Wrote>): (n: nat)
    ensures n <= |so.wbuf|
  {
    if Offered(script) < |so.wbuf| then Offered(script) else |so.wbuf|
  }

  /** A flush fails: write does before everything is sent. */
  predicate Fails(so: So, script: seq<Wrote>) { Offered(script) < |so.wbuf| && EndsBroken(script) }

  /** The first n bytes have moved from the buffer to the system. */
  function Flowed(so: So, n: nat): So
    requires n <= |so.wbuf|
  {
    so.(given := so.given + so.wbuf[..n], wbuf := so.wbuf[n..])
  }

  lemma FlowsOn(so: So, m: nat, n: nat)
    requires m + n <= |so.wbuf|
    ensures Flowed(Flowed(so, m), n) == Flowed(so, m + n)
  {
    assert so.wbuf[..m] + so.wbuf[m..][..n] == so.wbuf[..m + n];
    assert so.wbuf[m..][n..] == so.wbuf[m + n..];
    Assoc(so.given, so.wbuf[..m], so.wbuf[m..][..n]);
  }

  lemma FlowsNot(so: So)
    ensures Flowed(so, 0) == so
  {
    assert so.given + so.wbuf[..0] == so.given && so.wbuf[0..] == so.wbuf;
  }

  /** No byte is lost. */
  lemma FlowKeeps(so: So, n: nat)
    requires n <= |so.wbuf|
    ensures var t := Flowed(so, n); t.given + t.wbuf == so.given + so.wbuf && so.given <= t.given
  {
    assert so.wbuf[..n] + so.wbuf[n..] == so.wbuf;
    Assoc(so.given, so.wbuf[..n], so.wbuf[n..]);
  }

  /** The answers of the system during one somgr_write: to write, to epoll_ctl and to realloc. */
  datatype Sys = Sys(script: seq<Wrote>, modOk: bool, memory: bool)

  /** A socket that is being worked on is at least connected, and none of its bytes is lost. */
  ghost predicate Held(so: So) {
    && !so.free && !so.bad && (so.curq == NoQueue || so.curq == WriteQueue)
    && so.Capacities() && so.given + so.wbuf == so.accepted && so.consumed + so.rbuf == so.received
  }

  /** Data with a 32-bit length. */
  type Data = d: Bytes | |d| < 0x1_0000_0000 witness []

  /** n bytes do not fit, and some of the buffer can be sent first (somgr.c:369-370). */
  predicate SendsFirst(a: So, n: nat) { a.wcap - |a.wbuf| < n && a.writable && a.wbuf != [] }

  /** How many buffered bytes somgr_write sends. */
  function SentFirst(a: So, n: nat, script: seq<Wrote>): (m: nat)
    ensures m <= |a.wbuf|
  {
    if SendsFirst(a, n) then Sent(a, script) else 0
  }

  /** The room that n bytes need then beyond the capacity of the write buffer (somgr.c:385). */
  function Need(a: So, n: nat, script: seq<Wrote>): int {
    n - (a.wcap - (|a.wbuf| - SentFirst(a, n, script)))
  }

  /** Sending first fails: write does, or epoll refuses to watch for output. */
  predicate SendFails(a: So, n: nat, sys: Sys) {
    SendsFirst(a, n) && (Fails(a, sys.script) || (Sent(a, sys.script) < |a.wbuf| && !sys.modOk))
  }

  /** somgr_write fails: sending first does, or there is no memory, or the new capacity wraps. */
  predicate Refuses(a: So, n: nat, sys: Sys) {
    var need := Need(a, n, sys.script);
    SendFails(a, n, sys) || (need > 0 && (!sys.memory || Grown(a.wcap, need).None?))
  }

  /** Whether the socket is still writable then. */
  predicate StaysWritable(a: So, n: nat, script: seq<Wrote>) {
    a.writable && (!SendsFirst(a, n) || Fails(a, script) || Sent(a, script) == |a.wbuf|)
  }

  /** What somgr_write makes of a connected socket if it does not fail: the data is behind what is left,
      exactly as long as less than WRAP bytes are needed beyond the capacity. */
  ghost predicate Written(a: So, b: So, data: Data, sys: Sys) {
    var m, need := SentFirst(a, |data|, sys.script), Need(a, |data|, sys.script);
    var stored := if need < WRAP then data else [];
    && b == a.(given := a.given + a.wbuf[..m], wbuf := a.wbuf[m..] + stored, accepted := a.accepted + stored,
               overrun := a.overrun || need >= WRAP, wcap := b.wcap, writable := b.writable, interest := b.interest,
               curq := b.curq)
    && b.wcap == (if need <= 0 then a.wcap else Grown(a.wcap, need).GetOr(0))
    && b.writable == StaysWritable(a, |data|, sys.script)
    && b.interest == (if b.writable then Input else Both) && b.curq == (if b.writable then WriteQueue else NoQueue)
  }

  /** What it makes of one if it fails. */
  ghost predicate WriteFailed(a: So, b: So, n: nat, script: seq<Wrote>) {
    b == Removed(Flowed(a, SentFirst(a, n, script)).(writable := StaysWritable(a, n, script)))
  }

  /** What the second loop of somgr_runonce makes of a socket that it takes off the queue. */
  ghost predicate Flushes(a: So, b: So, sys: Sys) {
    GaveAway(a, b, sys.script, Sent(a, sys.script) < |a.wbuf| && !sys.modOk)
  }

  lemma WriterIsHeld(a: So)
    requires a.Fine() && a.curq == WriteQueue
    ensures var b := a.(curq := NoQueue); Held(b) && b.Live() && b.writable && b.interest == Input
  {
  }

  lemma FlushesOff(a: So, b: So, sys: Sys)
    requires a.Live() && Flushes(a.(curq := NoQueue), b, sys)
    ensures Flushes(a, b, sys)
  {
  }

  /** What a socket is answered; when there are no more answers, write would block. */
  function AnswerAt(answers: seq<Sys>, k: nat): Sys {
    if k < |answers| then answers[k] else Sys([], true, true)
  }

  /** The sockets on the queue q are flushed in turn, and no other changes. */
  ghost predicate WritersFlushed(a: seq<So>, b: seq<So>, q: seq<nat>, answers: seq<Sys>) {
    && |b| == |a|
    && (forall k :: 0 <= k < |q| ==> q[k] < |a| && Flushes(a[q[k]], b[q[k]], AnswerAt(answers, k)))
    && (forall j :: 0 <= j < |a| && j !in q ==> b[j] == a[j])
  }

  /** What somgr_kick makes of a socket. */
  ghost predicate KickedOut(a: So, b: So, script: seq<Wrote>) {
    var n := Sent(a, script);
    b == a.(given := a.given + a.wbuf[..n], wbuf := a.wbuf[n..], bad := true, interest := Nothing, curq := BadQueue)
  }

  /** What somgr_remove_so makes of a socket. */
  function Removed(a: So): So { if a.bad then a else a.(bad := true, interest := Nothing, curq := BadQueue) }

  /** What a flush outside somgr_write makes of a connected socket; `refused` says whether epoll refuses
      what it is asked then. */
  ghost predicate GaveAway(a: So, b: So, script: seq<Wrote>, refused: bool) {
    var n := Sent(a, script);
    && b == a.(given := a.given + a.wbuf[..n], wbuf := a.wbuf[n..], bad := b.bad, writable := b.writable,
               interest := b.interest, curq := b.curq)
    && (b.bad <==> Fails(a, script) || refused)
    && (!b.bad ==> b.writable == (b.wbuf == []) && b.interest == (if b.wbuf == [] then Input else Both)
                   && b.curq == NoQueue)
  }

  /** What a callback does: calls of somgr_write and somgr_kick, and of somgr_listen or somgr_connect;
      `added` is whether epoll takes the new socket. */
  datatype Op =
    | DoWrite(id: int, data: Data, sys: Sys)
    | DoKick(id: int, script: seq<Wrote>)
    | DoOpen(listen: bool, added: bool)

  /** One of the first n calls writes to or kicks socket j. */
  predicate Names(ops: seq<Op>, n: nat, j: int)
    requires n <= |ops|
  {
    exists k :: 0 <= k < n && !ops[k].DoOpen? && ops[k].id == j
  }

  /** One of the first n calls kicks socket j. */
  predicate Kicks(ops: seq<Op>, n: nat, j: int)
    requires n <= |ops|
  {
    exists k :: 0 <= k < n && ops[k].DoKick? && ops[k].id == j
  }

  predicate NoOpens(ops: seq<Op>) {
    forall k :: 0 <= k < |ops| ==> !ops[k].DoOpen?
  }

  /** The first n calls change of the sockets in use only those that they name, and those they kick
      are bad. */
  ghost predicate Moved(a: seq<So>, b: seq<So>, ops: seq<Op>, n: nat)
    requires n <= |ops|
  {
    && |a| <= |b|
    && (forall j :: 0 <= j < |a| && !a[j].free ==> Evolves(a[j], b[j]))
    && (forall j :: 0 <= j < |a| && !a[j].free && !Names(ops, n, j) ==> b[j] == a[j])
    && (forall j :: 0 < j < |a| && !a[j].free && Kicks(ops, n, j) ==> b[j].bad)
    && (NoOpens(ops) ==> |b| == |a| && forall j :: 0 <= j < |a| && a[j].free ==> b[j] == a[j])
  }

  /** What the n-th call does. */
  ghost predicate MovedOnce(b: seq<So>, c: seq<So>, op: Op) {
    && |b| <= |c|
    && (forall j :: 0 <= j < |b| && !b[j].free ==> Evolves(b[j], c[j]))
    && (forall j :: 0 <= j < |b| && !b[j].free && (op.DoOpen? || j != op.id) ==> c[j] == b[j])
    && (op.DoKick? && 0 < op.id < |b| && !b[op.id].free ==> c[op.id].bad)
    && (!op.DoOpen? ==> |c| == |b| && forall j :: 0 <= j < |b| && b[j].free ==> c[j] == b[j])
  }

  /** A socket that has been opened. */
  function Opening(listen: bool, connecting: bool): So {
    if connecting then RESET.(listen := listen, connecting := true, interest := Output)
    else RESET.(listen := listen, writable := true, interest := Input)
  }

  /** A connection that has just been accepted. */
  const READER: So := Opening(false, false)

  /** Socket i is opened, or stays free because epoll refuses it; the pool may have grown. */
  ghost predicate Enters(b: seq<So>, c: seq<So>, i: nat, so: So) {
    && |b| <= |c| && 0 < i < |c| && (i < |b| ==> b[i].free) && c[i] == so
    && forall j :: 0 <= j < |c| && j != i ==> c[j] == if j < |b| then b[j] else if j == 0 then RESET else UNUSED
  }

  /** What a call does, given completely. */
  ghost predicate OpDone(b: seq<So>, c: seq<So>, op: Op) {
    match op
    case DoWrite(id, data, sys) =>
      if data == [] || !(0 < id < |b|) || !b[id].Live() then c == b
      else |c| == |b| && c == b[id := c[id]]
           && if Refuses(b[id], |data|, sys) then WriteFailed(b[id], c[id], |data|, sys.script)
              else Written(b[id], c[id], data, sys)
    case DoKick(id, script) =>
      if !(0 < id < |b|) || b[id].bad || b[id].free then c == b
      else |c| == |b| && c == b[id := c[id]] && KickedOut(b[id], c[id], script)
    case DoOpen(listen, added) =>
      var so := if added then Opening(listen, !listen) else UNUSED;
      exists i :: Enters(b, c, i, so)
  }

  /** The sockets before each call of a callback and after the last one. */
  ghost predicate Ran(steps: seq<seq<So>>, ops: seq<Op>, n: nat)
    requires n <= |ops|
  {
    |steps| == n + 1 && forall k :: 0 <= k < n ==> OpDone(steps[k], steps[k + 1], ops[k])
  }

  lemma RanNone(sos: seq<So>, ops: seq<Op>)
    ensures Ran([sos], ops, 0)
  {
  }

  lemma RanMore(steps: seq<seq<So>>, now: seq<So>, ops: seq<Op>, n: nat)
    requires n < |ops| && Ran(steps, ops, n) && OpDone(steps[n], now, ops[n])
    ensures Ran(steps + [now], ops, n + 1)
  {
    hide OpDone;
    var more := steps + [now];
    assert forall k :: 0 <= k <= n ==> more[k] == steps[k];
  }

  lemma WriteMoves(a: So, b: So, data: Data, sys: Sys)
    requires a.Live() && a.interest == if a.writable then Input else Both
    requires if Refuses(a, |data|, sys) then WriteFailed(a, b, |data|, sys.script) else Written(a, b, data, sys)
    ensures Evolves(a, b)
  {
    hide Sent, Fails, Refuses, Need, SendsFirst;
  }

  lemma KickMoves(a: So, b: So, script: seq<Wrote>)
    requires !a.free && KickedOut(a, b, script)
    ensures Evolves(a, b) && b.bad
  {
    hide Sent;
  }

  lemma OpenMoves(b: seq<So>, c: seq<So>, i: nat, so: So)
    requires Enters(b, c, i, so)
    ensures |b| <= |c| && forall j :: 0 <= j < |b| && !b[j].free ==> c[j] == b[j]
  {
  }

  lemma OpenDone(b: seq<So>, c: seq<So>, i: nat, listen: bool, added: bool)
    requires Enters(b, c, i, if added then Opening(listen, !listen) else UNUSED)
    ensures OpDone(b, c, DoOpen(listen, added))
  {
  }

  lemma OpMoves(b: seq<So>, c: seq<So>, op: Op)
    requires OpDone(b, c, op)
    requires forall j :: 0 < j < |b| && b[j].Live() ==> b[j].interest == if b[j].writable then Input else Both
    ensures MovedOnce(b, c, op)
  {
    SameEvolves(b);
    hide Refuses, Written, WriteFailed, KickedOut, Enters, Evolves;
    match op {
      case DoWrite(id, data, sys) =>
        if data != [] && 0 < id < |b| && b[id].Live() {
          WriteMoves(b[id], c[id], data, sys);
        }
      case DoKick(id, script) =>
        if 0 < id < |b| && !b[id].bad && !b[id].free {
          KickMoves(b[id], c[id], script);
        }
      case DoOpen(listen, added) =>
        var so := if added then Opening(listen, !listen) else UNUSED;
        var i :| Enters(b, c, i, so);
        OpenMoves(b, c, i, so);
    }
  }

  lemma NotMoved(a: seq<So>, ops: seq<Op>)
    ensures Moved(a, a, ops, 0)
  {
  }

  lemma MovedMore(a: seq<So>, b: seq<So>, c: seq<So>, ops: seq<Op>, k: nat)
    requires k < |ops| && Moved(a, b, ops, k) && MovedOnce(b, c, ops[k])
    ensures Moved(a, c, ops, k + 1)
  {
    forall j | 0 <= j < |a| && !a[j].free ensures Evolves(a[j], c[j]) {
      assert Evolves(a[j], b[j]) && Evolves(b[j], c[j]);
    }
    forall j | 0 <= j < |a| && !a[j].free && !Names(ops, k + 1, j) ensures c[j] == a[j] {
      assert (ops[k].DoOpen? || ops[k].id != j) && !Names(ops, k, j);
    }
    forall j | 0 < j < |a| && !a[j].free && Kicks(ops, k + 1, j) ensures c[j].bad {
      assert Kicks(ops, k, j) || (ops[k].DoKick? && ops[k].id == j);
      assert Evolves(a[j], b[j]) && Evolves(b[j], c[j]);
    }
  }

  /** How many sockets can be allocated, and how many there are. */
  datatype Pool = Pool(free: nat, size: nat)

  /** The numbers from lo on that are below hi. */
  function Span(lo: nat, hi: nat): (r: seq<nat>)
    ensures |r| == if hi <= lo then 0 else hi - lo
  {
    if hi <= lo then [] else Span(lo, hi - 1) + [hi - 1]
  }

  /** The queue of free sockets from which one is taken, when the pool has grown to n if it had to: the
      numbers of the new ones follow each other. */
  function Frees(sos: seq<So>, free: seq<nat>, n: nat): seq<nat> {
    free + Span(if sos == [] then 1 else |sos|, n)
  }

  /** somgr_expand_sos (somgr.c:429-455) */
  function Expanded(p: Pool): Pool {
    var n := if p.size == 0 then 2 else p.size * 2;
    if n > 0x0fff_ffff then p else Pool(p.free + n - (if p.size == 0 then 1 else p.size), n)
  }

  /** Opening a socket; none if it comes to the null socket. */
  function Opened(p: Pool, added: bool): Option<Pool> {
    var q := if p.free == 0 then Expanded(p) else p;
    if q.free == 0 then None else Some(if added then Pool(q.free - 1, q.size) else q)
  }

  function OpStep(p: Pool, op: Op): Option<Pool> {
    if op.DoOpen? then Opened(p, op.added) else Some(p)
  }

  /** What the first n calls make of the pool. */
  function PoolAfter(p: Pool, ops: seq<Op>, n: nat): Option<Pool>
    requires n <= |ops|
  {
    if n == 0 then Some(p) else
    var q := PoolAfter(p, ops, n - 1);
    if q == None then None else OpStep(q.value, ops[n - 1])
  }

  lemma {:induction false} NoPool(p: Pool, ops: seq<Op>, m: nat, n: nat)
    requires m <= n <= |ops| && PoolAfter(p, ops, m) == None
    ensures PoolAfter(p, ops, n) == None
  {
    if m < n {
      NoPool(p, ops, m, n - 1);
    }
  }

  /** A pool has no sockets yet, or a power of two of them up to 2^27, and the null socket among them. */
  ghost predicate IsPool(p: Pool) {
    p == Pool(0, 0) || (p.free < p.size && exists k: nat :: k <= 26 && p.size == Shl(2, k))
  }

  /** How many sockets can still be opened. */
  function Capacity(p: Pool): int { if p.size == 0 then 0x7ff_ffff else p.free + 0x800_0000 - p.size }

  /** The sockets that the first n calls open, not counting those that epoll refuses. */
  function OpenedBefore(ops: seq<Op>, n: nat): nat
    requires n <= |ops|
  {
    if n == 0 then 0 else OpenedBefore(ops, n - 1) + if ops[n - 1].DoOpen? && ops[n - 1].added then 1 else 0
  }

  lemma ShlTop()
    ensures Shl(2, 26) == 0x800_0000
  {
    assert Shl(2, 5) == 64 && Shl(2, 10) == 2048 && Shl(2, 15) == 0x1_0000;
    assert Shl(2, 20) == 0x20_0000 && Shl(2, 25) == 0x400_0000;
  }

  lemma {:induction false} ShlUpTo(j: nat, k: nat)
    requires j <= k
    ensures 2 <= Shl(2, j) && (j < k ==> Shl(2, j + 1) == 2 * Shl(2, j) <= Shl(2, k))
  {
    if j + 1 < k {
      ShlUpTo(j, k - 1);
    }
    if j > 0 {
      ShlUpTo(j - 1, j);
    }
  }

  lemma PoolGrows(p: Pool)
    requires IsPool(p) && p.free == 0
    ensures IsPool(Expanded(p)) && Capacity(Expanded(p)) == Capacity(p)
    ensures Expanded(p).free == 0 <==> Capacity(p) == 0
  {
    ShlTop();
    if p.size == 0 {
      assert Shl(2, 0) == 2;
    } else {
      var k: nat :| k <= 26 && p.size == Shl(2, k);
      ShlUpTo(k, 26);
      hide Shl;
      if k < 26 {
        assert p.size * 2 == Shl(2, k + 1);
      }
    }
  }

  lemma PoolOpens(p: Pool, added: bool)
    requires IsPool(p)
    ensures Opened(p, added) == None <==> Capacity(p) == 0
    ensures Opened(p, added).Some? ==>
              IsPool(Opened(p, added).value) && Capacity(Opened(p, added).value) == Capacity(p) - if added then 1 else 0
  {
    hide Expanded, Shl;
    if p.free == 0 {
      PoolGrows(p);
    } else {
      var k: nat :| k <= 26 && p.size == Shl(2, k);
      ShlTop();
      SizeBound(k);
    }
  }

  lemma SizeBound(k: nat)
    requires k <= 26
    ensures Shl(2, k) <= Shl(2, 26)
  {
    ShlUpTo(k, 26);
  }

  /** One of the first n calls opens a socket when c have been opened before. */
  predicate Overdraws(ops: seq<Op>, n: nat, c: int)
    requires n <= |ops|
  {
    exists m :: 0 <= m < n && ops[m].DoOpen? && OpenedBefore(ops, m) >= c
  }

  lemma OneMoreCall(ops: seq<Op>, n: nat, c: int)
    requires 0 < n <= |ops|
    ensures Overdraws(ops, n, c) <==> Overdraws(ops, n - 1, c) || (ops[n - 1].DoOpen? && OpenedBefore(ops, n - 1) >= c)
  {
    hide OpenedBefore;
  }

  /** Calls come to the null socket exactly if one opens a socket when as many have been opened before as
      the pool has room for. */
  lemma {:induction false} NullExactly(p: Pool, ops: seq<Op>, n: nat)
    requires IsPool(p) && n <= |ops|
    ensures PoolAfter(p, ops, n) == None <==> Overdraws(ops, n, Capacity(p))
    ensures var q := PoolAfter(p, ops, n);
            q.Some? ==> IsPool(q.value) && Capacity(q.value) == Capacity(p) - OpenedBefore(ops, n)
  {
    hide IsPool, Capacity, Opened, Overdraws;
    if n > 0 {
      NullExactly(p, ops, n - 1);
      OneMoreCall(ops, n, Capacity(p));
      var q := PoolAfter(p, ops, n - 1);
      if q.Some? && ops[n - 1].DoOpen? {
        PoolOpens(q.value, ops[n - 1].added);
        CapacityLeft(q.value);
      }
    } else {
      NoCall(ops, Capacity(p));
    }
  }

  lemma NoCall(ops: seq<Op>, c: int)
    ensures !Overdraws(ops, 0, c)
  {
  }

  lemma CapacityLeft(p: Pool)
    requires IsPool(p)
    ensures Capacity(p) >= 0
  {
    if p.size > 0 {
      var k: nat :| k <= 26 && p.size == Shl(2, k);
      ShlTop();
      SizeBound(k);
    }
  }

  lemma {:induction false} SamePool(p: Pool, ops: seq<Op>, n: nat)
    requires n <= |ops| && NoOpens(ops)
    ensures PoolAfter(p, ops, n) == Some(p)
  {
    if n > 0 {
      SamePool(p, ops, n - 1);
    }
  }

  /** What read answers; `Got([])` is the end of the stream. */
  datatype Read = Got(data: Bytes) | ReadError

  /** How accept and adding the new socket to epoll end (somgr.c:276-309). */
  datatype Accept = NotNow | NoSocket | NotAdded | Added

  /** An event of epoll_wait, with the answers that serving it gets: `pn` and `ops` are what the
      callback returns and does. */
  datatype Event = Event(
    hangup: bool, input: bool, output: bool, memory: bool, answer: Read, pn: int, ops: seq<Op>,
    script: seq<Wrote>, modOk: bool, error: bool, accept: Accept)

  /** A queue holds just the sockets that say so, each once. */
  ghost predicate Agrees(sos: seq<So>, q: seq<nat>, which: Queue) {
    && Distinct(q)
    && (forall i :: i in q ==> 0 < i < |sos| && sos[i].curq == which)
    && (forall i :: 0 < i < |sos| && sos[i].curq == which ==> i in q)
  }

  lemma PushAgrees(sos: seq<So>, q: seq<nat>, which: Queue, i: nat, so: So)
    requires Agrees(sos, q, which) && 0 < i < |sos| && sos[i].curq != which && so.curq == which
    ensures Agrees(sos[i := so], q + [i], which)
  {
  }

  lemma OtherAgrees(sos: seq<So>, q: seq<nat>, which: Queue, i: nat, so: So)
    requires Agrees(sos, q, which) && 0 < i < |sos| && (sos[i].curq == which <==> so.curq == which)
    ensures Agrees(sos[i := so], q, which)
  {
  }

  lemma PopAgrees(sos: seq<So>, q: seq<nat>, which: Queue, so: So)
    requires Agrees(sos, q, which) && q != [] && so.curq != which
    ensures 0 < q[0] < |sos| && Agrees(sos[q[0] := so], q[1..], which)
  {
    assert q[0] in q;
    forall i | i in q[1..] ensures i in q && i != q[0] {
      var j :| 0 <= j < |q[1..]| && q[1..][j] == i;
      assert q[j + 1] == i;
    }
    forall i | 0 < i < |sos| && sos[q[0] := so][i].curq == which ensures i in q[1..] {
      assert i in q;
      var j :| 0 <= j < |q| && q[j] == i;
      assert q[1..][j - 1] == i;
    }
  }

  lemma {:induction false} WithoutMembers(q: seq<nat>, x: nat)
    requires Distinct(q) && x in q
    ensures Distinct(Without(q, x))
    ensures forall y :: y in Without(q, x) <==> y in q && y != x
  {
    var rest := q[1..];
    assert forall j :: 0 <= j < |rest| ==> rest[j] == q[j + 1];
    assert q == [q[0]] + rest && q[0] !in rest;
    if q[0] != x {
      WithoutMembers(rest, x);
      assert Without(q, x) == [q[0]] + Without(rest, x);
    }
  }

  lemma EraseAgrees(sos: seq<So>, q: seq<nat>, which: Queue, i: nat, so: So)
    requires Agrees(sos, q, which) && 0 < i < |sos| && sos[i].curq == which && so.curq != which
    ensures Agrees(sos[i := so], Without(q, i), which)
  {
    WithoutMembers(q, i);
  }

  lemma {:induction false} FitsIn(q: seq<nat>, n: nat)
    requires Distinct(q) && forall i :: i in q ==> i < n
    ensures |q| <= n
  {
    assert q != [] ==> q[0] in q && 0 <= q[0] < n;
    if n > 0 {
      if n - 1 in q {
        var k :| 0 <= k < |q| && q[k] == n - 1;
        var r := q[..k] + q[k + 1..];
        assert forall j :: 0 <= j < |r| ==> r[j] == q[if j < k then j else j + 1];
        assert forall i :: i in r ==> i in q;
        FitsIn(r, n - 1);
      } else {
        FitsIn(q, n - 1);
      }
    }
  }

  lemma GrowAgrees(sos: seq<So>, q: seq<nat>, which: Queue, so: So)
    requires Agrees(sos, q, which) && sos != []
    ensures Agrees(sos + [so], if so.curq == which then q + [|sos|] else q, which)
  {
    var now := sos + [so];
    var r := if so.curq == which then q + [|sos|] else q;
    assert forall i :: 0 <= i < |sos| ==> now[i] == sos[i];
    forall j | 0 <= j < |q| ensures q[j] < |sos| {
      assert q[j] in q;
    }
    forall i | i in r ensures 0 < i < |now| && now[i].curq == which {
      assert i in q || i == |sos|;
    }
    forall i | 0 < i < |now| && now[i].curq == which ensures i in r {
      if i < |sos| {
        assert i in q;
      }
    }
  }
}
