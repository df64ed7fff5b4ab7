/** Whole rounds of common/somgr/somgr.c: when they get to their end, and the inputs with which they do not. */
module SoRounds {
  import opened Basics
  import opened SoMgr
  import opened Sockets
  import opened SoTurns
  import opened SoUtil

  /** No callback is about the socket of a later event that is for output only. */
  predicate Apart(evs: seq<(nat, Event)>) {
    forall k, m :: 0 <= k < m < |evs| && evs[m].1.output && !evs[m].1.input ==>
      !Names(evs[k].1.ops, |evs[k].1.ops|, evs[m].0)
  }

  lemma {:induction false} StaysSame(states: seq<seq<So>>, evs: seq<(nat, Event)>, j: nat, k: nat)
    requires Turns(states, evs) && k < |states| && 0 < j < |states[0]| && !states[0][j].free
    requires forall i :: 0 <= i < k ==> evs[i].0 != j && !Names(evs[i].1.ops, |evs[i].1.ops|, j)
    ensures j < |states[k]| && states[k][j] == states[0][j]
  {
    if k > 0 {
      StaysSame(states, evs, j, k - 1);
      assert Turn(states[k - 1], states[k - 1 + 1], evs[k - 1].0, evs[k - 1].1);
    }
  }

  /** What can be checked before a round: if no callback writes to or kicks the socket of a later
      event for output only, the asserts of somgr.c:258-259 hold throughout. */
  lemma ApartHolds(states: seq<seq<So>>, wanted: seq<(nat, Event)>, o: Outcome)
    requires states != [] && (forall j :: 0 < j < |states[0]| ==> states[0][j].Fine())
    requires Batch(states, Reported(states[0], wanted), o) && Apart(Reported(states[0], wanted))
    ensures o != StaleFails
  {
    var evs := Reported(states[0], wanted);
    ReportedDue(states[0], wanted);
    forall k | 0 <= k < |states| && k < |evs| ensures !Stale(states[k][evs[k].0], evs[k].1) {
      NextDue(states[0], evs, k);
      if evs[k].1.output && !evs[k].1.input {
        StaysSame(states, evs, evs[k].0, k);
      }
    }
  }

  /** A socket evolves until its own turn. */
  lemma {:induction false} Evolved(states: seq<seq<So>>, evs: seq<(nat, Event)>, j: nat, from: nat, k: nat)
    requires Turns(states, evs) && from <= k < |states| && 0 < j < |states[from]| && !states[from][j].free
    requires forall i :: from <= i < k ==> evs[i].0 != j
    ensures j < |states[k]| && !states[k][j].free && Evolves(states[from][j], states[k][j])
  {
    if from == k {
      SameEvolves(states[k]);
    } else {
      Evolved(states, evs, j, from, k - 1);
      assert Turn(states[k - 1], states[k - 1 + 1], evs[k - 1].0, evs[k - 1].1);
      EvolvesOn(states[from][j], states[k - 1][j], states[k][j]);
    }
  }

  /** Whether a callback is called can be told from the sockets as they were reported, but for a
      connect, which an earlier callback can undo. */
  lemma CallsBackLater(a: So, b: So, ev: Event)
    requires CallsBack(a, ev) && Evolves(a, b) && (a.connecting && !a.listen ==> b == a)
    ensures CallsBack(b, ev)
  {
  }

  /** A callback, of accept, connect or read, kicks a connection that has a later event for output
      only: that event is stale at its turn. */
  lemma KickMakesStale(states: seq<seq<So>>, evs: seq<(nat, Event)>, k: nat, m: nat)
    requires Turns(states, evs) && AllDue(states[0], evs, 0) && k < m < |evs| && m < |states|
    requires KicksLater(states[0], evs, k, m)
    ensures evs[m].0 < |states[m]| && Stale(states[m][evs[m].0], evs[m].1)
  {
    var i, j := evs[k].0, evs[m].0;
    assert Due(states[0][i], evs[k].1) && Due(states[0][j], evs[m].1) && i != j;
    hide CallsBack, Names, Kicks, Due, Stale, Breaks;
    Evolved(states, evs, i, 0, k);
    Evolved(states, evs, j, 0, k);
    if states[0][i].connecting && !states[0][i].listen {
      StaysSame(states, evs, i, k);
    }
    CallsBackLater(states[0][i], states[k][i], evs[k].1);
    assert Turn(states[k], states[k + 1], i, evs[k].1);
    Evolved(states, evs, j, k + 1, m);
    BadIsStale(states[k + 1][j], states[m][j], evs[m].1);
  }

  /** Told from the sockets as they are when the events are reported: the k-th event calls a callback
      that kicks the connection of the m-th, which is for output only. */
  predicate KicksLater(sos: seq<So>, evs: seq<(nat, Event)>, k: nat, m: nat)
    requires k < m < |evs| && evs[k].0 < |sos| && evs[m].0 < |sos|
  {
    && CallsBack(sos[evs[k].0], evs[k].1) && Kicks(evs[k].1.ops, |evs[k].1.ops|, evs[m].0)
    && (sos[evs[k].0].connecting && !sos[evs[k].0].listen ==>
          forall i :: 0 <= i < k ==> !Names(evs[i].1.ops, |evs[i].1.ops|, evs[k].0))
    && sos[evs[m].0].Connected() && evs[m].1.output && !evs[m].1.input && !evs[m].1.hangup
  }

  /** And it fails: such a batch does not get to its end, and at the turn of the later event it is the
      assert that fails. */
  lemma KickBreaks(states: seq<seq<So>>, evs: seq<(nat, Event)>, o: Outcome, k: nat, m: nat)
    requires Batch(states, evs, o) && k < m < |evs| && KicksLater(states[0], evs, k, m)
    ensures o != Served && (m < |states| ==> o == StaleFails)
  {
    if m < |states| {
      KickMakesStale(states, evs, k, m);
    }
  }

  lemma BadIsStale(a: So, b: So, ev: Event)
    requires a.Connected() && a.bad && Evolves(a, b) && ev.output && !ev.input && !ev.hangup
    ensures Stale(b, ev)
  {
  }

  /** A state in which all sockets are in use and none is on a queue. */
  method InUse(sos: seq<So>) returns (m: SoManager)
    requires forall j :: 0 < j < |sos| ==> sos[j].Fine() && sos[j].curq == NoQueue
    ensures fresh(m) && m.Valid(0, 0) && m.sos == sos && m.freesos == []
  {
    m := new SoManager();
    m.sos := sos;
  }

  /** The longest write to a connected socket that has not sent anything yet: 0 is returned, and not
      one byte is accepted. */
  method LongWrite(data: Data) returns (r: int, m: SoManager)
    requires |data| == 0xffff_ffff
    ensures r == 0 && m.Valid(0, 0) && |m.sos| == 2 && m.sos[1].Live() && m.sos[1].accepted == [] && m.sos[1].overrun
  {
    hide SoManager.Valid, SoManager.Queues;
    m := InUse([RESET, READER]);
    GrownTooLittle();
    r := m.Write(1, data, Sys([], true, true), 0);
  }

  /** Of two connections, one has read nothing yet, and the other has output that the system did not take. */
  const WAITING: So := RESET.(interest := Both, wbuf := [7], wcap := 1024, accepted := [7])

  /** The first gets its first input, and its callback kicks the second. */
  const INPUT: Event := Event(false, true, false, true, Got([1]), 0, [DoKick(2, [])], [], true, false, NotNow)
  const OUTPUT: Event := Event(false, false, true, true, ReadError, 0, [], [], true, false, NotNow)

  lemma StaleEvents()
    ensures READER.Fine() && WAITING.Fine() && !CanBeNull(READER, INPUT)
    ensures AllDue([RESET, READER, WAITING], [(1, INPUT), (2, OUTPUT)], 0)
    ensures KicksLater([RESET, READER, WAITING], [(1, INPUT), (2, OUTPUT)], 0, 1)
  {
    assert [] + [7] == [7];
    assert INPUT.ops[0].id == 2;
    assert Grown(0, 1024) == Some(2048);
  }

  /** Such a batch. */
  method StaleRound() returns (o: Outcome)
    ensures o == StaleFails
  {
    StaleEvents();
    hide SoManager.Valid, SoManager.Queues, So.Fine, AllDue, KicksLater, CanBeNull, Turn, Turns, Stale;
    var m := InUse([RESET, READER, WAITING]);
    ghost var states;
    o, states := m.ServeAll([(1, INPUT), (2, OUTPUT)]);
    KickBreaks(states, [(1, INPUT), (2, OUTPUT)], o, 0, 1);
  }

  /** A listening socket in use. */
  const BUSY: So := RESET.(listen := true, writable := true, interest := Input)

  /** A pool that is used up and at its limit, and one more connection that is accepted. */
  method UsedUp() returns (o: Outcome)
    ensures o == NullSocket
  {
    hide SoManager.Valid, SoManager.Queues;
    var m := InUse([RESET] + seq(0x7ff_ffff, i => BUSY));
    assert m.Here() == Pool(0, 0x800_0000);
    var input := Event(false, true, false, true, ReadError, 0, [], [], true, false, Added);
    o := m.Serve(1, input);
  }

  /** A listening socket whose accept fails for good, and one whose new socket epoll refuses. */
  method BadAccepts() returns (o: Outcome, p: Outcome)
    ensures o == NullSocket && p == AcceptFails
  {
    hide SoManager.Valid, SoManager.Queues;
    var input := Event(false, true, false, true, ReadError, 0, [], [], true, false, NoSocket);
    var m := InUse([RESET, BUSY]);
    o := m.Serve(1, input);
    m := InUse([RESET, BUSY]);
    assert m.Here() == Pool(0, 2);
    p := m.Serve(1, input.(accept := NotAdded));
  }

  /** What keeps the first loop of somgr_runonce busy: an error callback that opens a socket and kicks
      it leaves a bad socket and a free one again, so as long as callbacks do that it goes on. */
  method Reopened(m: SoManager)
    requires m.Valid(0, 0) && m.badsos != [] && m.freesos != []
    modifies m
    ensures m.Valid(0, 0) && m.badsos != [] && m.freesos != []
  {
    var so := m.PopBad();
    var i := m.Enter(true, false, true, so);
    var r := m.Kick(i, [], so);
    m.FreeSo(so, so);
    assert m.sos[i].bad && m.sos[i].Fine();
  }
}
