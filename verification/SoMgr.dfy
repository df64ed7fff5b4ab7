/** The manager of common/somgr/somgr.c with its pool and its three queues, which every call changes in place. */
module SoMgr {
  import opened Basics
  import opened Sockets
  import opened SoTurns
  import opened SoUtil

  /** somgr_t (somgr.c:13-28) */
  class SoManager {
    var sos: seq<So>
    var freesos: seq<nat>
    var badsos: seq<nat>
    var writesos: seq<nat>

    ghost predicate Queues()
      reads this
    {
      Agrees(sos, freesos, FreeQueue) && Agrees(sos, badsos, BadQueue) && Agrees(sos, writesos, WriteQueue)
    }

    /** The state between two calls, when i and out are 0.  Otherwise socket i is being worked on,
        and socket out is bad and about to be freed. */
    ghost predicate Valid(i: nat, out: nat)
      reads this
    {
      && Queues() && (forall j :: 0 < j < |sos| && j != i && j != out ==> sos[j].Fine())
      && (out != 0 ==> out < |sos| && sos[out].bad && sos[out].curq == NoQueue)
    }

    /** Between two calls, of the output of a connected socket no byte is lost or out of order, and
        what is left of it will be written: in the next round, or when the system takes more. */
    lemma OutputKept(i: nat)
      requires Valid(0, 0) && 0 < i < |sos| && sos[i].Live()
      ensures sos[i].given + sos[i].wbuf == sos[i].accepted && sos[i].consumed + sos[i].rbuf == sos[i].received
      ensures sos[i].wbuf != [] ==> (if sos[i].writable then i in writesos else sos[i].interest == Both)
      ensures i in writesos ==> sos[i].writable
      ensures !sos[i].overrun ==> (i in writesos <==> sos[i].writable && sos[i].wbuf != [])
    {
      assert sos[i].Fine();
    }

    constructor ()
      ensures Valid(0, 0) && sos == [] && freesos == [] && badsos == [] && writesos == []
    {
      sos, freesos, badsos, writesos := [], [], [], [];
    }

    /** A change to socket i that leaves it where it is. */
    method Set(i: nat, so: So, ghost out: nat)
      requires Valid(i, out) && 0 < i < |sos| && i != out && so.curq == sos[i].curq
      modifies this
      ensures Valid(i, out) && sos == old(sos)[i := so] && freesos == old(freesos) && badsos == old(badsos)
              && writesos == old(writesos)
    {
      OtherAgrees(sos, freesos, FreeQueue, i, so);
      OtherAgrees(sos, badsos, BadQueue, i, so);
      OtherAgrees(sos, writesos, WriteQueue, i, so);
      sos := sos[i := so];
    }

    /** somgr_flush_so (somgr.c:179-204) */
    method FlushSo(i: nat, script: seq<Wrote>, ghost out: nat) returns (r: int)
      requires Valid(i, out) && 0 < i < |sos| && i != out
      modifies this
      ensures Valid(i, out) && freesos == old(freesos) && badsos == old(badsos) && writesos == old(writesos)
      ensures var a := old(sos)[i]; sos == old(sos)[i := Flowed(a, Sent(a, script))]
      ensures r == if Fails(old(sos)[i], script) then -1 else 0
    {
      hide Whole, Valid;
      var at := script;
      ghost var was, m := sos, 0;
      FlowsNot(sos[i]);
      while sos[i].wbuf != [] && at != []
        invariant Valid(i, out) && |sos| == |was| && m <= |was[i].wbuf| && sos == was[i := Flowed(was[i], m)]
        invariant |sos[i].wbuf| == |was[i].wbuf| - m
        invariant Sent(was[i], script) == m + Sent(sos[i], at) && (Fails(was[i], script) <==> Fails(sos[i], at))
        invariant freesos == old(freesos) && badsos == old(badsos) && writesos == old(writesos)
        decreases |at|
      {
        var wn := at[0];
        at := at[1..];
        match wn {
          case Took(n) =>
            if n == 0 {
              return -1;
            }
            var rn := if n < |sos[i].wbuf| then n else |sos[i].wbuf|;
            FlowsOn(was[i], m, rn);
            Set(i, sos[i].(given := sos[i].given + sos[i].wbuf[..rn], wbuf := sos[i].wbuf[rn..]), out);
            m := m + rn;
          case Interrupted =>
          case WouldBlock => return 0;
          case Broken => return -1;
        }
      }
      r := 0;
    }

    /** somgr_mod_so (somgr.c:503-515); `ok` is the answer of epoll_ctl, which fails for what it does
        not watch. */
    method ModSo(i: nat, w: bool, ok: bool, ghost out: nat) returns (r: int)
      requires Valid(i, out) && 0 < i < |sos| && i != out
      modifies this
      ensures Valid(i, out) && freesos == old(freesos) && badsos == old(badsos) && writesos == old(writesos)
      ensures var so := old(sos[i]);
              sos == old(sos)[i := so.(interest := if r != 0 then so.interest else if w then Both else Input)]
      ensures r == if ok && old(sos[i]).interest != Nothing then 0 else -1
    {
      if ok && sos[i].interest != Nothing {
        Set(i, sos[i].(interest := if w then Both else Input), out);
        return 0;
      }
      assert sos == sos[i := sos[i]];
      r := -1;
    }

    method EraseWrite(i: nat, ghost out: nat)
      requires Valid(i, out) && 0 < i < |sos| && i != out && sos[i].curq == WriteQueue
      modifies this
      ensures Valid(i, out) && sos == old(sos)[i := old(sos[i]).(curq := NoQueue)]
      ensures freesos == old(freesos) && badsos == old(badsos) && writesos == Without(old(writesos), i)
    {
      var so := sos[i].(curq := NoQueue);
      OtherAgrees(sos, freesos, FreeQueue, i, so);
      OtherAgrees(sos, badsos, BadQueue, i, so);
      EraseAgrees(sos, writesos, WriteQueue, i, so);
      writesos := Without(writesos, i);
      sos := sos[i := so];
    }

    method PushWrite(i: nat, ghost out: nat)
      requires Valid(i, out) && 0 < i < |sos| && i != out && sos[i].curq == NoQueue
      modifies this
      ensures Valid(i, out) && sos == old(sos)[i := old(sos[i]).(curq := WriteQueue)]
      ensures freesos == old(freesos) && badsos == old(badsos) && writesos == old(writesos) + [i]
    {
      var so := sos[i].(curq := WriteQueue);
      OtherAgrees(sos, freesos, FreeQueue, i, so);
      OtherAgrees(sos, badsos, BadQueue, i, so);
      PushAgrees(sos, writesos, WriteQueue, i, so);
      writesos := writesos + [i];
      sos := sos[i := so];
    }

    method PushBad(i: nat, ghost out: nat)
      requires Valid(i, out) && 0 < i < |sos| && i != out && sos[i].curq == NoQueue
      modifies this
      ensures Valid(i, out) && sos == old(sos)[i := old(sos[i]).(bad := true, interest := Nothing, curq := BadQueue)]
      ensures freesos == old(freesos) && badsos == old(badsos) + [i] && writesos == old(writesos)
    {
      var so := sos[i].(bad := true, interest := Nothing, curq := BadQueue);
      OtherAgrees(sos, freesos, FreeQueue, i, so);
      PushAgrees(sos, badsos, BadQueue, i, so);
      OtherAgrees(sos, writesos, WriteQueue, i, so);
      badsos := badsos + [i];
      sos := sos[i := so];
    }

    /** The socket that is being worked on is fine again. */
    lemma AllFine(i: nat, out: nat)
      requires Valid(i, out) && 0 < i < |sos| && sos[i].Fine()
      ensures Valid(0, out)
    {
    }

    /** somgr_remove_so (somgr.c:467-481); nothing happens to a socket that is bad already. */
    method RemoveSo(i: nat, ghost out: nat)
      requires Valid(i, out) && 0 < i < |sos| && i != out && (Held(sos[i]) || (sos[i].bad && sos[i].Fine()))
      modifies this
      ensures Valid(0, out) && freesos == old(freesos) && sos == old(sos)[i := Removed(old(sos)[i])]
      ensures badsos == if old(sos[i]).bad then old(badsos) else old(badsos) + [i]
      ensures writesos == if old(sos[i]).curq == WriteQueue then Without(old(writesos), i) else old(writesos)
    {
      hide Whole, Valid;
      if sos[i].bad {
        AllFine(i, out);
        assert sos == sos[i := sos[i]];
        return;
      }
      if sos[i].curq != NoQueue {
        assert sos[i].curq == WriteQueue;
        EraseWrite(i, out);
      }
      PushBad(i, out);
      AllFine(i, out);
    }

    /** somgr_free_so (somgr.c:517-528), for a bad socket that was popped or a new one. */
    method FreeSo(i: nat, ghost out: nat)
      requires Valid(i, out) && 0 < i < |sos| && sos[i].curq == NoQueue
      modifies this
      ensures Valid(0, if out == i then 0 else out) && sos == old(sos)[i := UNUSED] && freesos == old(freesos) + [i]
    {
      PushAgrees(sos, freesos, FreeQueue, i, UNUSED);
      OtherAgrees(sos, badsos, BadQueue, i, UNUSED);
      OtherAgrees(sos, writesos, WriteQueue, i, UNUSED);
      freesos := freesos + [i];
      sos := sos[i := UNUSED];
    }

    /** Sending what can be sent before the buffer grows (somgr.c:371-382). */
    method MakeWay(i: nat, sys: Sys, ghost out: nat) returns (r: int)
      requires Valid(0, out) && 0 < i < |sos| && i != out && sos[i].Live() && sos[i].writable
      modifies this
      ensures Valid(i, out) && |sos| == |old(sos)| && sos == old(sos)[i := sos[i]] && freesos == old(freesos)
      ensures Held(sos[i]) && (r == 0 ==> sos[i].interest == if sos[i].writable then Input else Both)
      ensures var a, b, n := old(sos)[i], sos[i], Sent(old(sos)[i], sys.script);
              && b == Flowed(a, n).(writable := Fails(a, sys.script) || n == |a.wbuf|, interest := b.interest)
              && r == if Fails(a, sys.script) || (n < |a.wbuf| && !sys.modOk) then -1 else 0
    {
      hide Whole, Valid, Sent;
      Watches(i, out);
      FlowKeeps(sos[i], Sent(sos[i], sys.script));
      var e := FlushSo(i, sys.script, out);
      if e != 0 {
        return -1;
      }
      if sos[i].wbuf != [] {
        Set(i, sos[i].(writable := false), out);
        e := ModSo(i, true, sys.modOk, out);
        if e != 0 {
          return -1;
        }
      }
      r := 0;
    }

    /** sbuf_expand of the write buffer (somgr.c:385). */
    method Widen(i: nat, need: nat, memory: bool, ghost out: nat) returns (r: int)
      requires Valid(i, out) && 0 < i < |sos| && i != out && Held(sos[i]) && need < 0x1_0000_0000
      modifies this
      ensures Valid(i, out) && |sos| == |old(sos)| && sos == old(sos)[i := sos[i]] && freesos == old(freesos)
      ensures sos[i] == old(sos[i]).(wcap := sos[i].wcap) && Held(sos[i])
      ensures r == if Grown(old(sos[i]).wcap, need).None? || !memory then -1 else 0
      ensures if r == 0 then Grown(old(sos[i]).wcap, need) == Some(sos[i].wcap) else sos == old(sos)
      ensures r == 0 ==> (sos[i].wcap >= old(sos[i]).wcap + need <==> need < WRAP)
    {
      hide Whole, Grown;
      GrownEnough(sos[i].wcap, need);
      var cap := Grown(sos[i].wcap, need);
      if cap == None || !memory {
        assert sos == sos[i := sos[i]];
        return -1;
      }
      Set(i, sos[i].(wcap := cap.value), out);
      r := 0;
    }

    /** The part of somgr_write that finds room for n bytes (somgr.c:369-388).  If it reports no
        failure there is room exactly if the need is below WRAP. */
    method MakeRoom(i: nat, n: nat, sys: Sys, ghost out: nat) returns (r: int)
      requires Valid(0, out) && 0 < i < |sos| && i != out && sos[i].Live() && n < 0x1_0000_0000
      modifies this
      ensures Valid(i, out) && |sos| == |old(sos)| && sos == old(sos)[i := sos[i]] && freesos == old(freesos)
      ensures Held(sos[i]) && r == if Refuses(old(sos)[i], n, sys) then -1 else 0
      ensures var a, b := old(sos)[i], sos[i];
              b == Flowed(a, SentFirst(a, n, sys.script)).(writable := StaysWritable(a, n, sys.script),
                                                           interest := b.interest, wcap := b.wcap)
      ensures r == 0 ==>
                var a, b, need := old(sos)[i], sos[i], Need(old(sos)[i], n, sys.script);
                && b.interest == (if b.writable then Input else Both)
                && b.wcap == (if need <= 0 then a.wcap else Grown(a.wcap, need).GetOr(0))
                && (|b.wbuf| + n <= b.wcap <==> need < WRAP)
      ensures r != 0 ==> sos[i].wcap == old(sos)[i].wcap
    {
      hide Whole, Grown, Valid, Sent, Fails;
      Watches(i, out);
      FlowsNot(sos[i]);
      var fz := sos[i].wcap - |sos[i].wbuf|;
      if fz < n {
        if sos[i].writable && sos[i].wbuf != [] {
          var e := MakeWay(i, sys, out);
          if e != 0 {
            return -1;
          }
          fz := sos[i].wcap - |sos[i].wbuf|;
        }
        if fz < n {
          r := Widen(i, n - fz, sys.memory, out);
          return;
        }
      }
      r := 0;
    }

    /** The part of somgr_write that keeps the queue of writers (somgr.c:391-401). */
    method Requeue(i: nat, ghost out: nat)
      requires Valid(i, out) && 0 < i < |sos| && i != out && Held(sos[i]) && sos[i].Live()
      requires sos[i].wbuf != [] || sos[i].overrun
      requires sos[i].interest == if sos[i].writable then Input else Both
      modifies this
      ensures Valid(0, out) && freesos == old(freesos)
      ensures sos == old(sos)[i := old(sos[i]).(curq := if old(sos[i]).writable then WriteQueue else NoQueue)]
    {
      hide Whole;
      if sos[i].writable {
        if sos[i].curq == NoQueue {
          PushWrite(i, out);
        } else {
          assert sos[i].curq == WriteQueue;
          assert sos == sos[i := sos[i]];
        }
      } else {
        if sos[i].curq != NoQueue {
          assert sos[i].curq == WriteQueue;
          EraseWrite(i, out);
        } else {
          assert sos == sos[i := sos[i]];
        }
      }
    }

    lemma Watches(i: nat, out: nat)
      requires Valid(0, out) && 0 < i < |sos| && i != out && sos[i].Live()
      ensures Valid(i, out) && Held(sos[i]) && sos[i].interest == if sos[i].writable then Input else Both
      ensures !sos[i].writable ==> sos[i].curq == NoQueue
    {
      assert sos[i].Fine();
    }

    /** somgr_write behind its checks (somgr.c:369-409). */
    method Store(i: nat, data: Data, sys: Sys, ghost out: nat) returns (r: int)
      requires Valid(0, out) && 0 < i < |sos| && i != out && sos[i].Live() && data != []
      modifies this
      ensures Valid(0, out) && |sos| == |old(sos)| && sos == old(sos)[i := sos[i]] && freesos == old(freesos)
      ensures r == if Refuses(old(sos)[i], |data|, sys) then -1 else 0
      ensures if r == 0 then Written(old(sos)[i], sos[i], data, sys)
              else WriteFailed(old(sos)[i], sos[i], |data|, sys.script)
    {
      hide Valid, Whole, Grown, Sent, Refuses, SendsFirst, So.Fine;
      Watches(i, out);
      var e := MakeRoom(i, |data|, sys, out);
      if e != 0 {
        RemoveSo(i, out);
        return -1;
      }
      if |data| <= sos[i].wcap - |sos[i].wbuf| {
        Assoc(sos[i].given, sos[i].wbuf, data);
        Set(i, sos[i].(wbuf := sos[i].wbuf + data, accepted := sos[i].accepted + data), out);
      } else {
        Set(i, sos[i].(overrun := true), out);
      }
      Requeue(i, out);
      r := 0;
    }

    /** somgr_write (somgr.c:357-410).  The data is accepted, or the socket becomes bad and that is
        reported, exactly as long as less than WRAP bytes are needed beyond the capacity.  From there
        on 0 is returned and nothing accepted: sbuf_writed refuses, which nobody looks at. */
    method Write(id: int, data: Data, sys: Sys, ghost out: nat) returns (r: int)
      requires Valid(0, out)
      modifies this
      ensures Valid(0, out) && |sos| == |old(sos)| && freesos == old(freesos)
      ensures 0 < id < |old(sos)| ==> sos == old(sos)[id := sos[id]]
      ensures data == [] ==> r == 0 && sos == old(sos)
      ensures data != [] && !(0 < id < |old(sos)|) ==> r == -1 && sos == old(sos)
      ensures data != [] && 0 < id < |old(sos)| && !old(sos)[id].Live() ==> r == -2 && sos == old(sos)
      ensures data != [] && 0 < id < |old(sos)| && old(sos)[id].Live() ==>
                r == if Refuses(old(sos)[id], |data|, sys) then -1 else 0
      ensures data != [] && 0 < id < |old(sos)| && old(sos)[id].Live() ==>
                if r == 0 then Written(old(sos)[id], sos[id], data, sys)
                else WriteFailed(old(sos)[id], sos[id], |data|, sys.script)
    {
      hide Whole, Valid, Written, WriteFailed, Refuses;
      if data == [] {
        return 0;
      }
      if id < 1 || id >= |sos| {
        return -1;
      }
      if sos[id].bad || sos[id].listen || sos[id].free || sos[id].connecting {
        return -2;
      }
      IsNotOut(id, out);
      r := Store(id, data, sys, out);
    }

    lemma IsNotOut(i: nat, out: nat)
      requires Valid(0, out) && 0 < i < |sos| && !sos[i].bad
      ensures i != out
    {
    }

    /** somgr_kick (somgr.c:412-427): what can be sent is sent first, and whether that fails does not
        matter. */
    method Kick(id: int, script: seq<Wrote>, ghost out: nat) returns (r: int)
      requires Valid(0, out)
      modifies this
      ensures Valid(0, out) && |sos| == |old(sos)| && freesos == old(freesos)
      ensures !(0 < id < |old(sos)|) ==> r == -1 && sos == old(sos)
      ensures 0 < id < |old(sos)| && old(sos)[id].bad ==> r == -2 && sos == old(sos)
      ensures 0 < id < |old(sos)| && !old(sos)[id].bad && old(sos)[id].free ==> r == -3 && sos == old(sos)
      ensures 0 < id < |old(sos)| && !old(sos)[id].bad && !old(sos)[id].free ==>
                r == 0 && sos == old(sos)[id := sos[id]] && KickedOut(old(sos)[id], sos[id], script)
    {
      hide Valid, Whole, Sent, So.Fine;
      if id < 1 || id >= |sos| {
        return -1;
      }
      if sos[id].bad {
        return -2;
      }
      if sos[id].free {
        return -3;
      }
      IsNotOut(id, out);
      IsHeld(id, out);
      FlowKeeps(sos[id], Sent(sos[id], script));
      var e := FlushSo(id, script, out);
      RemoveSo(id, out);
      r := 0;
    }

    lemma IsHeld(i: nat, out: nat)
      requires Valid(0, out) && 0 < i < |sos| && i != out
      ensures Valid(i, out) && sos[i].Fine() && (!sos[i].bad && !sos[i].free ==> Held(sos[i]))
    {
    }

    ghost function Here(): Pool
      reads this
    {
      Pool(|freesos|, |sos|)
    }

    /** One turn of the loop of somgr_expand_sos (somgr.c:441-452). */
    method NewSo(ghost out: nat)
      requires Valid(0, out)
      modifies this
      ensures Valid(0, out) && badsos == old(badsos) && writesos == old(writesos)
      ensures sos == old(sos) + [if old(sos) == [] then RESET else UNUSED]
      ensures freesos == if old(sos) == [] then old(freesos) else old(freesos) + [|old(sos)|]
    {
      if sos != [] {
        GrowAgrees(sos, freesos, FreeQueue, UNUSED);
        GrowAgrees(sos, badsos, BadQueue, UNUSED);
        GrowAgrees(sos, writesos, WriteQueue, UNUSED);
        freesos := freesos + [|sos|];
        sos := sos + [UNUSED];
      } else {
        sos := [RESET];
      }
    }

    /** somgr_expand_sos (somgr.c:429-455), which does nothing when the pool is at its limit. */
    method ExpandSos(ghost out: nat)
      requires Valid(0, out)
      modifies this
      ensures Valid(0, out) && badsos == old(badsos) && writesos == old(writesos)
      ensures |old(sos)| <= |sos| && (forall j :: 0 <= j < |old(sos)| ==> sos[j] == old(sos)[j])
      ensures forall j :: 0 < j < |sos| && |old(sos)| <= j ==> sos[j] == UNUSED && j in freesos
      ensures old(sos) == [] && sos != [] ==> sos[0] == RESET
      ensures freesos == old(freesos) + Span(if old(sos) == [] then 1 else |old(sos)|, |sos|)
      ensures |sos| == if old(sos) == [] then 2 else if 2 * |old(sos)| < 0x1000_0000 then 2 * |old(sos)| else |old(sos)|
      ensures Here() == Expanded(old(Here()))
    {
      hide So.Fine, Agrees;
      var sosn := if |sos| == 0 then 2 else |sos| * 2;
      if sosn > 0x0fff_ffff {
        return;
      }
      var i := |sos|;
      while i < sosn
        invariant |old(sos)| <= i == |sos| <= sosn && Valid(0, out) && badsos == old(badsos)
                  && writesos == old(writesos)
        invariant forall j :: 0 <= j < |old(sos)| ==> sos[j] == old(sos)[j]
        invariant forall j :: 0 < j < |sos| && |old(sos)| <= j ==> sos[j] == UNUSED && j in freesos
        invariant old(sos) == [] && sos != [] ==> sos[0] == RESET
        invariant freesos == old(freesos) + Span(if old(sos) == [] then 1 else |old(sos)|, i)
      {
        NewSo(out);
        i := i + 1;
      }
    }

    method PopFree(ghost out: nat) returns (i: nat)
      requires Valid(0, out) && freesos != []
      modifies this
      ensures 0 < i < |sos| && i != out && i == old(freesos)[0] && freesos == old(freesos)[1..]
      ensures i < |old(sos)| && old(sos)[i].free && sos == old(sos)[i := RESET] && Valid(i, out)
    {
      i := freesos[0];
      assert i in freesos;
      PopAgrees(sos, freesos, FreeQueue, RESET);
      OtherAgrees(sos, badsos, BadQueue, i, RESET);
      OtherAgrees(sos, writesos, WriteQueue, i, RESET);
      freesos := freesos[1..];
      sos := sos[i := RESET];
    }

    /** somgr_alloc_so (somgr.c:457-465).  When the pool is used up and at its limit, the source writes
        to the null pointer that it has popped: 0 stands for that. */
    method AllocSo(ghost out: nat) returns (i: nat)
      requires Valid(0, out)
      modifies this
      ensures i == 0 <==> Opened(old(Here()), true) == None
      ensures i == 0 ==> Valid(0, out) && sos == old(sos)
      ensures i != 0 ==> i < |sos| && i != out && Valid(i, out) && sos[i] == RESET
      ensures i != 0 ==> Opened(old(Here()), true) == Some(Here())
      ensures i != 0 ==> Enters(old(sos), sos, i, RESET)
      ensures i != 0 ==> [i] + freesos == Frees(old(sos), old(freesos), |sos|)
    {
      hide Valid;
      if freesos == [] {
        ExpandSos(out);
        if freesos == [] {
          return 0;
        }
      }
      assert freesos == Frees(old(sos), old(freesos), |sos|);
      i := PopFree(out);
    }

    /** A new socket of somgr_listen, somgr_connect or somgr_proc_accept (somgr.c:121-131, 162-173,
        292-302), which somgr_add_so has added to epoll (somgr.c:483-501), or which is free again
        because epoll did not take it. */
    method Enter(listen: bool, connecting: bool, added: bool, ghost out: nat) returns (i: nat)
      requires Valid(0, out) && !(listen && connecting)
      modifies this
      ensures Valid(0, out) && (i == 0 <==> Opened(old(Here()), added) == None)
      ensures i == 0 ==> sos == old(sos)
      ensures i != 0 ==> i != out && Opened(old(Here()), added) == Some(Here())
      ensures i != 0 ==> Enters(old(sos), sos, i, if added then Opening(listen, connecting) else UNUSED)
      ensures i != 0 ==>
                var q := Frees(old(sos), old(freesos), |sos|);
                i == q[0] && freesos == if added then q[1..] else q[1..] + [i]
    {
      hide Valid, Queues;
      i := AllocSo(out);
      if i == 0 {
        return;
      }
      Set(i, sos[i].(listen := listen, connecting := connecting), out);
      if connecting {
        Set(i, sos[i].(interest := Output), out);
      } else {
        Set(i, sos[i].(writable := true, interest := Input), out);
      }
      if added {
        AllFine(i, out);
      } else {
        FreeSo(i, out);
      }
    }

    /** What a callback does to the sockets, up to a null socket if it comes to one. */
    method RunOps(ops: seq<Op>, ghost out: nat) returns (ok: bool, ghost steps: seq<seq<So>>)
      requires Valid(0, out)
      modifies this
      ensures Valid(0, out) && 0 < |steps| <= |ops| + 1 && steps[0] == old(sos) && steps[|steps| - 1] == sos
      ensures Ran(steps, ops, |steps| - 1) && Moved(old(sos), sos, ops, |steps| - 1)
      ensures ok <==> PoolAfter(old(Here()), ops, |ops|).Some?
      ensures ok ==> |steps| == |ops| + 1 && PoolAfter(old(Here()), ops, |ops|) == Some(Here())
      ensures out != 0 ==> out < |sos| && sos[out] == old(sos)[out]
    {
      hide Moved, MovedOnce, Evolves, Queues, So.Fine, Opened, OpDone, Ran;
      NotMoved(sos, ops);
      RanNone(sos, ops);
      var k := 0;
      steps := [sos];
      while k < |ops|
        invariant 0 <= k <= |ops| && Valid(0, out) && PoolAfter(old(Here()), ops, k) == Some(Here())
        invariant |steps| == k + 1 && steps[0] == old(sos) && steps[k] == sos
        invariant Ran(steps, ops, k) && Moved(old(sos), sos, ops, k)
        invariant out != 0 ==> sos[out] == old(sos)[out]
      {
        ghost var was := sos;
        assert PoolAfter(old(Here()), ops, k + 1) == OpStep(Here(), ops[k]);
        ok := RunOp(ops[k], out);
        if !ok {
          NoPool(old(Here()), ops, k + 1, |ops|);
          return;
        }
        MovedMore(old(sos), was, sos, ops, k);
        RanMore(steps, sos, ops, k);
        k := k + 1;
        steps := steps + [sos];
      }
      ok := true;
    }

    lemma LiveInterests(out: nat)
      requires Valid(0, out)
      ensures forall j :: 0 < j < |sos| && sos[j].Live() ==> sos[j].interest == if sos[j].writable then Input else Both
    {
      forall j | 0 < j < |sos| && sos[j].Live() ensures sos[j].interest == if sos[j].writable then Input else Both {
        IsNotOut(j, out);
        Watches(j, out);
      }
    }

    method RunOp(op: Op, ghost out: nat) returns (ok: bool)
      requires Valid(0, out)
      modifies this
      ensures Valid(0, out) && if ok then OpDone(old(sos), sos, op) && MovedOnce(old(sos), sos, op) else sos == old(sos)
      ensures ok <==> OpStep(old(Here()), op).Some?
      ensures ok ==> OpStep(old(Here()), op) == Some(Here())
      ensures out != 0 ==> out < |sos| && sos[out] == old(sos)[out]
    {
      LiveInterests(out);
      hide Valid, Opened, Written, WriteFailed, Refuses, KickedOut, MovedOnce, Enters, Frees;
      ok := true;
      match op {
        case DoWrite(id, data, sys) => var r := Write(id, data, sys, out);
        case DoKick(id, script) => var r := Kick(id, script, out);
        case DoOpen(listen, added) =>
          var i := Enter(listen, !listen, added, out);
          ok := i != 0;
          if ok {
            OpenDone(old(sos), sos, i, listen, added);
          }
      }
      if ok {
        OpMoves(old(sos), sos, op);
      }
    }

    /** somgr_proc_connected (somgr.c:206-221): `error` is what getsockopt tells.  A socket that was
        made bad meanwhile stays so, as epoll does not watch it any more. */
    method ProcConnected(i: nat, ev: Event) returns (ok: bool, ghost steps: seq<seq<So>>)
      requires Valid(0, 0) && 0 < i < |sos| && sos[i].connecting && !sos[i].listen && !sos[i].free && !ev.hangup
      modifies this
      ensures Valid(0, 0) && Others(old(sos), sos, i, ev)
      ensures ok ==> Kicked(old(sos), sos, i, ev) && Exactly(old(sos), sos, i, ev, steps)
      ensures !ok <==> CallsBack(old(sos)[i], ev) && PoolAfter(old(Here()), ev.ops, |ev.ops|) == None
      ensures !CallsBack(old(sos)[i], ev) ==> sos == old(sos)[i := Removed(old(sos)[i])]
      ensures CallsBack(old(sos)[i], ev) && !Names(ev.ops, |ev.ops|, i) ==>
                i < |sos| && sos[i] == old(sos)[i].(writable := true, connecting := false, interest := Input)
    {
      hide Whole, Evolves, Valid, Names, Kicks, PoolAfter, Ran, Exactly, Others, Kicked, Moved;
      IsFine(i);
      ok, steps := true, [];
      if ev.error {
        RemoveSo(i, 0);
        NotCalledBack(old(sos), sos, i, ev);
        QuietTurn(old(sos), sos, i, ev);
        return;
      }
      var e := ModSo(i, false, ev.modOk, 0);
      if e != 0 {
        RemoveSo(i, 0);
        NotCalledBack(old(sos), sos, i, ev);
        QuietTurn(old(sos), sos, i, ev);
        return;
      }
      Set(i, sos[i].(writable := true, connecting := false), 0);
      AllFine(i, 0);
      ghost var mid := sos;
      ok, steps := RunOps(ev.ops, 0);
      NotNamed(mid, sos, ev.ops, |steps| - 1, i);
      MovedOthers(old(sos), mid, sos, sos, i, ev, |steps| - 1);
      if ok {
        CalledTurn(old(sos), sos, i, ev, steps);
      }
    }

    /** Room in the read buffer (somgr.c:227-233). */
    method ReadRoom(i: nat, memory: bool) returns (ok: bool)
      requires Valid(0, 0) && 0 < i < |sos| && sos[i].Connected()
      modifies this
      ensures Valid(0, 0) && |sos| == |old(sos)| && sos == old(sos)[i := sos[i]] && Here() == old(Here())
      ensures sos[i] == old(sos)[i].(rcap := ReadCap(old(sos)[i], memory)) && sos[i].Fine()
      ensures ok && |sos[i].rbuf| < sos[i].rcap <==> HasRoom(old(sos)[i], memory)
    {
      hide Whole, Grown;
      assert sos[i].Fine();
      if sos[i].rcap - |sos[i].rbuf| == 0 {
        var need := if sos[i].rcap == 0 then 1024 else sos[i].rcap;
        WholeBound(sos[i].rcap);
        GrownEnough(sos[i].rcap, need);
        var cap := Grown(sos[i].rcap, need);
        if cap == None || !memory {
          assert sos == sos[i := sos[i]];
          return false;
        }
        Set(i, sos[i].(rcap := cap.value), 0);
      }
      ok := true;
    }

    /** Reading into the buffer (somgr.c:227-238): everything that was read, as far as there is room,
        is behind what was there before. */
    method ReadInto(i: nat, memory: bool, answer: Read) returns (ok: bool)
      requires Valid(0, 0) && 0 < i < |sos| && sos[i].Connected()
      modifies this
      ensures Valid(0, 0) && |sos| == |old(sos)| && sos == old(sos)[i := sos[i]] && Here() == old(Here())
      ensures ok <==> Gives(old(sos)[i], memory, answer)
      ensures var a, b := old(sos)[i], sos[i];
              && b.rcap == ReadCap(a, memory)
              && (!ok ==> b == a.(rcap := b.rcap))
              && (ok ==> |a.rbuf| < b.rcap &&
                         var room := b.rcap - |a.rbuf|;
                         var got := if |answer.data| <= room then answer.data else answer.data[..room];
                         b == a.(rbuf := a.rbuf + got, rcap := b.rcap, received := a.received + got))
    {
      hide Whole, HasRoom, ReadCap;
      ok := ReadRoom(i, memory);
      var fz := sos[i].rcap - |sos[i].rbuf|;
      // a read for no bytes gives none
      if !ok || answer.ReadError? || answer.data == [] || fz == 0 {
        return false;
      }
      var rn := if |answer.data| <= fz then answer.data else answer.data[..fz];
      Assoc(sos[i].consumed, sos[i].rbuf, rn);
      Set(i, sos[i].(rbuf := sos[i].rbuf + rn, received := sos[i].received + rn), 0);
    }

    /** sbuf_readed by what the callback used up (somgr.c:240-243). */
    method Consume(i: nat, pn: int) returns (ok: bool)
      requires Valid(0, 0) && 0 < i < |sos| && !sos[i].free
      modifies this
      ensures Valid(0, 0) && |sos| == |old(sos)| && sos == old(sos)[i := sos[i]] && Here() == old(Here())
      ensures ok == (0 <= pn <= |old(sos)[i].rbuf|)
      ensures var a, b := old(sos)[i], sos[i];
              b == if ok then a.(rbuf := a.rbuf[pn..], consumed := a.consumed + a.rbuf[..pn]) else a
    {
      hide Whole;
      if pn < 0 || pn > |sos[i].rbuf| {
        assert sos == sos[i := sos[i]];
        return false;
      }
      var b := sos[i].rbuf;
      assert b[..pn] + b[pn..] == b;
      Assoc(sos[i].consumed, b[..pn], b[pn..]);
      assert sos[i].Fine();
      Set(i, sos[i].(rbuf := b[pn..], consumed := sos[i].consumed + b[..pn]), 0);
      ok := true;
    }

    /** The read of somgr_proc_rw (somgr.c:226-255).  `more` says whether to go on, and `ok` is false if
        the callback comes to a null socket. */
    method ProcRead(i: nat, ev: Event) returns (ok: bool, more: bool, ghost steps: seq<seq<So>>)
      requires Valid(0, 0) && 0 < i < |sos| && sos[i].Connected() && ev.input && !ev.hangup
      modifies this
      ensures Valid(0, 0) && Others(old(sos), sos, i, ev)
      ensures ok ==> Kicked(old(sos), sos, i, ev)
      ensures !ok <==> CallsBack(old(sos)[i], ev) && PoolAfter(old(Here()), ev.ops, |ev.ops|) == None
      ensures ok && CallsBack(old(sos)[i], ev) ==>
                Ran(steps, ev.ops, |ev.ops|) && AtCallback(old(sos), steps[0], i, ev) && |sos| == |steps[|ev.ops|]|
                && sos == steps[|ev.ops|][i := Used(steps[|ev.ops|][i], ev.pn)]
                && (ReadsOn(old(sos)[i], ev) <==> 0 <= ev.pn <= |steps[|ev.ops|][i].rbuf|)
      ensures !CallsBack(old(sos)[i], ev) ==>
                var a := old(sos)[i]; sos == old(sos)[i := a.(rcap := ReadCap(a, ev.memory))]
      ensures more <==> ok && ReadsOn(old(sos)[i], ev) && !sos[i].bad
      ensures sos[i].Connected() && (old(sos)[i].bad ==> sos[i].bad) && (sos[i].writable ==> old(sos)[i].writable)
      ensures ok ==> ReadIn(old(sos)[i], sos[i], ev)
      ensures ok && (CallsBack(old(sos)[i], ev) ==> !Names(ev.ops, |ev.ops|, i)) ==> OnlyRead(old(sos)[i], sos[i])
    {
      hide Whole, Names, Kicks, PoolAfter, Gives, ReadCap, Valid, Ran, ReadIn, OnlyRead, ReadsOn, Moved, Others, Kicked,
           Used;
      ok, steps := true, [];
      more := ReadInto(i, ev.memory, ev.answer);
      if !more {
        NotCalledBack(old(sos), sos, i, ev);
        NothingRead(old(sos)[i], sos[i], ev);
        return;
      }
      ghost var mid := sos;
      ok, steps := RunOps(ev.ops, 0);
      NotNamed(mid, sos, ev.ops, |steps| - 1, i);
      ghost var was := sos;
      if !ok {
        MovedOthers(old(sos), mid, was, was, i, ev, |steps| - 1);
        return false, false, steps;
      }
      more := Consume(i, ev.pn);
      UsedIs(was[i], ev.pn);
      MovedOthers(old(sos), mid, was, sos, i, ev, |steps| - 1);
      CallbackRead(old(sos)[i], mid[i], was[i], sos[i], ev);
      more := more && !sos[i].bad;
    }

    /** The write of somgr_proc_rw (somgr.c:260-269), behind the asserts. */
    method ProcWrite(i: nat, script: seq<Wrote>, modOk: bool) returns (ok: bool)
      requires Valid(0, 0) && 0 < i < |sos| && sos[i].Live() && !sos[i].writable
      modifies this
      ensures |sos| == |old(sos)| && sos == old(sos)[i := sos[i]] && freesos == old(freesos)
      ensures Held(sos[i]) && Valid(i, 0) && (ok ==> Valid(0, 0)) && sos[i].curq == NoQueue
      ensures var a, b, n := old(sos)[i], sos[i], Sent(old(sos)[i], script);
              && (ok <==> !Fails(a, script) && !(n == |a.wbuf| && !modOk))
              && b == Flowed(a, n).(writable := b.writable, interest := b.interest)
              && (ok ==> b.writable == (b.wbuf == []) && b.interest == if b.wbuf == [] then Input else Both)
    {
      hide Valid, Whole, Offered, EndsBroken, So.Fine;
      Watches(i, 0);
      FlowKeeps(sos[i], Sent(sos[i], script));
      Set(i, sos[i].(writable := true), 0);
      var e := FlushSo(i, script, 0);
      if e != 0 {
        return false;
      }
      if sos[i].wbuf == [] {
        e := ModSo(i, false, modOk, 0);
        if e != 0 {
          return false;
        }
      } else {
        Set(i, sos[i].(writable := false), 0);
      }
      Leave(i);
      ok := true;
    }

    /** The write part of somgr_proc_rw with the asserts of lines 258 and 259 (somgr.c:257-274). */
    method SendPart(i: nat, ev: Event) returns (o: Outcome)
      requires Valid(0, 0) && 0 < i < |sos| && sos[i].Connected() && ev.output && !sos[i].writable
      modifies this
      ensures Valid(0, 0) && freesos == old(freesos)
      ensures o == if old(sos)[i].bad then StaleFails else Served
      ensures o == StaleFails ==> sos == old(sos)
      ensures o == Served ==>
                && |sos| == |old(sos)| && sos == old(sos)[i := sos[i]]
                && GaveAway(old(sos)[i], sos[i], ev.script, NotMuted(old(sos)[i], ev))
    {
      IsFine(i);
      hide Valid, Whole, Offered, EndsBroken;
      assert !sos[i].writable;
      if sos[i].curq != NoQueue {
        return StaleFails;
      }
      var ok := ProcWrite(i, ev.script, ev.modOk);
      if !ok {
        RemoveSo(i, 0);
      }
      o := Served;
    }

    /** somgr_proc_rw (somgr.c:223-274), also for a socket that was made bad meanwhile.  The asserts of
        lines 258 and 259 fail just for a stale event. */
    method ProcRw(i: nat, ev: Event) returns (o: Outcome, ghost steps: seq<seq<So>>)
      requires Valid(0, 0) && 0 < i < |sos| && sos[i].Connected() && (ev.output ==> !sos[i].writable) && !ev.hangup
      requires ev.input || ev.output
      modifies this
      ensures Valid(0, 0) && Others(old(sos), sos, i, ev)
      ensures o != AcceptFails && (o == StaleFails <==> Stale(old(sos)[i], ev))
      ensures o == StaleFails ==> sos == old(sos)
      ensures o == NullSocket <==> CallsBack(old(sos)[i], ev) && PoolAfter(old(Here()), ev.ops, |ev.ops|) == None
      ensures o == Served ==> Kicked(old(sos), sos, i, ev) && Exactly(old(sos), sos, i, ev, steps)
      ensures o == Served && ev.input ==> ReadIn(old(sos)[i], sos[i], ev)
      ensures o == Served && !Names(ev.ops, |ev.ops|, i) ==> OwnRw(old(sos)[i], sos[i], ev)
    {
      hide Whole, Names, Kicks, PoolAfter, Evolves, Ran, OwnRw, ReadIn, OnlyRead, GaveAway, Valid, Fails, Sent;
      SameEvolves(sos);
      o, steps := Served, [];
      ghost var a, mid := sos[i], sos;
      if ev.input {
        var ok, more;
        ok, more, steps := ProcRead(i, ev);
        if !ok {
          return NullSocket, steps;
        }
        mid := sos;
        if !more {
          IsFine(i);
          RemoveSo(i, 0);
          OthersBut(old(sos), mid, sos, i, ev);
          StillRead(a, mid[i], sos[i], ev);
          if OnlyRead(a, mid[i]) {
            ReadFailed(a, mid[i], sos[i], ev);
          }
          return;
        }
        if !ev.output {
          if OnlyRead(a, mid[i]) {
            JustRead(a, mid[i], ev);
          }
          return;
        }
      }
      o := SendPart(i, ev);
      OthersBut(old(sos), mid, sos, i, ev);
      if o == Served {
        if ev.input {
          StillRead(a, mid[i], sos[i], ev);
        }
        if !ev.input || OnlyRead(a, mid[i]) {
          ReadAndWrote(a, mid[i], sos[i], ev);
        }
      }
    }

    method PopBad() returns (i: nat)
      requires Valid(0, 0) && badsos != []
      modifies this
      ensures 0 < i < |old(sos)| && old(sos)[i].bad && i == old(badsos)[0] && badsos == old(badsos)[1..]
              && freesos == old(freesos) && writesos == old(writesos)
      ensures sos == old(sos)[i := old(sos)[i].(curq := NoQueue)] && Valid(0, i)
    {
      i := badsos[0];
      assert i in badsos;
      var so := sos[i].(curq := NoQueue);
      PopAgrees(sos, badsos, BadQueue, so);
      OtherAgrees(sos, freesos, FreeQueue, i, so);
      OtherAgrees(sos, writesos, WriteQueue, i, so);
      badsos := badsos[1..];
      sos := sos[i := so];
    }

    /** One turn of the first loop of somgr_runonce (somgr.c:316-320). */
    method ReapOne(ops: seq<Op>) returns (ok: bool)
      requires Valid(0, 0) && badsos != []
      modifies this
      ensures |old(sos)| <= |sos| && (ok ==> Valid(0, 0) && Reaps(old(sos), sos, old(badsos)[0], ops))
      ensures NoOpens(ops) ==> ok && Here() == Pool(|old(freesos)| + 1, |old(sos)|)
      ensures NoOpens(ops) ==> forall j :: 0 < j < |sos| && old(sos)[j].free ==> sos[j] == old(sos)[j]
      ensures ok <==> PoolAfter(old(Here()), ops, |ops|).Some?
      ensures forall j :: 0 < j < |old(sos)| && !old(sos)[j].free ==> sos[j] == UNUSED || Evolves(old(sos)[j], sos[j])
      ensures forall j :: 0 < j < |old(sos)| && !old(sos)[j].free && !old(sos)[j].bad && !Names(ops, |ops|, j) ==>
                sos[j] == old(sos)[j]
    {
      hide Whole, PoolAfter, Names, Kicks, Queues, Ran;
      if NoOpens(ops) {
        SamePool(Here(), ops, |ops|);
      }
      SameEvolves(sos);
      var so := PopBad();
      ghost var steps;
      ok, steps := RunOps(ops, so);
      FewerNamed(ops, |steps| - 1);
      if ok {
        FreeSo(so, so);
        assert ReapsBy(old(sos), sos, so, ops, steps);
      }
    }

    /** The first loop of somgr_runonce (somgr.c:315-321): every bad socket is freed, also those that
        the error callbacks add.  `callbacks` says what these do; behind its end they do nothing.  If
        one comes to a null socket, `ok` is false. */
    method ReapBad(callbacks: seq<seq<Op>>) returns (ok: bool, ghost turns: seq<seq<So>>)
      requires Valid(0, 0)
      modifies this
      ensures |old(sos)| <= |sos| && (ok ==> Valid(0, 0) && badsos == [])
      ensures Reapings(turns, callbacks) && turns[0] == old(sos) && (ok ==> turns[|turns| - 1] == sos)
      ensures ok ==> forall j :: 0 < j < |sos| ==> !sos[j].bad
      ensures (forall k :: 0 <= k < |callbacks| ==> NoOpens(callbacks[k])) ==>
                ok && |sos| == |old(sos)| && forall j :: 0 < j < |sos| ==>
                  sos[j] == UNUSED || Evolves(old(sos)[j], sos[j])
      ensures forall j :: 0 < j < |old(sos)| && !old(sos)[j].free && !old(sos)[j].bad && Unnamed(callbacks, j) ==>
                sos[j] == old(sos)[j]
    {
      hide So.Fine, Evolves, Valid, NoOpens, Unnamed, Reaps, Reapings;
      SameEvolves(sos);
      NoReapings(sos, callbacks);
      turns := [sos];
      ghost var none := forall k :: 0 <= k < |callbacks| ==> NoOpens(callbacks[k]);
      var k := 0;
      while badsos != []
        invariant Valid(0, 0) && |old(sos)| <= |sos| && |turns| == k + 1 && turns[0] == old(sos) && turns[k] == sos
        invariant Reapings(turns, callbacks)
        invariant none ==> |sos| == |old(sos)| && forall j :: 0 < j < |sos| ==>
                  sos[j] == UNUSED || Evolves(old(sos)[j], sos[j])
        invariant forall j :: 0 < j < |old(sos)| && !old(sos)[j].free && !old(sos)[j].bad && Unnamed(callbacks, j) ==>
                    sos[j] == old(sos)[j]
        decreases if k < |callbacks| then |callbacks| - k else 0, |sos| - |freesos|
      {
        FreeFits();
        ghost var was, i := sos, badsos[0];
        OpsOf(callbacks, k);
        ok := ReapOne(OpsAt(callbacks, k));
        if !ok {
          return;
        }
        MoreReapings(turns, sos, i, callbacks);
        turns := turns + [sos];
        if none {
          Reaped(old(sos), was, sos);
        }
        FreeFits();
        k := k + 1;
      }
      AllReaped();
      ok := true;
    }

    lemma FreeFits()
      requires Valid(0, 0)
      ensures |freesos| <= |sos|
    {
      FitsIn(freesos, |sos|);
    }

    lemma AllReaped()
      requires Valid(0, 0) && badsos == []
      ensures forall j :: 0 < j < |sos| ==> !sos[j].bad
    {
      forall j | 0 < j < |sos| ensures !sos[j].bad {
        assert sos[j].Fine() && j !in badsos;
      }
    }

    method PopWrite() returns (i: nat)
      requires Valid(0, 0) && writesos != []
      modifies this
      ensures 0 < i < |old(sos)| && i == old(writesos)[0] && writesos == old(writesos)[1..] && freesos == old(freesos)
      ensures sos == old(sos)[i := old(sos)[i].(curq := NoQueue)] && Valid(i, 0)
      ensures old(sos)[i].Fine() && old(sos)[i].curq == WriteQueue
    {
      i := writesos[0];
      assert i in writesos;
      var so := sos[i].(curq := NoQueue);
      PopAgrees(sos, writesos, WriteQueue, so);
      OtherAgrees(sos, freesos, FreeQueue, i, so);
      OtherAgrees(sos, badsos, BadQueue, i, so);
      writesos := writesos[1..];
      sos := sos[i := so];
    }

    /** One turn of the second loop of somgr_runonce (somgr.c:323-333). */
    method FlushWriter(sys: Sys)
      requires Valid(0, 0) && writesos != []
      modifies this
      ensures Valid(0, 0) && freesos == old(freesos) && writesos == old(writesos)[1..]
      ensures var i := old(writesos)[0];
              && 0 < i < |sos| == |old(sos)| && sos == old(sos)[i := sos[i]]
              && Flushes(old(sos)[i], sos[i], sys)
    {
      hide Flushes, So.Fine, Whole, Queues;
      var i := PopWrite();
      WriterIsHeld(old(sos)[i]);
      FlushPopped(i, sys);
      FlushesOff(old(sos)[i], sos[i], sys);
    }

    /** The rest of that turn, with the socket off its queue. */
    method FlushPopped(i: nat, sys: Sys)
      requires Valid(i, 0) && 0 < i < |sos| && Held(sos[i]) && sos[i].Live() && sos[i].curq == NoQueue
      requires sos[i].writable && sos[i].interest == Input
      modifies this
      ensures Valid(0, 0) && |sos| == |old(sos)| && freesos == old(freesos) && writesos == old(writesos)
      ensures sos == old(sos)[i := sos[i]] && Flushes(old(sos)[i], sos[i], sys)
    {
      hide Valid, Whole, Sent, So.Fine;
      FlowKeeps(sos[i], Sent(sos[i], sys.script));
      var e := FlushSo(i, sys.script, 0);
      if e != 0 {
        RemoveSo(i, 0);
        return;
      }
      if sos[i].wbuf != [] {
        Set(i, sos[i].(writable := false), 0);
        e := ModSo(i, true, sys.modOk, 0);
        if e != 0 {
          RemoveSo(i, 0);
          return;
        }
      }
      Leave(i);
    }

    lemma Leave(i: nat)
      requires Valid(i, 0) && 0 < i < |sos| && Held(sos[i]) && sos[i].Live() && sos[i].curq == NoQueue
      requires if sos[i].writable then sos[i].interest == Input && sos[i].wbuf == [] else sos[i].interest == Both
      ensures Valid(0, 0)
    {
      assert sos[i].Fine();
    }

    /** The second loop of somgr_runonce (somgr.c:323-333).  Each socket on the queue, in its order, gives
        as much of its output to the system as that takes.  Afterwards a socket with output left is watched
        by epoll until the system takes more. */
    method FlushWriters(answers: seq<Sys>)
      requires Valid(0, 0)
      modifies this
      ensures Valid(0, 0) && |sos| == |old(sos)| && freesos == old(freesos) && writesos == []
      ensures WritersFlushed(old(sos), sos, old(writesos), answers)
      ensures forall j :: 0 < j < |sos| && sos[j].Live() && sos[j].wbuf != [] ==> sos[j].interest == Both
    {
      hide Flushes, So.Fine, Whole, Evolves;
      WritersInRange();
      var k := 0;
      ghost var q := writesos;
      while writesos != []
        invariant Valid(0, 0) && |sos| == |old(sos)| && freesos == old(freesos) && k <= |q| && writesos == q[k..]
        invariant forall m :: 0 <= m < k ==> Flushes(old(sos)[q[m]], sos[q[m]], AnswerAt(answers, m))
        invariant forall j :: 0 <= j < |sos| && j !in q[..k] ==> sos[j] == old(sos)[j]
        decreases |writesos|
      {
        assert q[k] !in q[..k];
        FlushWriter(AnswerAt(answers, k));
        k := k + 1;
      }
      assert q[..k] == q;
      WatchedOrDone();
    }

    lemma WritersInRange()
      requires Valid(0, 0)
      ensures Distinct(writesos) && forall k :: 0 <= k < |writesos| ==> 0 < writesos[k] < |sos|
    {
      assert forall k :: 0 <= k < |writesos| ==> writesos[k] in writesos;
    }

    lemma WatchedOrDone()
      requires Valid(0, 0) && writesos == []
      ensures forall j :: 0 < j < |sos| && sos[j].Live() && sos[j].wbuf != [] ==> sos[j].interest == Both
    {
      forall j | 0 < j < |sos| && sos[j].Live() && sos[j].wbuf != [] ensures sos[j].interest == Both {
        assert sos[j].Fine() && j !in writesos;
      }
    }

    lemma IsFine(i: nat)
      requires Valid(0, 0) && 0 < i < |sos|
      ensures Valid(i, 0) && sos[i].Fine() && (!sos[i].bad && !sos[i].free ==> Held(sos[i]))
    {
    }

    /** somgr_proc_accept (somgr.c:276-309); n is the socket that it enters. */
    method ProcAccept(i: nat, ev: Event) returns (o: Outcome, ghost n: nat, ghost steps: seq<seq<So>>)
      requires Valid(0, 0) && 0 < i < |sos| && sos[i].listen && !sos[i].free && !ev.hangup
      modifies this
      ensures Valid(0, 0) && Others(old(sos), sos, i, ev)
      ensures o != StaleFails && (o == AcceptFails <==> ev.accept == NotAdded && Opened(old(Here()), false).Some?)
      ensures o == NullSocket <==> AcceptNull(ev, old(Here()))
      ensures o == Served ==> Kicked(old(sos), sos, i, ev) && Exactly(old(sos), sos, i, ev, steps)
      ensures o == Served && ev.accept == Added ==>
                && 0 < n < |steps[0]| && n == Frees(old(sos), old(freesos), |steps[0]|)[0]
                && (n < |old(sos)| ==> old(sos)[n].free)
                && (!Names(ev.ops, |ev.ops|, n) ==> n < |sos| && sos[n] == READER)
    {
      hide Whole, Names, Kicks, PoolAfter, Opened, Evolves, Valid, Ran, Frees, Exactly, Kicked, Moved;
      SameEvolves(sos);
      n, steps := 0, [];
      match ev.accept {
        case NotNow =>
          NotCalledBack(old(sos), sos, i, ev);
          QuietTurn(old(sos), sos, i, ev);
          return Served, n, steps;
        case NoSocket => return NullSocket, n, steps;  // somgr_remove_so of the null pointer
        case NotAdded =>
          // somgr_remove_so of the socket that is on the queue of free ones by now
          var id := Enter(false, false, false, 0);
          return if id == 0 then NullSocket else AcceptFails, n, steps;
        case Added =>
          var id := Enter(false, false, true, 0);
          if id == 0 {
            return NullSocket, n, steps;
          }
          n := id;
          ghost var mid := sos;
          assert Enters(old(sos), mid, n, READER);
          var ok;
          ok, steps := RunOps(ev.ops, 0);
          NotNamed(mid, sos, ev.ops, |steps| - 1, n);
          MovedOthers(old(sos), mid, sos, sos, i, ev, |steps| - 1);
          if ok {
            CalledTurn(old(sos), sos, i, ev, steps);
          }
          return if ok then Served else NullSocket, n, steps;
      }
    }

    /** The body of the last loop of somgr_runonce (somgr.c:339-353), also for a socket that an earlier
        callback has made bad. */
    method Serve(i: nat, ev: Event) returns (o: Outcome)
      requires Valid(0, 0) && 0 < i < |sos| && Due(sos[i], ev)
      modifies this
      ensures Valid(0, 0) && Others(old(sos), sos, i, ev)
      ensures o == StaleFails <==> Stale(old(sos)[i], ev)
      ensures o == AcceptFails <==> RefusesAccepted(old(sos)[i], ev, old(Here()))
      ensures o == NullSocket <==> ComesToNull(old(sos)[i], ev, old(Here()))
      ensures o == Served ==> Turn(old(sos), sos, i, ev)
    {
      hide So.Fine, Evolves, Whole, Valid, Names, Kicks, PoolAfter, Opened, Gives, Ran;
      IsFine(i);
      SameEvolves(sos);
      ghost var steps := [];
      if ev.hangup {
        RemoveSo(i, 0);
        o := Served;
      } else if sos[i].listen {
        ghost var n;
        o, n, steps := ProcAccept(i, ev);
      } else if sos[i].connecting {
        assert ev.output;
        var ok;
        ok, steps := ProcConnected(i, ev);
        o := if ok then Served else NullSocket;
      } else {
        o, steps := ProcRw(i, ev);
      }
      assert o == Served ==> Exactly(old(sos), sos, i, ev, steps);
    }

    /** How serving ends, as far as the pool does not matter. */
    lemma ServedOrBroken(so: So, ev: Event, p: Pool, o: Outcome)
      requires o == StaleFails <==> Stale(so, ev)
      requires o == AcceptFails <==> RefusesAccepted(so, ev, p)
      requires o == NullSocket <==> ComesToNull(so, ev, p)
      ensures if o == Served then !Breaks(so, ev) else BrokenOff(so, ev, o)
    {
      hide PoolAfter, Opened, Gives;
      if o == NullSocket {
        NullCause(so, ev, p);
      }
    }

    /** The last loop of somgr_runonce (somgr.c:338-354) over the events reported.  `states` are the
        sockets before each turn and after the last one. */
    method ServeAll(evs: seq<(nat, Event)>) returns (o: Outcome, ghost states: seq<seq<So>>)
      requires Valid(0, 0) && AllDue(sos, evs, 0)
      modifies this
      ensures Valid(0, 0) && states != [] && states[0] == old(sos) && Batch(states, evs, o)
      ensures o == Served ==> states[|states| - 1] == sos
    {
      hide Valid, AllDue, Turn, Others, Turns, Batch, Stale, Due, Breaks, BrokenOff, ComesToNull, RefusesAccepted;
      var k := 0;
      o, states := Served, [sos];
      NoTurns(sos, evs);
      while k < |evs|
        invariant |states| == k + 1 && 0 <= k <= |evs| && Valid(0, 0) && AllDue(sos, evs, k)
                  && AllDue(states[0], evs, 0)
        invariant o == Served && states[0] == old(sos) && states[k] == sos && Turns(states, evs)
      {
        ghost var was, p := sos, Here();
        NextDue(sos, evs, k);
        o := Serve(evs[k].0, evs[k].1);
        ServedOrBroken(was[evs[k].0], evs[k].1, p, o);
        if o != Served {
          BreaksOff(states, evs, o);
          return;
        }
        StillDue(was, sos, evs, k);
        MoreTurns(states, sos, evs);
        states := states + [sos];
        k := k + 1;
      }
      Ends(states, evs);
    }

    /** somgr_runonce (somgr.c:311-355).  Of `wanted`, epoll_wait reports what it watches for; `reaped`
        says whether the error callbacks did without the null socket.  `turns` are the sockets as the
        first loop goes on, `queue` is the queue of writers that it leaves, and `states` are the
        sockets as the events are served. */
    method RunOnce(callbacks: seq<seq<Op>>, answers: seq<Sys>, wanted: seq<(nat, Event)>)
      returns (reaped: bool, o: Outcome, ghost turns: seq<seq<So>>, ghost queue: seq<nat>, ghost states: seq<seq<So>>)
      requires Valid(0, 0)
      modifies this
      ensures !reaped ==> o == NullSocket && exists k :: 0 <= k < |callbacks| && !NoOpens(callbacks[k])
      ensures Reapings(turns, callbacks) && turns[0] == old(sos)
      ensures reaped ==>
                var mid := turns[|turns| - 1];
                && (forall j :: 0 < j < |mid| ==> !mid[j].bad)
                && (forall j :: 0 < j < |mid| && mid[j].Live() && mid[j].writable && mid[j].wbuf != [] ==> j in queue)
                && states != [] && WritersFlushed(mid, states[0], queue, answers)
      ensures reaped ==> Valid(0, 0) && Batch(states, Reported(states[0], wanted), o)
      ensures reaped && o == Served ==> states[|states| - 1] == sos
      ensures reaped ==> forall j :: 0 < j < |states[0]| ==> states[0][j].Fine()
      ensures reaped ==>
                forall j :: 0 < j < |states[0]| && states[0][j].Live() && states[0][j].wbuf != [] ==>
                    states[0][j].interest == Both
    {
      hide NoOpens, Evolves, Batch, Reported, Queues, So.Fine, AllDue, NoneBad, Reapings, WritersFlushed;
      o, queue, states := NullSocket, [], [];
      reaped, turns := ReapBad(callbacks);
      if !reaped {
        return;
      }
      QueuedWriters();
      queue := writesos;
      FlushWriters(answers);
      ReportedDue(sos, wanted);
      o, states := ServeAll(Reported(sos, wanted));
    }

    lemma QueuedWriters()
      requires Valid(0, 0)
      ensures forall j :: 0 < j < |sos| && sos[j].Live() && sos[j].writable && sos[j].wbuf != [] ==> j in writesos
    {
      forall j | 0 < j < |sos| && sos[j].Live() && sos[j].writable && sos[j].wbuf != [] ensures j in writesos {
        OutputKept(j);
      }
    }
  }
}
