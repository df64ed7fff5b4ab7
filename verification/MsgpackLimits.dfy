/** How far an unpack function gets with its limit and its offset (lserial.c:791-862). */
module MsgpackLimits {
  import opened Basics
  import opened LuaValues
  import opened Msgpack
  import opened MsgpackRoundTrip
  import opened MsgpackStreams

  /** The values vs stand one behind the other, the j-th at at[j]. */
  ghost predicate Reads(s: Bytes, at: seq<nat>, vs: seq<Tree>) {
    && |at| == |vs| + 1 && (forall j :: 0 <= j < |at| ==> at[j] <= |s|)
    && forall j :: 0 <= j < |vs| ==> Dec(s, at[j]) == Ok(vs[j], at[j + 1])
  }

  lemma ReadsCons(s: Bytes, i: nat, v: Tree, at: seq<nat>, vs: seq<Tree>)
    requires i <= |s| && Reads(s, at, vs) && Dec(s, i) == Ok(v, at[0])
    ensures Reads(s, [i] + at, [v] + vs)
  {
    hide Dec;
    var more, values := [i] + at, [v] + vs;
    forall j | 0 <= j < |values| ensures Dec(s, more[j]) == Ok(values[j], more[j + 1]) {
      if j > 0 {
        assert more[j] == at[j - 1] && values[j] == vs[j - 1] && more[j + 1] == at[j];
      }
    }
  }

  /** The loop reads values until it has as many as it may or the input is used up, or until one cannot
      be read. */
  lemma {:induction false} StreamReads(s: Bytes, i: nat, limit: nat) returns (at: seq<nat>, vs: seq<Tree>)
    requires i <= |s|
    ensures Reads(s, at, vs) && at[0] == i && |vs| <= limit
    ensures var r := Stream(s, i, limit);
            if r.Values? then r.vs == vs && r.next == at[|vs|] && (r.next == |s| || |vs| == limit)
            else |vs| < limit && at[|vs|] < |s| && Dec(s, at[|vs|]) == Err(r.e)
    decreases |s| - i
  {
    hide Dec, Reads;
    at, vs := [i], [];
    NothingRead(s, i);
    if i < |s| && limit > 0 && Dec(s, i).Ok? {
      var r := Dec(s, i);
      var at', vs' := StreamReads(s, r.next, limit - 1);
      ReadsCons(s, i, r.v, at', vs');
      ReadsEnd(s, at', vs');
      at, vs := [i] + at', [r.v] + vs';
    }
  }

  lemma NothingRead(s: Bytes, i: nat)
    requires i <= |s|
    ensures Reads(s, [i], [])
  {
  }

  lemma ReadsEnd(s: Bytes, at: seq<nat>, vs: seq<Tree>)
    requires Reads(s, at, vs)
    ensures |at| == |vs| + 1 && at[|vs|] <= |s|
  {
  }

  /** What an unpack function answers, for any input, limit and offset: values from the offset on, at
      most as many as asked for, fewer only where the input ends, and where to go on. */
  lemma UnpackReads(s: Bytes, limit: int, offset: int) returns (at: seq<nat>, vs: seq<Tree>)
    requires 0 <= limit && 0 <= offset <= |s|
    ensures var all := limit == 0 && offset == 0;
            var most := if all then 0x7fff_ffff else limit;
            && Reads(s, at, vs) && at[0] == offset && |vs| <= most
            && var a := UnpackFull(s, limit, offset);
               if a.Raised? then |vs| < most && at[|vs|] < |s| && Dec(s, at[|vs|]) == Err(a.e)
               else
                 && a.Unpacked? && a.vs == vs && (at[|vs|] == |s| || |vs| == most)
                 && a.offset == if all then None else Some(if at[|vs|] == |s| then -1 else ToInt(at[|vs|]))
  {
    hide Dec, Stream, Reads;
    at, vs := StreamReads(s, offset, if limit == 0 && offset == 0 then 0x7fff_ffff else limit);
    ReadsEnd(s, at, vs);
  }

  /** And it refuses just what no offset or limit can be. */
  lemma RefusedIs(s: Bytes, limit: int, offset: int)
    ensures UnpackFull(s, limit, offset) == Refused <==> limit < 0 || offset < 0 || offset > |s|
  {
    hide Stream;
  }

  lemma {:induction false} PackConcat(h: Heap, a: seq<Value>, b: seq<Value>)
    ensures Pack(h, a + b) == Pack(h, a) + Pack(h, b)
  {
    hide Enc;
    if a == [] {
      assert a + b == b && Pack(h, a) == [];
    } else {
      PackConcat(h, a[1..], b);
      assert (a + b)[0] == a[0] && (a + b)[1..] == a[1..] + b;
      Assoc(Enc(h, a[0], 0), Pack(h, a[1..]), Pack(h, b));
    }
  }

  /** The first k of the values vs that stand at i. */
  lemma {:induction false} StreamTakes(h: Heap, vs: seq<Value>, s: Bytes, i: nat, k: nat)
    requires PlainHeap(h) && (forall v :: v in vs ==> v.Wf()) && k <= |vs|
    requires At(s, i, Pack(h, vs))
    ensures i <= |s| && Stream(s, i, k) == Values(Unfolded(h, vs[..k]), i + |Pack(h, vs[..k])|)
  {
    hide Enc, Unfold, Dec, PlainHeap, Value.Wf, At, Pack, Unfolded;
    PackStep(h, vs, s, i);
    if k == 0 {
      NoneUnfolded(h, vs);
    } else {
      RoundTrip(h, vs[0], 0, s, i);
      StreamTakes(h, vs[1..], s, i + |Enc(h, vs[0], 0)|, k - 1);
      assert vs[1..][..k - 1] == vs[..k][1..];
      UnfoldedStep(h, vs[..k]);
      PackCons(h, vs[..k]);
      RoundTripLonger(h, vs[0], s, i);
    }
  }

  lemma NoneUnfolded(h: Heap, vs: seq<Value>)
    ensures Unfolded(h, vs[..0]) == [] && Pack(h, vs[..0]) == []
  {
  }

  lemma PackCons(h: Heap, vs: seq<Value>)
    requires vs != []
    ensures |Pack(h, vs)| == |Enc(h, vs[0], 0)| + |Pack(h, vs[1..])|
  {
    hide Enc;
  }

  /** A packed value is not empty. */
  lemma RoundTripLonger(h: Heap, v: Value, s: Bytes, i: nat)
    requires PlainHeap(h) && v.Wf() && At(s, i, Enc(h, v, 0))
    ensures i < |s| && |Enc(h, v, 0)| > 0
  {
    hide Enc, Unfold, PlainHeap, Value.Wf;
    RoundTrip(h, v, 0, s, i);
  }

  /** Where the i-th and the m-th of some packed values stand. */
  lemma Places(h: Heap, vs: seq<Value>, i: nat, m: nat)
    requires i <= m <= |vs|
    ensures var s, from := Pack(h, vs), |Pack(h, vs[..i])|;
            && At(s, from, Pack(h, vs[i..])) && from + |Pack(h, vs[i..])| == |s|
            && |Pack(h, vs[..m])| == from + |Pack(h, vs[i..m])| && |s| == |Pack(h, vs[..m])| + |Pack(h, vs[m..])|
  {
    hide Pack;
    assert vs == vs[..i] + vs[i..] && vs == vs[..m] + vs[m..] && vs[..m] == vs[..i] + vs[i..m];
    PackConcat(h, vs[..i], vs[i..]);
    PackConcat(h, vs[..m], vs[m..]);
    PackConcat(h, vs[..i], vs[i..m]);
  }

  /** Unpacking k values from where the i-th of some packed values stands: it gives just those, cut at
      the end, and -1 or where the next one stands. */
  lemma UnpackSome(h: Heap, vs: seq<Value>, i: nat, k: nat)
    requires PlainHeap(h) && (forall v :: v in vs ==> v.Wf()) && |Pack(h, vs)| <= INT_MAX
    requires i <= |vs| && k >= 1
    ensures var m := if i + k < |vs| then i + k else |vs|;
            UnpackFull(Pack(h, vs), k, |Pack(h, vs[..i])|) ==
            Unpacked(Unfolded(h, vs[i..m]), Some(if m == |vs| then -1 else |Pack(h, vs[..m])|))
  {
    hide Enc, Unfold, Dec, PlainHeap, Value.Wf, Pack, Unfolded, At;
    var m := if i + k < |vs| then i + k else |vs|;
    var s, from := Pack(h, vs), |Pack(h, vs[..i])|;
    Places(h, vs, i, m);
    if m == |vs| {
      assert vs[i..m] == vs[i..];
      StreamOfPack(h, vs[i..], s, from, k);
    } else {
      StreamTakes(h, vs[i..], s, from, k);
      assert vs[i..][..k] == vs[i..m];
      SomeLeft(h, vs[m..]);
    }
  }

  lemma SomeLeft(h: Heap, vs: seq<Value>)
    requires PlainHeap(h) && (forall v :: v in vs ==> v.Wf()) && vs != []
    ensures |Pack(h, vs)| > 0
  {
    hide Unfold, PlainHeap, Value.Wf, Dec;
    var e := Enc(h, vs[0], 0);
    assert e[0..0 + |e|] == e;
    RoundTripLonger(h, vs[0], e, 0);
  }
}
