/** What cut and joined byte strings unpack to (lserial.c:513-544, 791-862). */
module MsgpackStreams {
  import opened Basics
  import opened LuaValues
  import opened Msgpack
  import opened MsgpackRoundTrip

  lemma {:induction false} BigExtends(s: Bytes, x: Bytes, i: nat, w: nat)
    requires s <= x && i + w <= |s|
    ensures Big(x, i, w) == Big(s, i, w)
  {
    if w > 0 {
      BigExtends(s, x, i, w - 1);
    }
  }

  /** More bytes behind only matter where there were too few. */
  lemma {:induction false} Extends(s: Bytes, x: Bytes, i: nat)
    requires s <= x && i <= |s|
    ensures Dec(s, i) != Err(Eof) ==> Dec(x, i) == Dec(s, i)
    decreases |s| - i, 0
  {
    hide OfSingle, OfDouble, OfInt, OfUnsigned, TwosComplement, Big, DecItems, DecFields;
    if i < |s| {
      match FormOf(s[i])
      case Unsigned(w) => ExtendsNumber(s, x, i, w);
      case Negative(w) => ExtendsNumber(s, x, i, w);
      case Float => ExtendsNumber(s, x, i, 4);
      case DoubleFloat => ExtendsNumber(s, x, i, 8);
      case Text(w, fixed) =>
        ExtendsNumber(s, x, i, w);
        if i + 1 + w <= |s| {
          ExtendsSlice(s, x, i + 1 + w, fixed + Big(s, i + 1, w));
        }
      case Items(isMap, w, fixed) =>
        ExtendsNumber(s, x, i, w);
        if i + 1 + w <= |s| {
          if isMap {
            ExtendsFields(s, x, i + 1 + w, fixed + Big(s, i + 1, w), EMPTY_TREE);
          } else {
            ExtendsItems(s, x, i + 1 + w, fixed + Big(s, i + 1, w), 1, EMPTY_TREE);
          }
        }
      case _ =>
    }
  }

  lemma ExtendsNumber(s: Bytes, x: Bytes, i: nat, w: nat)
    requires s <= x
    ensures i + 1 + w <= |s| ==> Big(x, i + 1, w) == Big(s, i + 1, w)
  {
    if i + 1 + w <= |s| {
      BigExtends(s, x, i + 1, w);
    }
  }

  lemma ExtendsSlice(s: Bytes, x: Bytes, i: nat, l: nat)
    requires s <= x
    ensures i + l <= |s| ==> x[i..i + l] == s[i..i + l]
  {
  }

  lemma {:induction false} ExtendsItems(s: Bytes, x: Bytes, i: nat, n: nat, j: nat, t: Tree)
    requires s <= x && i <= |s| && t.TTab?
    ensures DecItems(s, i, n, j, t) != Err(Eof) ==> DecItems(x, i, n, j, t) == DecItems(s, i, n, j, t)
    decreases |s| - i, n + 1
  {
    if n > 0 {
      Extends(s, x, i);
      var r := Dec(s, i);
      if r.Ok? {
        ExtendsItems(s, x, r.next, n - 1, j + 1, Put(t, TSc(Num(Int(j))), r.v));
      }
    }
  }

  lemma {:induction false} ExtendsFields(s: Bytes, x: Bytes, i: nat, n: nat, t: Tree)
    requires s <= x && i <= |s| && t.TTab?
    ensures DecFields(s, i, n, t) != Err(Eof) ==> DecFields(x, i, n, t) == DecFields(s, i, n, t)
    decreases |s| - i, n + 1
  {
    if n > 0 {
      Extends(s, x, i);
      var k := Dec(s, i);
      if k.Ok? {
        Extends(s, x, k.next);
        var v := Dec(s, k.next);
        if v.Ok? && !BadKey(k.v) {
          ExtendsFields(s, x, v.next, n - 1, Put(t, k.v, v.v));
        }
      }
    }
  }

  /** A packed value that is cut short, anywhere, runs out of bytes. */
  lemma CutIsEof(h: Heap, v: Value, cut: Bytes)
    requires PlainHeap(h) && v.Wf() && cut < Enc(h, v, 0)
    ensures Dec(cut, 0) == Err(Eof)
  {
    var e := Enc(h, v, 0);
    assert e[0..0 + |e|] == e;
    RoundTrip(h, v, 0, e, 0);
    Extends(cut, e, 0);
  }

  datatype Reply = Values(vs: seq<Tree>, next: nat) | Raise(e: Error)

  /** The loop of mp_unpack_full (lserial.c:814-822). */
  function Stream(s: Bytes, i: nat, limit: nat): (r: Reply)
    requires i <= |s|
    ensures r.Values? ==> i <= r.next <= |s| && (i < |s| && limit > 0 ==> i < r.next)
    decreases |s| - i
  {
    if i == |s| || limit == 0 then Values([], i) else
    var r := Dec(s, i);
    if r.Err? then Raise(r.e) else
    var rest := Stream(s, r.next, limit - 1);
    if rest.Raise? then rest else Values([r.v] + rest.vs, rest.next)
  }

  /** What an unpack function gives: values, and an offset unless all was asked for. */
  datatype Answer = Unpacked(vs: seq<Tree>, offset: Option<int>) | Raised(e: Error) | Refused

  const INT_MAX := 0x7fff_ffff

  /** A size stored in an `int`. */
  function ToInt(n: nat): int {
    var low := n % 0x1_0000_0000;
    if low > INT_MAX then low - 0x1_0000_0000 else low
  }

  /** mp_unpack_full (lserial.c:791-842); the next offset goes through an `int`. */
  function UnpackFull(s: Bytes, limit: int, offset: int): Answer {
    if offset < 0 || limit < 0 || offset > |s| then Refused else
    var all := limit == 0 && offset == 0;
    var r := Stream(s, offset, if all then INT_MAX else limit);
    if r.Raise? then Raised(r.e)
    else Unpacked(r.vs, if all then None else Some(if r.next == |s| then -1 else ToInt(r.next)))
  }

  /** mp_pack (lserial.c:513-544) */
  function Pack(h: Heap, vs: seq<Value>): Bytes {
    if vs == [] then [] else Enc(h, vs[0], 0) + Pack(h, vs[1..])
  }

  ghost function Unfolded(h: Heap, vs: seq<Value>): seq<Tree> {
    seq(|vs|, i requires 0 <= i < |vs| => Unfold(h, vs[i], 0))
  }

  lemma {:induction false} StreamOfPack(h: Heap, vs: seq<Value>, s: Bytes, i: nat, limit: nat)
    requires PlainHeap(h) && (forall v :: v in vs ==> v.Wf()) && |vs| <= limit
    requires At(s, i, Pack(h, vs)) && i + |Pack(h, vs)| == |s|
    ensures Stream(s, i, limit) == Values(Unfolded(h, vs), |s|)
  {
    hide Enc, Unfold, Dec, PlainHeap, Value.Wf, At, Pack, Unfolded;
    PackStep(h, vs, s, i);
    UnfoldedStep(h, vs);
    if vs != [] {
      RoundTrip(h, vs[0], 0, s, i);
      StreamOfPack(h, vs[1..], s, i + |Enc(h, vs[0], 0)|, limit - 1);
    }
  }

  lemma UnfoldedStep(h: Heap, vs: seq<Value>)
    ensures vs == [] ==> Unfolded(h, vs) == []
    ensures vs != [] ==> Unfolded(h, vs) == [Unfold(h, vs[0], 0)] + Unfolded(h, vs[1..])
  {
    hide Unfold;
  }

  lemma PackStep(h: Heap, vs: seq<Value>, s: Bytes, i: nat)
    requires At(s, i, Pack(h, vs))
    ensures i <= |s|
    ensures vs == [] ==> |Pack(h, vs)| == 0
    ensures vs != [] ==>
              var e, rest := Enc(h, vs[0], 0), Pack(h, vs[1..]);
              && At(s, i, e) && At(s, i + |e|, rest) && |Pack(h, vs)| == |e| + |rest|
  {
    hide Enc, Unfold, Dec, PlainHeap, Value.Wf;
    if vs != [] {
      AtSplit(s, i, Enc(h, vs[0], 0), Pack(h, vs[1..]));
    }
  }

  /** Unpacking what was packed gives the trees of the values packed. */
  lemma UnpackPack(h: Heap, vs: seq<Value>)
    requires PlainHeap(h) && (forall v :: v in vs ==> v.Wf()) && |vs| <= INT_MAX
    ensures UnpackFull(Pack(h, vs), 0, 0) == Unpacked(Unfolded(h, vs), None)
  {
    var s := Pack(h, vs);
    assert s[0..0 + |s|] == s;
    StreamOfPack(h, vs, s, 0, INT_MAX);
  }

  datatype Collected = Got(vs: seq<Tree>) | Failed(e: Error)

  /** Unpacking at most k values at a time, each time from the offset returned last. */
  function Chunks(s: Bytes, offset: nat, k: nat): Collected
    requires offset <= |s| <= INT_MAX && k > 0
    decreases |s| - offset
  {
    var a := UnpackFull(s, k, offset);
    if a.Raised? then Failed(a.e)
    else if a.offset.value == -1 then Got(a.vs)
    else
      var rest := Chunks(s, a.offset.value, k);
      if rest.Failed? then rest else Got(a.vs + rest.vs)
  }

  /** A limit beyond the number of bytes is none. */
  lemma {:induction false} LimitIdle(s: Bytes, i: nat, l: nat, m: nat)
    requires i <= |s| && |s| - i <= l && |s| - i <= m
    ensures Stream(s, i, l) == Stream(s, i, m)
    decreases |s| - i
  {
    if i < |s| && Dec(s, i).Ok? {
      LimitIdle(s, Dec(s, i).next, l - 1, m - 1);
    }
  }

  /** The first k values, and then the others. */
  lemma {:induction false} StreamSplits(s: Bytes, i: nat, k: nat, l: nat)
    requires i <= |s| && |s| - i <= l && k <= l
    ensures Stream(s, i, k).Raise? ==> Stream(s, i, l) == Stream(s, i, k)
    ensures Stream(s, i, k).Values? ==>
              var first := Stream(s, i, k);
              var rest := Stream(s, first.next, l);
              Stream(s, i, l) == if rest.Raise? then rest else Values(first.vs + rest.vs, rest.next)
    decreases |s| - i
  {
    hide Dec;
    if i == |s| || k == 0 {
      var rest := Stream(s, i, l);
      assert rest.Values? ==> [] + rest.vs == rest.vs;
    } else if Dec(s, i).Ok? {
      var r := Dec(s, i);
      StreamSplits(s, r.next, k - 1, l - 1);
      var first := Stream(s, r.next, k - 1);
      if first.Values? {
        LimitIdle(s, first.next, l, l - 1);
        var rest := Stream(s, first.next, l);
        assert rest.Values? ==> [r.v] + (first.vs + rest.vs) == [r.v] + first.vs + rest.vs;
      }
    }
  }

  lemma ChunksStep(s: Bytes, offset: nat, k: nat)
    requires offset <= |s| <= INT_MAX && 0 < k
    ensures var first := Stream(s, offset, k);
            if first.Raise? then Chunks(s, offset, k) == Failed(first.e)
            else if first.next == |s| then Chunks(s, offset, k) == Got(first.vs)
            else
              && offset < first.next
              && var rest := Chunks(s, first.next, k);
                 Chunks(s, offset, k) == if rest.Failed? then rest else Got(first.vs + rest.vs)
  {
    hide Stream, Dec;
  }

  lemma StreamEnd(s: Bytes, limit: nat, first: seq<Tree>)
    ensures Stream(s, |s|, limit) == Values([], |s|) && first + [] == first
  {
  }

  lemma {:induction false} ChunksAreStream(s: Bytes, offset: nat, k: nat, l: nat)
    requires offset <= |s| <= l && 0 < k && |s| <= INT_MAX
    ensures var r := Stream(s, offset, l);
            Chunks(s, offset, k) == if r.Raise? then Failed(r.e) else Got(r.vs)
    decreases |s| - offset
  {
    hide Stream, Chunks, Dec;
    LimitIdle(s, offset, l, k + l);
    StreamSplits(s, offset, k, k + l);
    ChunksStep(s, offset, k);
    var first := Stream(s, offset, k);
    if first.Values? {
      if first.next == |s| {
        StreamEnd(s, k + l, first.vs);
      } else {
        ChunksAreStream(s, first.next, k, l);
        LimitIdle(s, first.next, l, k + l);
      }
    }
  }

  /** Unpacking in pieces of any size gives the values, or the error, of unpacking at once. */
  lemma ChunksAgree(s: Bytes, k: nat)
    requires 0 < k && |s| <= INT_MAX
    ensures var whole := UnpackFull(s, 0, 0);
            Chunks(s, 0, k) == if whole.Raised? then Failed(whole.e) else Got(whole.vs)
  {
    ChunksAreStream(s, 0, k, INT_MAX);
  }
}
