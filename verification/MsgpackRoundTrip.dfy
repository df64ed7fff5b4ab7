/** Unpacking what was packed. */
module MsgpackRoundTrip {
  import opened LuaValues
  import opened Msgpack

  /** e stands at i. */
  predicate At(s: Bytes, i: nat, e: Bytes) {
    i + |e| <= |s| && s[i..i + |e|] == e
  }

  lemma AtSplit(s: Bytes, i: nat, a: Bytes, b: Bytes)
    requires At(s, i, a + b)
    ensures At(s, i, a) && At(s, i + |a|, b)
  {
    assert s[i..i + |a|] == (a + b)[..|a|] == a;
    assert s[i + |a|..i + |a| + |b|] == (a + b)[|a|..] == b;
  }

  lemma {:induction false} BigBE(s: Bytes, i: nat, n: nat, w: nat)
    requires At(s, i, BE(n, w)) && n < Shl(1, 8 * w)
    ensures Big(s, i, w) == n
  {
    if w > 0 {
      AtSplit(s, i, BE(n / 0x100, w - 1), [n % 0x100]);
      ShlByte(w - 1);
      BigBE(s, i, n / 0x100, w - 1);
      assert s[i + w - 1..i + w][0] == n % 0x100;
    }
  }

  lemma ShlByte(w: nat)
    ensures Shl(1, 8 * (w + 1)) == 0x100 * Shl(1, 8 * w)
  {
    assert 8 * (w + 1) == 8 * w + 8;
    var k := 8 * w;
    assert Shl(1, k + 8) == 2 * Shl(1, k + 7) && Shl(1, k + 7) == 2 * Shl(1, k + 6);
    assert Shl(1, k + 6) == 2 * Shl(1, k + 5) && Shl(1, k + 5) == 2 * Shl(1, k + 4);
    assert Shl(1, k + 4) == 2 * Shl(1, k + 3) && Shl(1, k + 3) == 2 * Shl(1, k + 2);
    assert Shl(1, k + 2) == 2 * Shl(1, k + 1) && Shl(1, k + 1) == 2 * Shl(1, k);
  }

  lemma Widths()
    ensures Shl(1, 8 * 0) == 1 && Shl(1, 8 * 1) == 0x100 && Shl(1, 8 * 2) == 0x1_0000
    ensures Shl(1, 8 * 4) == 0x1_0000_0000 && Shl(1, 8 * 8) == 0x1_0000_0000_0000_0000
  {
    ShlByte(0);
    ShlByte(1);
    ShlByte(2);
    ShlByte(3);
    ShlByte(4);
    ShlByte(5);
    ShlByte(6);
    ShlByte(7);
  }

  /** A first byte followed by a number. */
  lemma Tagged(s: Bytes, i: nat, b: Byte, n: nat, w: nat)
    requires At(s, i, [b] + BE(n, w)) && n < Shl(1, 8 * w)
    ensures i + 1 + w <= |s| && s[i] == b && Big(s, i + 1, w) == n
  {
    AtSplit(s, i, [b], BE(n, w));
    assert s[i..i + 1][0] == b;
    BigBE(s, i + 1, n, w);
  }

  lemma DecUnsigned(n: nat, s: Bytes, i: nat, b: Byte, w: nat)
    requires FormOf(b) == Unsigned(w) && n < Shl(1, 8 * w) && At(s, i, [b] + BE(n, w))
    ensures Dec(s, i) == Ok(TSc(Num(OfUnsigned(n, w))), i + 1 + w)
  {
    hide FormOf, BE, Shl, Big, OfUnsigned;
    Tagged(s, i, b, n, w);
  }

  lemma DecSigned(n: int, s: Bytes, i: nat, b: Byte, w: nat)
    requires FormOf(b) == Negative(w) && n < 0 <= 2 * n + Shl(1, 8 * w)
    requires At(s, i, [b] + BE(n + Shl(1, 8 * w), w))
    ensures Dec(s, i) == Ok(TSc(Num(OfInt(n))), i + 1 + w)
  {
    hide FormOf, BE, Shl, Big, OfInt;
    Tagged(s, i, b, n + Shl(1, 8 * w), w);
  }

  lemma DecFix(n: int, s: Bytes, i: nat, b: Byte)
    requires FormOf(b) == FixInt(n) && At(s, i, [b])
    ensures Dec(s, i) == Ok(TSc(Num(Int(n))), i + 1)
  {
    hide FormOf;
    assert s[i..i + 1][0] == b;
  }

  lemma OneByte(n: nat)
    requires n < 0x100
    ensures BE(n, 1) == [n]
  {
  }

  lemma DecInt(n: int, s: Bytes, i: nat)
    requires Int(n).Wf() && At(s, i, EncInt(n))
    ensures Dec(s, i) == Ok(TSc(Num(Int(n))), i + |EncInt(n)|)
  {
    hide BE, Shl, Big, OfInt, Dec, At;
    if n < 0 {
      DecNegative(n, s, i);
    } else if n <= 127 {
      DecFix(n, s, i, n);
    } else {
      Widths();
      var w := if n <= 0xff then 1 else if n <= 0xffff then 2 else if n <= 0xffff_ffff then 4 else 8;
      DecUnsigned(n, s, i, if w == 1 then 0xcc else if w == 2 then 0xcd else if w == 4 then 0xce else 0xcf, w);
    }
  }

  lemma DecNegative(n: int, s: Bytes, i: nat)
    requires Int(n).Wf() && At(s, i, EncInt(n)) && n < 0
    ensures Dec(s, i) == Ok(TSc(Num(Int(n))), i + |EncInt(n)|)
  {
    hide BE, Shl, Big, OfInt, Dec, At;
    if n >= -32 {
      OneByte(n + 0x100);
      DecFix(n, s, i, n + 0x100);
    } else {
      Widths();
      var w := if n >= -128 then 1 else if n >= -32768 then 2 else if n >= -2147483648 then 4 else 8;
      DecSigned(n, s, i, if w == 1 then 0xd0 else if w == 2 then 0xd1 else if w == 4 then 0xd2 else 0xd3, w);
    }
  }

  lemma TextHead(x: Bytes, s: Bytes, i: nat)
    requires |x| < 0x1_0000_0000 && At(s, i, EncStr(x))
    ensures var n := |EncStr(x)| - |x|;
            && n >= 1 && At(s, i + n, x) && FormOf(s[i]).Text? && FormOf(s[i]).w == n - 1
            && FormOf(s[i]).fixed + Big(s, i + 1, n - 1) == |x|
  {
    if |x| < 32 {
      AtSplit(s, i, [0xa0 + |x|], x);
      assert s[i..i + 1][0] == 0xa0 + |x|;
    } else {
      var w := if |x| <= 0xff then 1 else if |x| <= 0xffff then 2 else 4;
      LongText(x, s, i, if w == 1 then 0xd9 else if w == 2 then 0xda else 0xdb, w);
    }
  }

  lemma LongText(x: Bytes, s: Bytes, i: nat, b: Byte, w: nat)
    requires |x| < 0x1_0000_0000 && w in {1, 2, 4} && (w == 1 ==> |x| < 0x100) && (w == 2 ==> |x| < 0x1_0000)
    requires At(s, i, [b] + BE(|x|, w) + x)
    ensures i + 1 + w <= |s| && s[i] == b && Big(s, i + 1, w) == |x| && At(s, i + 1 + w, x)
  {
    hide BE, Shl, Big, At;
    Widths();
    AtSplit(s, i, [b] + BE(|x|, w), x);
    Tagged(s, i, b, |x|, w);
  }

  lemma DecText(x: Bytes, s: Bytes, i: nat)
    requires |x| < 0x1_0000_0000 && At(s, i, EncStr(x))
    ensures Dec(s, i) == Ok(TSc(Str(x)), i + |EncStr(x)|)
  {
    hide EncStr, FormOf, Big;
    TextHead(x, s, i);
  }

  lemma DecScalar(x: Scalar, s: Bytes, i: nat)
    requires x.Wf() && At(s, i, EncScalar(x))
    ensures Dec(s, i) == Ok(TSc(x), i + |EncScalar(x)|)
  {
    Widths();
    match x
    case Bool(b) =>
      assert s[i..i + 1][0] == if b then 0xc3 else 0xc2;
    case Num(Int(n)) => DecInt(n, s, i);
    case Num(Single(bits)) => Tagged(s, i, 0xca, bits, 4);
    case Num(Double(bits)) => Tagged(s, i, 0xcb, bits, 8);
    case Str(x) => DecText(x, s, i);
  }

  lemma DecCount(isMap: bool, n: nat, s: Bytes, i: nat)
    requires n < 0x1_0000_0000 && At(s, i, EncCount(isMap, n))
    ensures var next := i + |EncCount(isMap, n)|;
            && next <= |s|
            && Dec(s, i) == if isMap then DecFields(s, next, n, EMPTY_TREE) else DecItems(s, next, n, 1, EMPTY_TREE)
  {
    hide BE, Shl, Big, Dec, DecFields, DecItems, At;
    if n <= 15 {
      ShortCount(isMap, n, s, i, (if isMap then 0x80 else 0x90) + n);
    } else {
      Widths();
      var w := if n <= 65535 then 2 else 4;
      var b := if isMap then (if w == 2 then 0xde else 0xdf) else if w == 2 then 0xdc else 0xdd;
      LongCount(isMap, n, s, i, b, w);
    }
  }

  lemma ShortCount(isMap: bool, n: nat, s: Bytes, i: nat, b: Byte)
    requires FormOf(b) == Items(isMap, 0, n) && At(s, i, [b])
    ensures i + 1 <= |s|
    ensures Dec(s, i) == if isMap then DecFields(s, i + 1, n, EMPTY_TREE) else DecItems(s, i + 1, n, 1, EMPTY_TREE)
  {
    hide FormOf, DecFields, DecItems;
    assert s[i..i + 1][0] == b;
  }

  lemma LongCount(isMap: bool, n: nat, s: Bytes, i: nat, b: Byte, w: nat)
    requires FormOf(b) == Items(isMap, w, 0) && n < Shl(1, 8 * w) && At(s, i, [b] + BE(n, w))
    ensures var next := i + 1 + w;
            && next <= |s|
            && Dec(s, i) == if isMap then DecFields(s, next, n, EMPTY_TREE) else DecItems(s, next, n, 1, EMPTY_TREE)
  {
    hide FormOf, BE, Shl, Big, DecFields, DecItems;
    Tagged(s, i, b, n, w);
  }

  lemma {:induction false} BigBound(s: Bytes, i: nat, w: nat)
    requires i + w <= |s|
    ensures Big(s, i, w) < Shl(1, 8 * w)
  {
    if w > 0 {
      BigBound(s, i, w - 1);
      ShlByte(w - 1);
    }
  }

  lemma SmallIsExact(i: int)
    requires -0x20_0000_0000_0000 < i < 0x20_0000_0000_0000
    ensures OfInt(i) == Int(i)
  {
  }

  lemma IntLength(n: int, w: nat)
    requires w == 8 || (w in {1, 2, 4} && 0 <= 2 * n + Shl(1, 8 * w) && n < Shl(1, 8 * w))
    ensures |EncInt(n)| <= 1 + w
  {
    Widths();
  }

  lemma ReadFix(n: int, x: Bytes)
    requires x != [] && FormOf(x[0]).FixInt? && Dec(x, 0) == Ok(TSc(Num(Int(n))), |x|)
    ensures |EncInt(n)| == 1
  {
    hide BE, Big, Shl, OfInt;
    assert FormOf(x[0]) == FixInt(n) && -32 <= n < 128;
  }

  lemma ReadInt(n: int, x: Bytes)
    requires x != [] && (FormOf(x[0]).Unsigned? || FormOf(x[0]).Negative?) && Dec(x, 0) == Ok(TSc(Num(Int(n))), |x|)
    ensures var w := FormOf(x[0]).w;
            |x| == 1 + w && (w == 8 || (w in {1, 2, 4} && 0 <= 2 * n + Shl(1, 8 * w) && n < Shl(1, 8 * w)))
  {
    hide Big, Shl, OfInt;
    var w := FormOf(x[0]).w;
    Widths();
    BigBound(x, 1, w);
    if w < 8 {
      SmallIsExact(Big(x, 1, w));
      SmallIsExact(TwosComplement(Big(x, 1, w), w));
    }
  }

  /** No other integer format that reads as n is shorter than the one chosen for n. */
  lemma ShortestInt(n: int, x: Bytes)
    requires x != [] && (FormOf(x[0]).FixInt? || FormOf(x[0]).Unsigned? || FormOf(x[0]).Negative?)
    requires Dec(x, 0) == Ok(TSc(Num(Int(n))), |x|)
    ensures |EncInt(n)| <= |x|
  {
    hide *;
    if FormOf(x[0]).FixInt? {
      ReadFix(n, x);
    } else {
      ReadInt(n, x);
      IntLength(n, FormOf(x[0]).w);
    }
  }

  /** A table that the round trip is promised for: its keys are strings, booleans and numbers. */
  ghost predicate Plain(t: Table) {
    t.Wf() && forall k :: k in t.fields ==> k.Sc?
  }

  ghost predicate PlainHeap(h: Heap) { forall r :: r in h ==> Plain(h[r]) }

  function Scalars(ks: set<Value>): set<Scalar> { set k | k in ks && k.Sc? :: k.s }

  /** The tree that v stands for, down to the level where packing stops.  The way a table is packed
      and the order of its keys play no part in it. */
  ghost function Unfold(h: Heap, v: Value, level: nat): Tree
    requires level <= MAX_NESTING
    decreases MAX_NESTING - level, 0
  {
    match v
    case Sc(s) => TSc(s)
    case Tab(r) =>
      if level == MAX_NESTING then TNil
      else TTab(Fields(h, TableAt(h, r), Scalars(TableAt(h, r).fields.Keys), level + 1), [])
    case _ => TNil
  }

  ghost function Fields(h: Heap, t: Table, ks: set<Scalar>, level: nat): map<Scalar, Tree>
    requires level <= MAX_NESTING
    decreases MAX_NESTING - level, 1
  {
    map s | s in ks && !Unfold(h, t.Get(Sc(s)), level).TNil? :: Unfold(h, t.Get(Sc(s)), level)
  }

  lemma PutField(h: Heap, t: Table, ks: set<Scalar>, k: Scalar, level: nat)
    requires level <= MAX_NESTING && !k.IsNan()
    ensures Put(TTab(Fields(h, t, ks, level), []), TSc(k), Unfold(h, t.Get(Sc(k)), level))
         == TTab(Fields(h, t, ks + {k}, level), [])
  {
    var v := Unfold(h, t.Get(Sc(k)), level);
    var before, after := Fields(h, t, ks, level), Fields(h, t, ks + {k}, level);
    assert (if v.TNil? then before - {k} else before[k := v]) == after;
  }

  lemma {:induction false} DistinctSize<T>(q: seq<T>)
    requires forall i, j :: 0 <= i < j < |q| ==> q[i] != q[j]
    ensures |set x | x in q| == |q|
  {
    if q == [] {
      assert (set x | x in q) == {};
    } else {
      DistinctSize(q[1..]);
      assert (set x | x in q) == {q[0]} + set x | x in q[1..];
    }
  }

  lemma OrderSize(t: Table)
    requires t.Wf()
    ensures |t.order| == |t.fields|
  {
    DistinctSize(t.order);
    assert t.fields.Keys == set x | x in t.order;
  }

  function Ints(j: int, n: int): set<Scalar> { set k | j <= k <= n :: Num(Int(k)) }

  lemma SequenceKeys(t: Table)
    requires IsSequence(t)
    ensures Scalars(t.fields.Keys) == Ints(1, |t.fields|)
    ensures forall j :: 1 <= j <= |t.fields| ==> Index(j) in t.fields
  {
    forall j | 1 <= j <= |t.fields| ensures Index(j) in t.fields && Num(Int(j)) in Scalars(t.fields.Keys) {
      assert Index(j) in (set i | 1 <= i <= |t.fields| :: Index(i)) && Index(j).s == Num(Int(j));
    }
  }

  /** Unpacking a packed value gives its tree and stops right after it, whatever stands behind;
      the heap may be cyclic, and keys may come in any order. */
  lemma {:induction false} RoundTrip(h: Heap, v: Value, level: nat, s: Bytes, i: nat)
    requires level <= MAX_NESTING && PlainHeap(h) && v.Wf()
    requires At(s, i, Enc(h, v, level))
    ensures Dec(s, i) == Ok(Unfold(h, v, level), i + |Enc(h, v, level)|)
    decreases MAX_NESTING - level, 0
  {
    if v.Sc? {
      DecScalar(v.s, s, i);
    } else if v.Tab? && level < MAX_NESTING {
      RoundTripTable(h, v, level, s, i);
    } else {
      assert s[i..i + 1][0] == 0xc0;
    }
  }

  lemma {:induction false} RoundTripTable(h: Heap, v: Value, level: nat, s: Bytes, i: nat)
    requires level < MAX_NESTING && PlainHeap(h) && v.Tab?
    requires At(s, i, Enc(h, v, level))
    ensures Dec(s, i) == Ok(Unfold(h, v, level), i + |Enc(h, v, level)|)
    decreases MAX_NESTING - level - 1, |TableAt(h, v.r).fields| + |TableAt(h, v.r).order| + 5
  {
    hide *;
    var t := TableAt(h, v.r);
    PlainTable(h, v.r);
    TableForms(h, v, level);
    if IsSequence(t) {
      var head, items := EncCount(false, |t.fields|), EncItems(h, t, 1, level + 1);
      AtSplit(s, i, head, items);
      DecCount(false, |t.fields|, s, i);
      RoundTripItems(h, t, 1, level + 1, s, i + |head|, {});
    } else {
      var head, fields := EncCount(true, |t.order|), EncFields(h, t, t.order, level + 1);
      AtSplit(s, i, head, fields);
      DecCount(true, |t.order|, s, i);
      RoundTripFields(h, t, t.order, level + 1, s, i + |head|, {});
    }
  }

  lemma PlainTable(h: Heap, r: Ref)
    requires PlainHeap(h)
    ensures Plain(TableAt(h, r)) && |TableAt(h, r).fields| < 0x1_0000_0000
    ensures |TableAt(h, r).order| == |TableAt(h, r).fields|
    ensures TableAt(h, r).Wf() && forall k :: k in TableAt(h, r).order ==> k in TableAt(h, r).fields
  {
    OrderSize(TableAt(h, r));
  }

  /** Both ways of packing a table, and the one way of reading it. */
  lemma TableForms(h: Heap, v: Value, level: nat)
    requires level < MAX_NESTING && v.Tab? && TableAt(h, v.r).Wf()
    ensures var t := TableAt(h, v.r);
            && (IsSequence(t) ==>
              && Enc(h, v, level) == EncCount(false, |t.fields|) + EncItems(h, t, 1, level + 1)
              && Unfold(h, v, level) == TTab(Fields(h, t, {} + Ints(1, |t.fields|), level + 1), []))
            && (!IsSequence(t) ==>
              && Enc(h, v, level) == EncCount(true, |t.order|) + EncFields(h, t, t.order, level + 1)
              && Unfold(h, v, level) == TTab(Fields(h, t, {} + Scalars(set k | k in t.order), level + 1), []))
            && TTab(Fields(h, t, {}, level + 1), []) == EMPTY_TREE
  {
    var t := TableAt(h, v.r);
    assert Fields(h, t, {}, level + 1) == map[];
    if IsSequence(t) {
      SequenceKeys(t);
      assert {} + Ints(1, |t.fields|) == Scalars(t.fields.Keys);
    } else {
      assert (set k | k in t.order) == t.fields.Keys;
      assert {} + Scalars(t.fields.Keys) == Scalars(t.fields.Keys);
    }
  }

  lemma ItemsSplit(h: Heap, t: Table, j: nat, level: nat, s: Bytes, i: nat)
    requires level <= MAX_NESTING && j <= |t.fields| && At(s, i, EncItems(h, t, j, level))
    ensures i <= |s|
    ensures var e, rest := Enc(h, t.Get(Index(j)), level), EncItems(h, t, j + 1, level);
            && At(s, i, e) && At(s, i + |e|, rest) && |EncItems(h, t, j, level)| == |e| + |rest|
  {
    hide Enc, IsSequence, Table.Get;
    AtSplit(s, i, Enc(h, t.Get(Index(j)), level), EncItems(h, t, j + 1, level));
  }

  lemma ItemKey(t: Table, j: nat, ks: set<Scalar>)
    requires Plain(t) && IsSequence(t) && 1 <= j <= |t.fields|
    ensures t.Get(Index(j)).Wf() && !Num(Int(j)).IsNan() && Index(j) == Sc(Num(Int(j)))
    ensures ks + {Num(Int(j))} + Ints(j + 1, |t.fields|) == ks + Ints(j, |t.fields|)
  {
    SequenceKeys(t);
    assert Index(j) in t.fields;
  }

  lemma ItemsEnd(h: Heap, t: Table, j: nat, level: nat, s: Bytes, i: nat, ks: set<Scalar>)
    requires level <= MAX_NESTING && j == |t.fields| + 1
    requires At(s, i, EncItems(h, t, j, level))
    ensures i <= |s| && |EncItems(h, t, j, level)| == 0 && ks + Ints(j, |t.fields|) == ks
    ensures DecItems(s, i, 0, j, TTab(Fields(h, t, ks, level), [])) == Ok(TTab(Fields(h, t, ks, level), []), i)
  {
    assert Ints(j, |t.fields|) == {};
  }

  lemma DecItemsStep(s: Bytes, i: nat, n: nat, j: nat, t: Tree)
    requires i <= |s| && t.TTab? && n > 0 && Dec(s, i).Ok?
    ensures DecItems(s, i, n, j, t) == DecItems(s, Dec(s, i).next, n - 1, j + 1, Put(t, TSc(Num(Int(j))), Dec(s, i).v))
  {
  }

  lemma {:induction false} RoundTripItems(h: Heap, t: Table, j: nat, level: nat, s: Bytes, i: nat, ks: set<Scalar>)
    requires level <= MAX_NESTING && PlainHeap(h) && Plain(t) && IsSequence(t) && 1 <= j <= |t.fields| + 1
    requires At(s, i, EncItems(h, t, j, level))
    ensures i <= |s|
    ensures DecItems(s, i, |t.fields| + 1 - j, j, TTab(Fields(h, t, ks, level), []))
         == Ok(TTab(Fields(h, t, ks + Ints(j, |t.fields|), level), []), i + |EncItems(h, t, j, level)|)
    decreases MAX_NESTING - level, |t.fields| + 2 - j
  {
    hide *;
    if j > |t.fields| {
      ItemsEnd(h, t, j, level, s, i, ks);
    } else {
      ItemsSplit(h, t, j, level, s, i);
      ItemKey(t, j, ks);
      var e := Enc(h, t.Get(Index(j)), level);
      RoundTrip(h, t.Get(Index(j)), level, s, i);
      DecItemsStep(s, i, |t.fields| + 1 - j, j, TTab(Fields(h, t, ks, level), []));
      PutField(h, t, ks, Num(Int(j)), level);
      RoundTripItems(h, t, j + 1, level, s, i + |e|, ks + {Num(Int(j))});
    }
  }

  lemma FieldsSplit(h: Heap, t: Table, keys: seq<Value>, level: nat, s: Bytes, i: nat)
    requires level <= MAX_NESTING && keys != [] && At(s, i, EncFields(h, t, keys, level))
    ensures i <= |s|
    ensures var ek, ev := Enc(h, keys[0], level), Enc(h, t.Get(keys[0]), level);
            var rest := EncFields(h, t, keys[1..], level);
            && At(s, i, ek) && At(s, i + |ek|, ev) && At(s, i + |ek| + |ev|, rest)
            && |EncFields(h, t, keys, level)| == |ek| + |ev| + |rest|
  {
    hide Enc, IsSequence, Table.Get;
    var ek, ev, rest := Enc(h, keys[0], level), Enc(h, t.Get(keys[0]), level), EncFields(h, t, keys[1..], level);
    assert EncFields(h, t, keys, level) == (ek + ev) + rest;
    AtSplit(s, i, ek + ev, rest);
    AtSplit(s, i, ek, ev);
  }

  lemma FieldKey(h: Heap, t: Table, keys: seq<Value>, level: nat, ks: set<Scalar>)
    requires level <= MAX_NESTING && Plain(t) && keys != [] && keys[0] in t.fields
    ensures keys[0].Sc? && keys[0].Wf() && t.Get(keys[0]).Wf() && !keys[0].s.IsNan()
    ensures ks + {keys[0].s} + Scalars(set x | x in keys[1..]) == ks + Scalars(set x | x in keys)
    ensures Unfold(h, keys[0], level) == TSc(keys[0].s)
  {
    assert (set x | x in keys) == {keys[0]} + set x | x in keys[1..];
  }

  lemma FieldsEnd(h: Heap, t: Table, level: nat, s: Bytes, i: nat, ks: set<Scalar>)
    requires level <= MAX_NESTING
    requires At(s, i, EncFields(h, t, [], level))
    ensures i <= |s| && |EncFields(h, t, [], level)| == 0 && ks + Scalars(set k: Value | k in []) == ks
    ensures DecFields(s, i, 0, TTab(Fields(h, t, ks, level), [])) == Ok(TTab(Fields(h, t, ks, level), []), i)
  {
    assert Scalars(set k: Value | k in []) == {};
  }

  lemma DecFieldsStep(s: Bytes, i: nat, n: nat, t: Tree)
    requires i <= |s| && t.TTab? && n > 0 && Dec(s, i).Ok? && Dec(s, Dec(s, i).next).Ok? && !BadKey(Dec(s, i).v)
    ensures var k := Dec(s, i);
            var v := Dec(s, k.next);
            DecFields(s, i, n, t) == DecFields(s, v.next, n - 1, Put(t, k.v, v.v))
  {
  }

  lemma NotBad(k: Scalar)
    requires !k.IsNan()
    ensures !BadKey(TSc(k))
  {
  }

  lemma {:induction false} RoundTripFields(h: Heap, t: Table, keys: seq<Value>, level: nat, s: Bytes, i: nat,
      ks: set<Scalar>)
    requires level <= MAX_NESTING && PlainHeap(h) && Plain(t) && forall k :: k in keys ==> k in t.fields
    requires At(s, i, EncFields(h, t, keys, level))
    ensures i <= |s|
    ensures DecFields(s, i, |keys|, TTab(Fields(h, t, ks, level), []))
         == Ok(TTab(Fields(h, t, ks + Scalars(set k | k in keys), level), []), i + |EncFields(h, t, keys, level)|)
    decreases MAX_NESTING - level, |keys| + 1
  {
    hide *;
    if keys == [] {
      FieldsEnd(h, t, level, s, i, ks);
    } else {
      var k := keys[0];
      FieldsSplit(h, t, keys, level, s, i);
      FieldKey(h, t, keys, level, ks);
      var ek, ev := Enc(h, k, level), Enc(h, t.Get(k), level);
      RoundTrip(h, k, level, s, i);
      RoundTrip(h, t.Get(k), level, s, i + |ek|);
      NotBad(k.s);
      DecFieldsStep(s, i, |keys|, TTab(Fields(h, t, ks, level), []));
      PutField(h, t, ks, k.s, level);
      RoundTripFields(h, t, keys[1..], level, s, i + |ek| + |ev|, ks + {k.s});
    }
  }
}
