/** How a table is packed: as an array or as a map, with its fields in the order of lua_next, and how deep. */
module MsgpackPacked {
  import opened Basics
  import opened LuaValues
  import opened Msgpack
  import opened MsgpackFormat
  import opened MsgpackRoundTrip
  import opened MsgpackTables

  /** The keys are the numbers from 1 on. */
  ghost predicate IsArray(t: Table) {
    forall k :: k in t.fields <==> k.Sc? && k.s.Num? && k.s.n.Int? && 1 <= k.s.n.i <= |t.fields|
  }

  lemma ArrayIsSequence(t: Table)
    ensures IsSequence(t) <==> IsArray(t)
  {
    var ks := set i | 1 <= i <= |t.fields| :: Index(i);
    forall k ensures k in ks <==> k.Sc? && k.s.Num? && k.s.n.Int? && 1 <= k.s.n.i <= |t.fields| {
      if k.Sc? && k.s.Num? && k.s.n.Int? && 1 <= k.s.n.i <= |t.fields| {
        assert k == Index(k.s.n.i);
      }
    }
    if IsArray(t) {
      assert t.fields.Keys == ks;
    }
  }

  /** A table starts with the header of an array of its items if its keys are 1 to n, and otherwise with that of
      a map of its fields. */
  lemma ArrayOrMap(h: Heap, r: Ref, level: nat) returns (k: nat)
    requires level < 16 && TableAt(h, r).Wf()
    ensures var t, p := TableAt(h, r), Enc(h, Tab(r), level);
            && k <= |p| && CountFormat(p[..k], !IsArray(t), |t.fields|)
            && (!IsArray(t) ==> p[k..] == EncFields(h, t, t.order, level + 1))
  {
    var t, p := TableAt(h, r), Enc(h, Tab(r), level);
    ArrayIsSequence(t);
    OrderSize(t);
    PackedCount(!IsSequence(t), |t.fields|);
    var e := EncCount(!IsSequence(t), |t.fields|);
    hide EncCount, EncItems, EncFields, IsSequence, CountFormat, Table.Wf;
    k := |e|;
    assert p[..k] == e;
  }

  /** Tables are followed for 16 levels: the next is packed as nil. */
  lemma NestingLimit(h: Heap, r: Ref, level: nat)
    requires level <= 16
    ensures Enc(h, Tab(r), level) == [0xc0] <==> level == 16
  {
    if level < 16 {
      FirstByte(IsSequence(TableAt(h, r)), |TableAt(h, r).fields|);
      FirstByte(IsSequence(TableAt(h, r)), |TableAt(h, r).order|);
      hide EncCount, EncItems, EncFields, IsSequence;
      assert Enc(h, Tab(r), level)[0] != 0xc0;
    }
  }

  lemma FirstByte(isArray: bool, n: nat)
    ensures EncCount(!isArray, n) != [] && EncCount(!isArray, n)[0] != 0xc0
  {
  }

  /** The packed fields are read one behind the other as the keys in their order, each with its value. */
  lemma {:induction false} FieldsInOrder(h: Heap, t: Table, keys: seq<Value>, level: nat, s: Bytes, i: nat)
    requires level <= MAX_NESTING && PlainHeap(h) && Plain(t) && forall k :: k in keys ==> k in t.fields
    requires At(s, i, EncFields(h, t, keys, level))
    ensures i <= |s| && Row(s, i, 2 * |keys|).Some?
    ensures Row(s, i, 2 * |keys|).value.1 == i + |EncFields(h, t, keys, level)|
    ensures var row := Row(s, i, 2 * |keys|).value.0;
            forall m :: 0 <= m < |keys| ==>
              KeyAt(row, m) == Unfold(h, keys[m], level) && ValueAt(row, m) == Unfold(h, t.Get(keys[m]), level)
    decreases |keys|
  {
    hide *;
    if keys == [] {
      FieldsEnd(h, t, level, s, i, {});
      NoRow(s, i);
    } else {
      var k, rest := keys[0], keys[1..];
      FieldsSplit(h, t, keys, level, s, i);
      FieldKey(h, t, keys, level, {});
      var ek, ev := Enc(h, k, level), Enc(h, t.Get(k), level);
      RoundTrip(h, k, level, s, i);
      RoundTrip(h, t.Get(k), level, s, i + |ek|);
      FieldsInOrder(h, t, rest, level, s, i + |ek| + |ev|);
      RowTwo(s, i, 2 * |rest|);
      var row, more := Row(s, i, 2 * |keys|).value.0, Row(s, i + |ek| + |ev|, 2 * |rest|).value.0;
      forall m | 0 <= m < |keys|
        ensures KeyAt(row, m) == Unfold(h, keys[m], level) && ValueAt(row, m) == Unfold(h, t.Get(keys[m]), level)
      {
        Shifted(Dec(s, i).v, Dec(s, i + |ek|).v, more, m);
      }
    }
  }

  lemma NoRow(s: Bytes, i: nat)
    requires i <= |s|
    ensures Row(s, i, 0) == Some(([], i))
  {
  }

  lemma Shifted(k: Tree, v: Tree, rest: seq<Tree>, m: nat)
    requires 2 * m < |rest| + 2 && |rest| % 2 == 0
    ensures KeyAt([k, v] + rest, m) == if m == 0 then k else KeyAt(rest, m - 1)
    ensures ValueAt([k, v] + rest, m) == if m == 0 then v else ValueAt(rest, m - 1)
  {
  }
}
