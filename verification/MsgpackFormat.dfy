/**
 The MessagePack format by itself: first bytes and big-endian numbers, written out.  What is packed is in
 this format, in its shortest form, and exactly what is in this format is unpacked.
 */
module MsgpackFormat {
  import opened LuaValues
  import opened Msgpack
  import opened MsgpackRoundTrip

  function Two(e: Bytes, i: nat): nat
    requires i + 2 <= |e|
  {
    e[i] as nat * 0x100 + e[i + 1]
  }

  function Four(e: Bytes, i: nat): nat
    requires i + 4 <= |e|
  {
    e[i] as nat * 0x100_0000 + e[i + 1] as nat * 0x1_0000 + e[i + 2] as nat * 0x100 + e[i + 3]
  }

  function Eight(e: Bytes, i: nat): nat
    requires i + 8 <= |e|
  {
    Four(e, i) * 0x1_0000_0000 + Four(e, i + 4)
  }

  /** A number from the upper half stands for a negative one. */
  function AsSigned(n: nat, half: nat): int { if n >= half then n - 2 * half else n }

  /** The nine formats of an integer.  One of 8 bytes without a sign goes through an int64 here. */
  predicate IntFormat(e: Bytes, n: int) {
    || (|e| == 1 && 0 <= n < 0x80 && e[0] == n)
    || (|e| == 1 && -0x20 <= n < 0 && e[0] == n + 0x100)
    || (|e| == 2 && e[0] == 0xcc && n == e[1])
    || (|e| == 3 && e[0] == 0xcd && n == Two(e, 1))
    || (|e| == 5 && e[0] == 0xce && n == Four(e, 1))
    || (|e| == 9 && e[0] == 0xcf && n == AsSigned(Eight(e, 1), 0x8000_0000_0000_0000))
    || (|e| == 2 && e[0] == 0xd0 && n == AsSigned(e[1], 0x80))
    || (|e| == 3 && e[0] == 0xd1 && n == AsSigned(Two(e, 1), 0x8000))
    || (|e| == 5 && e[0] == 0xd2 && n == AsSigned(Four(e, 1), 0x8000_0000))
    || (|e| == 9 && e[0] == 0xd3 && n == AsSigned(Eight(e, 1), 0x8000_0000_0000_0000))
  }

  /** The header of a string of length n. */
  predicate TextFormat(e: Bytes, n: nat) {
    || (|e| == 1 && n < 0x20 && e[0] == 0xa0 + n)
    || (|e| == 2 && e[0] == 0xd9 && n == e[1])
    || (|e| == 3 && e[0] == 0xda && n == Two(e, 1))
    || (|e| == 5 && e[0] == 0xdb && n == Four(e, 1))
  }

  /** The header of an array or a map of n items or fields. */
  predicate CountFormat(e: Bytes, isMap: bool, n: nat) {
    || (|e| == 1 && n < 0x10 && e[0] == (if isMap then 0x80 else 0x90) + n)
    || (|e| == 3 && e[0] == (if isMap then 0xde else 0xdc) && n == Two(e, 1))
    || (|e| == 5 && e[0] == (if isMap then 0xdf else 0xdd) && n == Four(e, 1))
  }

  ghost predicate NumberFormat(e: Bytes, x: Number) {
    || (exists n :: IntFormat(e, n) && x == OfInt(n))
    || (|e| == 5 && e[0] == 0xca && x == OfSingle(Four(e, 1)))
    || (|e| == 9 && e[0] == 0xcb && x == OfDouble(Eight(e, 1)))
  }

  ghost predicate ScalarFormat(e: Bytes, x: Scalar) {
    match x
    case Bool(b) => e == [if b then 0xc3 else 0xc2]
    case Num(n) => NumberFormat(e, n)
    case Str(t) => |t| <= |e| && e[|e| - |t|..] == t && TextFormat(e[..|e| - |t|], |t|)
  }

  /** No format starts with such a byte. */
  predicate BadByte(b: Byte) { b == 0xc1 || 0xc4 <= b <= 0xc9 || 0xd4 <= b <= 0xd8 }

  // ---- big-endian numbers -----------------------------------------------------------

  lemma BigNext(s: Bytes, i: nat, w: nat)
    requires i + w + 1 <= |s|
    ensures Big(s, i, w + 1) == Big(s, i, w) * 0x100 + s[i + w]
  {
  }

  lemma BigNone(s: Bytes, i: nat)
    requires i <= |s|
    ensures Big(s, i, 0) == 0
  {
  }

  lemma BigIs(s: Bytes, i: nat)
    ensures i + 1 <= |s| ==> Big(s, i, 1) == s[i]
    ensures i + 2 <= |s| ==> Big(s, i, 2) == Two(s, i)
    ensures i + 4 <= |s| ==> Big(s, i, 4) == Four(s, i)
  {
    hide Big;
    if i + 1 <= |s| {
      BigNone(s, i);
      BigNext(s, i, 0);
    }
    if i + 2 <= |s| {
      BigNext(s, i, 1);
    }
    if i + 4 <= |s| {
      BigNext(s, i, 2);
      BigNext(s, i, 3);
    }
  }

  lemma BigEight(s: Bytes, i: nat)
    requires i + 8 <= |s|
    ensures Big(s, i, 8) == Eight(s, i)
  {
    hide Big;
    BigIs(s, i);
    BigNext(s, i, 4);
    BigNext(s, i, 5);
    BigNext(s, i, 6);
    BigNext(s, i, 7);
  }

  lemma Prefixes(e: Bytes, s: Bytes, i: nat)
    requires At(s, i, e)
    ensures forall j :: 0 <= j < |e| ==> e[j] == s[i + j]
  {
    forall j | 0 <= j < |e| ensures e[j] == s[i + j] {
      assert s[i..i + |e|][j] == s[i + j];
    }
  }

  /** The number behind a first byte, wherever the two stand. */
  lemma BigAt(e: Bytes, s: Bytes, i: nat)
    requires At(s, i, e) && |e| in {2, 3, 5, 9}
    ensures i + |e| <= |s| && s[i] == e[0] && Big(s, i + 1, |e| - 1) ==
            if |e| == 2 then e[1] else if |e| == 3 then Two(e, 1) else if |e| == 5 then Four(e, 1) else Eight(e, 1)
  {
    Prefixes(e, s, i);
    hide Big;
    if |e| == 9 {
      BigEight(s, i + 1);
    } else {
      BigIs(s, i + 1);
    }
  }

  lemma Halves()
    ensures Shl(1, 8) == 0x100 && Shl(1, 16) == 0x1_0000 && Shl(1, 32) == 0x1_0000_0000
    ensures Shl(1, 64) == 0x1_0000_0000_0000_0000
  {
    Widths();
    assert 8 * 1 == 8 && 8 * 2 == 16 && 8 * 4 == 32 && 8 * 8 == 64;
  }

  // ---- what is in the format is unpacked --------------------------------------------

  lemma IntIsRead(e: Bytes, n: int, s: Bytes, i: nat)
    requires IntFormat(e, n) && At(s, i, e)
    ensures Dec(s, i) == Ok(TSc(Num(OfInt(n))), i + |e|)
  {
    hide Big, Shl, OfInt, Eight, Four, Two, OfSingle, OfDouble;
    Halves();
    if |e| == 1 {
      Prefixes(e, s, i);
      SmallIsExact(n);
    } else {
      BigAt(e, s, i);
    }
  }

  lemma TextIsRead(e: Bytes, t: Bytes, s: Bytes, i: nat)
    requires TextFormat(e, |t|) && At(s, i, e + t)
    ensures Dec(s, i) == Ok(TSc(Str(t)), i + |e| + |t|)
  {
    hide Big, Four, Two;
    AtSplit(s, i, e, t);
    if |e| == 1 {
      Prefixes(e, s, i);
      BigNone(s, i + 1);
    } else {
      BigAt(e, s, i);
    }
  }

  /** Any format, not only the one that packing chooses. */
  lemma FormatIsRead(e: Bytes, x: Scalar, s: Bytes, i: nat)
    requires ScalarFormat(e, x) && At(s, i, e)
    ensures Dec(s, i) == Ok(TSc(x), i + |e|)
  {
    match x
    case Bool(b) => Prefixes(e, s, i);
    case Num(x) => NumberIsRead(e, x, s, i);
    case Str(t) =>
      assert e == e[..|e| - |t|] + t;
      TextIsRead(e[..|e| - |t|], t, s, i);
  }

  lemma NumberIsRead(e: Bytes, x: Number, s: Bytes, i: nat)
    requires NumberFormat(e, x) && At(s, i, e)
    ensures Dec(s, i) == Ok(TSc(Num(x)), i + |e|)
  {
    hide IntFormat, OfInt, OfSingle, OfDouble, At, Four, Eight, Big;
    if n :| IntFormat(e, n) && x == OfInt(n) {
      IntIsRead(e, n, s, i);
    } else {
      BigAt(e, s, i);
    }
  }

  /** So is the header of an array or a map, and what is behind it is read as that many items or fields. */
  lemma CountIsRead(e: Bytes, isMap: bool, n: nat, s: Bytes, i: nat)
    requires CountFormat(e, isMap, n) && At(s, i, e)
    ensures i + |e| <= |s|
    ensures Dec(s, i) == if isMap then DecFields(s, i + |e|, n, EMPTY_TREE) else DecItems(s, i + |e|, n, 1, EMPTY_TREE)
  {
    hide Big, Four, Two, DecFields, DecItems;
    if |e| == 1 {
      Prefixes(e, s, i);
      BigNone(s, i + 1);
    } else {
      BigAt(e, s, i);
    }
  }

  // ---- and nothing else -------------------------------------------------------------

  lemma BytesAt(s: Bytes, i: nat, k: nat)
    requires i + k <= |s|
    ensures At(s, i, s[i..i + k])
  {
  }

  lemma ReadInteger(s: Bytes, i: nat)
    requires i < |s| && (FormOf(s[i]).FixInt? || FormOf(s[i]).Unsigned? || FormOf(s[i]).Negative?) && Dec(s, i).Ok?
    ensures var r := Dec(s, i); r.v.TSc? && r.v.s.Num? && NumberFormat(s[i..r.next], r.v.s.n)
  {
    hide Big, Shl, OfInt, Eight, Four, Two, OfSingle, OfDouble;
    Halves();
    var r := Dec(s, i);
    var e := s[i..r.next];
    BytesAt(s, i, r.next - i);
    Prefixes(e, s, i);
    if FormOf(s[i]).FixInt? {
      SmallIsExact(FormOf(s[i]).i);
      assert IntFormat(e, FormOf(s[i]).i);
    } else {
      BigAt(e, s, i);
      var w := |e| - 1;
      var b := Big(s, i + 1, w);
      var n := if FormOf(s[i]).Unsigned? && w != 8 then b else TwosComplement(b, w);
      assert IntFormat(e, n);
    }
  }

  lemma TextByte(b: Byte)
    requires FormOf(b).Text?
    ensures var w, fixed := FormOf(b).w, FormOf(b).fixed;
            if w == 0 then fixed < 0x20 && b == 0xa0 + fixed
            else fixed == 0 && w in {1, 2, 4} && b == if w == 1 then 0xd9 else if w == 2 then 0xda else 0xdb
  {
  }

  lemma ReadHead(s: Bytes, i: nat)
    requires i < |s| && FormOf(s[i]).Text? && i + 1 + FormOf(s[i]).w <= |s|
    ensures var f := FormOf(s[i]); TextFormat(s[i..i + 1 + f.w], f.fixed + Big(s, i + 1, f.w))
  {
    TextByte(s[i]);
    hide Big, Four, Two, FormOf, At;
    var w := FormOf(s[i]).w;
    BytesAt(s, i, 1 + w);
    if w == 0 {
      BigNone(s, i + 1);
    } else {
      BigAt(s[i..i + 1 + w], s, i);
    }
  }

  lemma ReadText(s: Bytes, i: nat)
    requires i < |s| && FormOf(s[i]).Text? && Dec(s, i).Ok?
    ensures var r := Dec(s, i); r.v.TSc? && ScalarFormat(s[i..r.next], r.v.s)
  {
    hide Big, FormOf, TextFormat;
    ReadHead(s, i);
    var r, k := Dec(s, i), 1 + FormOf(s[i]).w;
    assert s[i..r.next][..k] == s[i..i + k] && s[i..r.next][k..] == r.v.s.s;
  }

  /** A string, boolean or number is only unpacked from bytes in its format, and nil from its one byte. */
  lemma ReadIsFormat(s: Bytes, i: nat)
    requires i <= |s| && Dec(s, i).Ok?
    ensures var r := Dec(s, i);
            && (r.v.TSc? ==> ScalarFormat(s[i..r.next], r.v.s))
            && (r.v.TNil? <==> s[i..r.next] == [0xc0])
  {
    var r := Dec(s, i);
    var f := FormOf(s[i]);
    assert s[i..r.next][0] == s[i];
    if f.FixInt? || f.Unsigned? || f.Negative? {
      ReadInteger(s, i);
    } else if f.Text? {
      ReadText(s, i);
    } else if f.Float? || f.DoubleFloat? {
      ReadFloat(s, i);
    } else if f.Items? {
      ReadTable(s, i);
    }
  }

  lemma ReadFloat(s: Bytes, i: nat)
    requires i < |s| && (FormOf(s[i]).Float? || FormOf(s[i]).DoubleFloat?) && Dec(s, i).Ok?
    ensures var r := Dec(s, i); r.v.TSc? && ScalarFormat(s[i..r.next], r.v.s)
  {
    hide Big, Four, Eight, OfSingle, OfDouble;
    var r := Dec(s, i);
    BytesAt(s, i, r.next - i);
    BigAt(s[i..r.next], s, i);
  }

  lemma ReadTable(s: Bytes, i: nat)
    requires i < |s| && FormOf(s[i]).Items? && Dec(s, i).Ok?
    ensures Dec(s, i).v.TTab?
  {
    hide Big;
    var w := FormOf(s[i]).w;
    var l := FormOf(s[i]).fixed + Big(s, i + 1, w);
    if FormOf(s[i]).isMap {
      FieldsGiveTable(s, i + 1 + w, l, EMPTY_TREE);
    } else {
      ItemsGiveTable(s, i + 1 + w, l, 1, EMPTY_TREE);
    }
  }

  lemma {:induction false} ItemsGiveTable(s: Bytes, i: nat, n: nat, j: nat, t: Tree)
    requires i <= |s| && t.TTab?
    ensures DecItems(s, i, n, j, t).Ok? ==> DecItems(s, i, n, j, t).v.TTab?
    decreases n
  {
    hide Dec, Put;
    if n > 0 && Dec(s, i).Ok? {
      ItemsGiveTable(s, Dec(s, i).next, n - 1, j + 1, Put(t, TSc(Num(Int(j))), Dec(s, i).v));
    }
  }

  lemma {:induction false} FieldsGiveTable(s: Bytes, i: nat, n: nat, t: Tree)
    requires i <= |s| && t.TTab?
    ensures DecFields(s, i, n, t).Ok? ==> DecFields(s, i, n, t).v.TTab?
    decreases n
  {
    hide Dec, Put;
    if n > 0 && Dec(s, i).Ok? {
      var k := Dec(s, i);
      var v := Dec(s, k.next);
      if v.Ok? && !BadKey(k.v) {
        FieldsGiveTable(s, v.next, n - 1, Put(t, k.v, v.v));
      }
    }
  }

  lemma BadForm(b: Byte)
    ensures FormOf(b).Bad? <==> BadByte(b)
  {
  }

  /** Bad format is reported exactly for the twelve first bytes that no format has. */
  lemma BadExactly(s: Bytes, i: nat)
    requires i < |s|
    ensures BadByte(s[i]) ==> Dec(s, i) == Err(BadFmt)
    ensures Dec([s[i]], 0) == Err(BadFmt) ==> BadByte(s[i])
  {
    BadForm(s[i]);
    hide FormOf, BadByte, Big, OfInt, OfSingle, OfDouble, TwosComplement, DecFields, DecItems;
    var e, f := [s[i]], FormOf(s[i]);
    if f.Items? && f.w == 0 {
      BigNone(e, 1);
      NothingLeft(e, f.fixed);
    }
  }

  lemma NothingLeft(e: Bytes, n: nat)
    requires |e| == 1
    ensures DecFields(e, 1, n, EMPTY_TREE) != Err(BadFmt) && DecItems(e, 1, n, 1, EMPTY_TREE) != Err(BadFmt)
  {
  }

  // ---- what is packed is in the format ----------------------------------------------

  lemma Self(e: Bytes)
    ensures At(e, 0, e)
  {
    assert e[0..|e|] == e;
  }

  lemma TaggedIs(b: Byte, n: nat, w: nat)
    requires w in {1, 2, 4, 8} && n < Shl(1, 8 * w)
    ensures var e := [b] + BE(n, w);
            && |e| == 1 + w && e[0] == b
            && n == if w == 1 then e[1] else if w == 2 then Two(e, 1) else if w == 4 then Four(e, 1) else Eight(e, 1)
  {
    var e := [b] + BE(n, w);
    Self(e);
    Tagged(e, 0, b, n, w);
    hide Big, BE, Shl;
    BigAt(e, e, 0);
  }

  lemma PackedInt(n: int)
    requires -0x8000_0000_0000_0000 <= n < 0x8000_0000_0000_0000
    ensures IntFormat(EncInt(n), n)
  {
    hide BE, Shl, Two, Four, Eight;
    Widths();
    if n > 127 {
      var w := if n <= 0xff then 1 else if n <= 0xffff then 2 else if n <= 0xffff_ffff then 4 else 8;
      TaggedIs(if w == 1 then 0xcc else if w == 2 then 0xcd else if w == 4 then 0xce else 0xcf, n, w);
    } else if n < -32 {
      var w := if n >= -128 then 1 else if n >= -32768 then 2 else if n >= -2147483648 then 4 else 8;
      TaggedIs(if w == 1 then 0xd0 else if w == 2 then 0xd1 else if w == 4 then 0xd2 else 0xd3, n + Shl(1, 8 * w), w);
    } else if n < 0 {
      OneByte(n + 0x100);
    }
  }

  function HeadOf(t: Bytes): Bytes { EncStr(t)[..|EncStr(t)| - |t|] }

  lemma PackedText(t: Bytes)
    requires |t| < 0x1_0000_0000
    ensures TextFormat(HeadOf(t), |t|) && EncStr(t) == HeadOf(t) + t
  {
    hide BE, Shl, Two, Four, Eight;
    Widths();
    if |t| >= 32 {
      var w := if |t| <= 0xff then 1 else if |t| <= 0xffff then 2 else 4;
      var b := if w == 1 then 0xd9 else if w == 2 then 0xda else 0xdb;
      TaggedIs(b, |t|, w);
      assert HeadOf(t) == [b] + BE(|t|, w);
    } else {
      assert HeadOf(t) == [0xa0 + |t|];
    }
  }

  lemma PackedCount(isMap: bool, n: nat)
    requires n < 0x1_0000_0000
    ensures CountFormat(EncCount(isMap, n), isMap, n)
  {
    hide BE, Shl, Two, Four, Eight;
    Widths();
    if n > 15 {
      var w := if n <= 65535 then 2 else 4;
      TaggedIs(if isMap then (if w == 2 then 0xde else 0xdf) else if w == 2 then 0xdc else 0xdd, n, w);
    }
  }

  lemma PackedIsFormat(x: Scalar)
    requires x.Wf()
    ensures ScalarFormat(EncScalar(x), x)
  {
    hide BE, Shl, Two, Four, Eight, EncInt, EncStr, OfInt, OfSingle, OfDouble, IntFormat, TextFormat;
    Widths();
    match x
    case Bool(_) =>
    case Num(Int(i)) => PackedInt(i);
    case Num(Single(b)) => TaggedIs(0xca, b, 4);
    case Num(Double(b)) => TaggedIs(0xcb, b, 8);
    case Str(t) =>
      PackedText(t);
      assert EncStr(t)[..|EncStr(t)| - |t|] == HeadOf(t) && EncStr(t)[|EncStr(t)| - |t|..] == t;
  }

  // ---- in its shortest form ---------------------------------------------------------

  lemma ShortestText(e: Bytes, t: Bytes)
    requires TextFormat(e, |t|)
    ensures |EncStr(t)| <= |e + t|
  {
  }

  lemma ShortestCount(e: Bytes, isMap: bool, n: nat)
    requires CountFormat(e, isMap, n)
    ensures |EncCount(isMap, n)| <= |e|
  {
  }
}
