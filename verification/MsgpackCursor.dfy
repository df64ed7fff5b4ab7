/** The unpacking functions of common/lserial.c, which move a cursor over the input. */
module MsgpackCursor {
  import opened Basics
  import opened LuaValues
  import opened Msgpack
  import opened MsgpackRoundTrip
  import opened MsgpackStreams

  /** mp_cur (lserial.c:150-154) over the input `s`; `made` counts the values made so far. */
  class MpCur {
    const s: Bytes
    var p: nat
    var left: nat
    var err: Option<Error>
    ghost var made: nat

    /** mp_cur_init (lserial.c:156-160) */
    constructor (s: Bytes, offset: nat)
      requires offset <= |s|
      ensures Valid() && this.s == s && p == offset && err == None && made == 0
    {
      this.s := s;
      p := offset;
      left := |s| - offset;
      err := None;
      made := 0;
    }

    ghost predicate Valid()
      reads this
    {
      p + left == |s|
    }

    /** mp_cur_consume (lserial.c:162), after a value of n bytes was pushed. */
    method Pushed(n: nat)
      requires Valid() && n <= left
      modifies this
      ensures Valid() && p == old(p) + n && err == old(err) && made == old(made) + 1
    {
      p := p + n;
      left := left - n;
      made := made + 1;
    }

    /** The cursor, a value v and whether a Lua error was raised agree with a result. */
    ghost predicate After(r: Result, v: Tree, raised: bool)
      reads this
    {
      && Valid()
      && match r
         case Ok(t, next) => !raised && err == None && v == t && p == next
         case Err(LuaError) => raised && err == None
         case Err(e) => !raised && err == Some(e)
    }
  }

  lemma BigOne(s: Bytes, i: nat)
    requires i < |s|
    ensures Big(s, i, 1) == s[i]
  {
    assert Big(s, i, 0) == 0;
  }

  function Get2(s: Bytes, i: nat): nat
    requires i + 1 < |s|
  {
    (s[i] as int) * 0x100 + (s[i + 1] as int)
  }

  function Get4(s: Bytes, i: nat): nat
    requires i + 3 < |s|
  {
    (s[i] as int) * 0x100_0000 + (s[i + 1] as int) * 0x1_0000 + (s[i + 2] as int) * 0x100 + (s[i + 3] as int)
  }

  lemma BigTwo(s: Bytes, i: nat)
    requires i + 1 < |s|
    ensures Big(s, i, 2) == Get2(s, i)
  {
    BigOne(s, i);
  }

  lemma BigFour(s: Bytes, i: nat)
    requires i + 3 < |s|
    ensures Big(s, i, 4) == Get4(s, i)
  {
    BigTwo(s, i);
    assert Big(s, i, 3) == Big(s, i, 2) * 0x100 + s[i + 2];
  }

  lemma BigEight(s: Bytes, i: nat)
    requires i + 7 < |s|
    ensures Big(s, i, 8) == Big(s, i, 4) * 0x1_0000_0000 + Big(s, i + 4, 4)
  {
    BigFour(s, i + 4);
    assert Big(s, i, 5) == Big(s, i, 4) * 0x100 + s[i + 4];
    assert Big(s, i, 6) == Big(s, i, 5) * 0x100 + s[i + 5];
    assert Big(s, i, 7) == Big(s, i, 6) * 0x100 + s[i + 6];
  }

  /** The number that w = 1, 2, 4 or 8 bytes stand for: the shifts in the cases of the switch. */
  method Number(c: MpCur, w: nat) returns (n: nat)
    requires c.Valid() && w in {1, 2, 4, 8} && w < c.left
    ensures n == Big(c.s, c.p + 1, w)
  {
    if w == 1 {
      BigOne(c.s, c.p + 1);
      n := c.s[c.p + 1];
    } else if w == 2 {
      BigTwo(c.s, c.p + 1);
      n := Get2(c.s, c.p + 1);
    } else if w == 4 {
      BigFour(c.s, c.p + 1);
      n := Get4(c.s, c.p + 1);
    } else {
      BigFour(c.s, c.p + 1);
      BigFour(c.s, c.p + 5);
      BigEight(c.s, c.p + 1);
      n := Get4(c.s, c.p + 1) * 0x1_0000_0000 + Get4(c.s, c.p + 5);
    }
  }

  /** The cases of numbers with their bytes behind the first one (lserial.c:590-661, 674-695). */
  method DecodeNumber(c: MpCur) returns (v: Tree)
    requires c.Valid() && c.err == None && c.left > 0 && 0xca <= c.s[c.p] <= 0xd3
    modifies c
    ensures c.After(Dec(c.s, old(c.p)), v, false)
    ensures old(c.p) <= c.p && c.made - old(c.made) <= c.p - old(c.p)
  {
    var b := c.s[c.p];
    var w := if b == 0xcc || b == 0xd0 then 1 else if b == 0xcd || b == 0xd1 then 2
             else if b == 0xca || b == 0xce || b == 0xd2 then 4 else 8;
    v := TNil;
    if c.left < 1 + w {
      c.err := Some(Eof);
      return;
    }
    var n := Number(c, w);
    if b == 0xca {
      v := TSc(Num(OfSingle(n)));
    } else if b == 0xcb {
      v := TSc(Num(OfDouble(n)));
    } else if b <= 0xcf {
      v := TSc(Num(OfUnsigned(n, w)));
    } else {
      v := TSc(Num(OfInt(TwosComplement(n, w))));
    }
    c.Pushed(1 + w);
  }

  /** The cases of strings (lserial.c:696-726, 772-776). */
  method DecodeRaw(c: MpCur) returns (v: Tree)
    requires c.Valid() && c.err == None && c.left > 0 && FormOf(c.s[c.p]).Text?
    modifies c
    ensures c.After(Dec(c.s, old(c.p)), v, false)
    ensures old(c.p) <= c.p && c.made - old(c.made) <= c.p - old(c.p)
  {
    var b := c.s[c.p];
    v := TNil;
    var w, l := 0, 0;
    if 0xa0 <= b < 0xc0 {
      l := b - 0xa0;
    } else {
      w := if b == 0xd9 then 1 else if b == 0xda then 2 else 4;
      if c.left < 1 + w {
        c.err := Some(Eof);
        return;
      }
      l := Number(c, w);
    }
    if c.left < 1 + w + l {
      c.err := Some(Eof);
      return;
    }
    v := TSc(Str(c.s[c.p + 1 + w..c.p + 1 + w + l]));
    c.Pushed(1 + w + l);
  }

  lemma CountFits(s: Bytes, i: nat, w: nat)
    requires i + w <= |s| && (w == 2 || w == 4)
    ensures Big(s, i, w) <= 0xffff_ffff
  {
    Widths();
    BigBound(s, i, w);
  }

  lemma NoWidth(s: Bytes, i: nat)
    requires i <= |s|
    ensures Big(s, i, 0) == 0
  {
  }

  lemma TableForm(b: Byte)
    requires FormOf(b).Items?
    ensures FormOf(b) == Items(b < 0x90 || b >= 0xde, if b < 0xa0 then 0 else if b == 0xdc || b == 0xde then 2 else 4,
                               if b < 0xa0 then b % 0x10 else 0)
  {
  }

  /** The cases of arrays and maps (lserial.c:727-764, 777-784). */
  method DecodeTable(c: MpCur) returns (v: Tree, raised: bool)
    requires c.Valid() && c.err == None && c.left > 0 && FormOf(c.s[c.p]).Items?
    modifies c
    ensures c.After(Dec(c.s, old(c.p)), v, raised)
    ensures old(c.p) <= c.p && c.made - old(c.made) <= c.p - old(c.p)
    decreases c.left, 0
  {
    hide FormOf, Shl, Big, DecFields, DecItems;
    var b := c.s[c.p];
    v, raised := TNil, false;
    var w, l := 0, 0;
    TableForm(b);
    NoWidth(c.s, c.p + 1);
    if b < 0xa0 {
      l := b % 0x10;
    } else {
      w := if b == 0xdc || b == 0xde then 2 else 4;
      if c.left < 1 + w {
        c.err := Some(Eof);
        return;
      }
      l := Number(c, w);
      CountFits(c.s, c.p + 1, w);
    }
    var isMap := b < 0x90 || b >= 0xde;
    c.Pushed(1 + w);
    if isMap {
      v, raised := DecodeHash(c, l);
    } else {
      v, raised := DecodeArray(c, l);
    }
  }

  /** mp_decode_to_lua_array (lserial.c:550-561); its table was counted with the header. */
  method DecodeArray(c: MpCur, len: nat) returns (v: Tree, raised: bool)
    requires c.Valid() && c.err == None && len <= 0xffff_ffff
    modifies c
    ensures c.After(DecItems(c.s, old(c.p), len, 1, EMPTY_TREE), v, raised)
    ensures old(c.p) <= c.p && c.made - old(c.made) <= c.p - old(c.p)
    decreases c.left, 2
  {
    var index, left := 1, len;
    v, raised := EMPTY_TREE, false;
    while left > 0
      invariant c.Valid() && c.err == None && v.TTab? && c.left <= old(c.left) && !raised
      invariant DecItems(c.s, c.p, left, index, v) == DecItems(c.s, old(c.p), len, 1, EMPTY_TREE)
      invariant old(c.p) <= c.p && c.made - old(c.made) <= c.p - old(c.p)
      decreases left
    {
      left := left - 1;
      var x, bad := DecodeLuaType(c);
      if bad || c.err != None {
        raised := bad;
        return;
      }
      v := Put(v, TSc(Num(Int(index))), x);
      index := index + 1;
    }
  }

  /** mp_decode_to_lua_hash (lserial.c:563-573) */
  method DecodeHash(c: MpCur, len: nat) returns (v: Tree, raised: bool)
    requires c.Valid() && c.err == None && len <= 0xffff_ffff
    modifies c
    ensures c.After(DecFields(c.s, old(c.p), len, EMPTY_TREE), v, raised)
    ensures old(c.p) <= c.p && c.made - old(c.made) <= c.p - old(c.p)
    decreases c.left, 2
  {
    hide Dec, BadKey, Put;
    var left := len;
    v, raised := EMPTY_TREE, false;
    while left > 0
      invariant c.Valid() && c.err == None && v.TTab? && c.left <= old(c.left) && !raised
      invariant DecFields(c.s, c.p, left, v) == DecFields(c.s, old(c.p), len, EMPTY_TREE)
      invariant old(c.p) <= c.p && c.made - old(c.made) <= c.p - old(c.p)
      decreases left
    {
      left := left - 1;
      var k, badKey := DecodeLuaType(c);
      if badKey || c.err != None {
        raised := badKey;
        return;
      }
      var x, badValue := DecodeLuaType(c);
      if badValue || c.err != None {
        raised := badValue;
        return;
      }
      if BadKey(k) {
        raised := true;
        return;
      }
      v := Put(v, k, x);
    }
  }

  /** mp_decode_to_lua_type (lserial.c:577-789).  No more values are made than bytes consumed,
      whatever lengths the headers claim. */
  method DecodeLuaType(c: MpCur) returns (v: Tree, raised: bool)
    requires c.Valid() && c.err == None
    modifies c
    ensures c.After(Dec(c.s, old(c.p)), v, raised)
    ensures old(c.p) <= c.p && c.made - old(c.made) <= c.p - old(c.p)
    decreases c.left, 1
  {
    v, raised := TNil, false;
    if c.left < 1 {
      c.err := Some(Eof);
      return;
    }
    var b := c.s[c.p];
    if 0xca <= b <= 0xd3 {
      v := DecodeNumber(c);
    } else if b == 0xc0 {
      c.Pushed(1);
    } else if b == 0xc2 || b == 0xc3 {
      v := TSc(Bool(b == 0xc3));
      c.Pushed(1);
    } else if b < 0x80 {
      v := TSc(Num(Int(b)));
      c.Pushed(1);
    } else if b >= 0xe0 {
      v := TSc(Num(Int((b as int) - 0x100)));
      c.Pushed(1);
    } else if 0xa0 <= b < 0xc0 || 0xd9 <= b <= 0xdb {
      v := DecodeRaw(c);
    } else if b < 0xa0 || 0xdc <= b <= 0xdf {
      v, raised := DecodeTable(c);
    } else {
      c.err := Some(BadFmt);
    }
  }

  /** The reply when vs has been unpacked before. */
  function Behind(vs: seq<Tree>, r: Reply): Reply {
    if r.Raise? then r else Values(vs + r.vs, r.next)
  }

  lemma StreamStep(s: Bytes, i: nat, limit: nat, vs: seq<Tree>)
    requires i < |s| && limit > 0
    ensures var r := Dec(s, i);
            Behind(vs, Stream(s, i, limit)) ==
              if r.Err? then Raise(r.e) else Behind(vs + [r.v], Stream(s, r.next, limit - 1))
  {
    var r := Dec(s, i);
    if r.Ok? && Stream(s, r.next, limit - 1).Values? {
      assert vs + ([r.v] + Stream(s, r.next, limit - 1).vs) == vs + [r.v] + Stream(s, r.next, limit - 1).vs;
    }
  }

  lemma BehindNothing(r: Reply)
    ensures Behind([], r) == r
  {
    assert r.Values? ==> [] + r.vs == r.vs;
  }

  lemma StreamEnd(s: Bytes, i: nat, limit: nat, vs: seq<Tree>)
    requires i <= |s| && (i == |s| || limit == 0)
    ensures Behind(vs, Stream(s, i, limit)) == Values(vs, i)
  {
    assert vs + [] == vs;
  }

  /** mp_unpack_full (lserial.c:791-842) */
  method MpUnpackFull(s: Bytes, limit: int, offset: int) returns (a: Answer)
    ensures a == UnpackFull(s, limit, offset)
  {
    hide Dec, Stream, Behind;
    if offset < 0 || limit < 0 {
      return Refused;
    }
    if offset > |s| {
      return Refused;
    }
    var decodeAll := limit == 0 && offset == 0;
    var most := if decodeAll then INT_MAX else limit;
    var c := new MpCur(s, offset);
    var cnt := 0;
    var vs := [];
    ghost var all := Stream(s, offset, most);
    BehindNothing(all);
    while c.left > 0 && cnt < most
      invariant c.Valid() && c.s == s && c.err == None && 0 <= cnt <= most
      invariant all == Behind(vs, Stream(s, c.p, most - cnt))
      decreases most - cnt
    {
      StreamStep(s, c.p, most - cnt, vs);
      var v, raised := DecodeLuaType(c);
      if raised {
        return Raised(LuaError);
      }
      if c.err != None {
        return Raised(c.err.value);
      }
      vs := vs + [v];
      cnt := cnt + 1;
    }
    StreamEnd(s, c.p, most - cnt, vs);
    if decodeAll {
      return Unpacked(vs, None);
    }
    return Unpacked(vs, Some(if c.left == 0 then -1 else ToInt(|s| - c.left)));
  }
}
