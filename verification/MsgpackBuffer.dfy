/** The growing buffer of common/lserial.c and the packing functions, which append to it. */
module MsgpackBuffer {
  import opened Basics
  import opened LuaValues
  import opened Msgpack
  import opened MsgpackRoundTrip
  import opened MsgpackStreams

  /** mp_buf (lserial.c:93-97) */
  class MpBuf {
    var b: array?<Byte>
    var len: nat
    var free: nat
    ghost var copied: nat  // bytes moved by growing since `len` last was 0

    /** mp_buf_new (lserial.c:108-118) */
    constructor ()
      ensures Valid() && Contents() == [] && fresh(Repr())
    {
      b, len, free, copied := null, 0, 0, 0;
    }

    ghost function Repr(): set<object>
      reads this
    {
      if b == null then {this} else {this, b}
    }

    /** The buffer is large enough, and growing has moved at most twice the bytes it holds. */
    ghost predicate Valid()
      reads this
    {
      && len + free <= (if b == null then 0 else b.Length)
      && copied <= len + free && copied <= 2 * len
    }

    function Contents(): (r: Bytes)
      requires Valid()
      reads this, Repr()
      ensures |r| == len
    {
      if b == null then [] else b[..len]
    }

    /** The realloc of mp_buf_append (lserial.c:121-126). */
    method Grow(size: nat)
      requires Valid() && free < size
      modifies Repr()
      ensures len == old(len) && len + size <= len + free <= (if b == null then 0 else b.Length)
      ensures b != null && fresh(b) && copied == old(copied + len) && b[..len] == old(Contents())
      ensures free == len + size && b.Length == 2 * (len + size)
    {
      var newlen := len + size;
      var grown := new Byte[newlen * 2];
      ghost var was := Contents();
      var i := 0;
      while i < len
        invariant i <= len == |was| && was == old(Contents()) && len == old(len) && b == old(b)
        invariant b != null ==> was == b[..len]
        invariant forall k :: 0 <= k < i ==> grown[k] == was[k]
        invariant copied == old(copied) && free == old(free) && fresh(grown)
        modifies grown
      {
        grown[i] := b[i];
        i := i + 1;
      }
      assert grown[..len] == was;
      copied := copied + len;
      b := grown;
      free := newlen;
    }

    /** The memcpy of mp_buf_append (lserial.c:127). */
    method Copy(s: Bytes)
      requires b != null && len + |s| <= b.Length
      modifies b
      ensures b[..len + |s|] == old(b[..len]) + s
    {
      var i := 0;
      while i < |s|
        invariant 0 <= i <= |s|
        invariant b[..len] == old(b[..len])
        invariant forall k :: 0 <= k < i ==> b[len + k] == s[k]
      {
        b[len + i] := s[i];
        i := i + 1;
      }
      assert b[len..len + |s|] == s;
      assert b[..len + |s|] == b[..len] + b[len..len + |s|];
    }

    /** After n bytes have been appended: the buffer is the same if they fitted. */
    ghost predicate Room(was: nat, n: nat, same: bool)
      reads this
    {
      if n <= was then same && free == was - n
      else b != null && b.Length == 2 * len && free + n == len
    }

    /** mp_buf_append (lserial.c:120-130).  It grows only when the bytes do not fit, and then to twice what it
        holds with them. */
    method Append(s: Bytes)
      requires Valid()
      modifies Repr()
      ensures Valid() && fresh(Repr() - old(Repr())) && Contents() == old(Contents()) + s
      ensures Room(old(free), |s|, b == old(b))
    {
      if free < |s| {
        Grow(|s|);
      }
      if b != null {
        Copy(s);
      }
      len := len + |s|;
      free := free - |s|;
    }

    /** The reuse of the buffer in mp_pack (lserial.c:533-537). */
    method Reuse()
      requires Valid()
      modifies this
      ensures Valid() && Contents() == [] && Repr() == old(Repr())
    {
      free := free + len;
      len := 0;
      copied := 0;
    }
  }

  /** The low bytes of n, as `&` and `>>` take them from two's complement, the high one first. */
  function Low2(n: int): Bytes { [n / 0x100 % 0x100, n % 0x100] }

  function Low4(n: int): Bytes { [n / 0x100_0000 % 0x100, n / 0x1_0000 % 0x100, n / 0x100 % 0x100, n % 0x100] }

  function Low8(n: int): Bytes {
    [n / 0x100_0000_0000_0000 % 0x100, n / 0x1_0000_0000_0000 % 0x100,
     n / 0x100_0000_0000 % 0x100, n / 0x1_0000_0000 % 0x100,
     n / 0x100_0000 % 0x100, n / 0x1_0000 % 0x100, n / 0x100 % 0x100, n % 0x100]
  }

  lemma Two(n: nat)
    ensures BE(n, 2) == Low2(n)
  {
    assert BE(n, 1) == [n % 0x100];
  }

  lemma Four(n: nat)
    ensures BE(n, 4) == Low4(n)
  {
    Two(n / 0x1_0000);
    assert n / 0x100 / 0x100 == n / 0x1_0000 && n / 0x1_0000 / 0x100 == n / 0x100_0000;
    assert BE(n, 3) == BE(n / 0x100, 2) + [n % 0x100];
    assert BE(n / 0x100, 3) == BE(n / 0x1_0000, 2) + [n / 0x100 % 0x100];
  }

  lemma Eight(n: nat)
    ensures BE(n, 8) == Low8(n)
  {
    Halves(n);
    Four(n / 0x1_0000_0000);
    HighBytes(n);
  }

  lemma Halves(n: nat)
    ensures BE(n, 8) == BE(n / 0x1_0000_0000, 4) + Low4(n)
  {
    assert BE(n, 8) == BE(n / 0x100, 7) + [n % 0x100];
    assert BE(n / 0x100, 7) == BE(n / 0x1_0000, 6) + [n / 0x100 % 0x100];
    assert BE(n / 0x1_0000, 6) == BE(n / 0x100_0000, 5) + [n / 0x1_0000 % 0x100];
    assert BE(n / 0x100_0000, 5) == BE(n / 0x1_0000_0000, 4) + [n / 0x100_0000 % 0x100];
  }

  lemma HighBytes(n: int)
    ensures var h := n / 0x1_0000_0000;
            && h / 0x100 == n / 0x100_0000_0000 && h / 0x1_0000 == n / 0x1_0000_0000_0000
            && h / 0x100_0000 == n / 0x100_0000_0000_0000
  {
  }

  /** mp_encode_bytes (lserial.c:176-202) */
  method EncodeBytes(buf: MpBuf, s: Bytes)
    requires buf.Valid()
    modifies buf.Repr()
    ensures buf.Valid() && fresh(buf.Repr() - old(buf.Repr())) && buf.Contents() == old(buf.Contents()) + EncStr(s)
  {
    var hdr: Bytes, n := [], |s|;
    if n < 32 {
      hdr := [0xa0 + n];
    } else if n <= 0xff {
      hdr := [0xd9, n];
    } else if n <= 0xffff {
      hdr := [0xda] + Low2(n);
    } else {
      hdr := [0xdb] + Low4(n);
    }
    StrHead(s);
    assert hdr + s == EncStr(s);
    hide *;
    ghost var was := buf.Contents();
    buf.Append(hdr);
    buf.Append(s);
    Assoc(was, hdr, s);
  }

  lemma StrHead(s: Bytes)
    ensures BE(|s|, 1) == [|s| % 0x100] && BE(|s|, 2) == Low2(|s|) && BE(|s|, 4) == Low4(|s|)
  {
    Two(|s|);
    Four(|s|);
  }

  lemma IntBytes(n: int)
    requires -0x8000_0000_0000_0000 <= n < 0x8000_0000_0000_0000
    ensures EncInt(n) ==
            if n >= 0 then
              if n <= 127 then [n]
              else if n <= 0xff then [0xcc, n]
              else if n <= 0xffff then [0xcd] + Low2(n)
              else if n <= 0xffff_ffff then [0xce] + Low4(n)
              else [0xcf] + Low8(n)
            else if n >= -32 then [n + 0x100]
            else if n >= -128 then [0xd0, n % 0x100]
            else if n >= -32768 then [0xd1] + Low2(n)
            else if n >= -2147483648 then [0xd2] + Low4(n)
            else [0xd3] + Low8(n)
  {
    if n >= 0 {
      Two(n);
      Four(n);
      Eight(n);
    } else {
      NegativeBytes(n);
    }
  }

  lemma NegativeBytes(n: int)
    requires -0x8000_0000_0000_0000 <= n < 0
    ensures n >= -128 ==> BE(n + 0x100, 1) == [n % 0x100]
    ensures n >= -32768 ==> BE(n + 0x1_0000, 2) == Low2(n)
    ensures n >= -2147483648 ==> BE(n + 0x1_0000_0000, 4) == Low4(n)
    ensures BE(n + 0x1_0000_0000_0000_0000, 8) == Low8(n)
  {
    hide BE, Low2, Low4, Low8;
    if n >= -128 {
      One(n);
    }
    if n >= -32768 {
      Two(n + 0x1_0000);
      Wraps2(n);
    }
    if n >= -2147483648 {
      Four(n + 0x1_0000_0000);
      Wraps4(n);
    }
    Eight(n + 0x1_0000_0000_0000_0000);
    Wraps8(n);
  }

  lemma Carry(n: int, d: int, k: int, x: int)
    requires 0 < d && x == n + d * (0x100 * k)
    ensures x / d % 0x100 == n / d % 0x100
  {
    assert n == n / d * d + n % d;
    assert x == (n / d + 0x100 * k) * d + n % d by {
      assert (n / d + 0x100 * k) * d == n / d * d + 0x100 * k * d;
    }
    Quotient(x, d, n / d + 0x100 * k, n % d);
  }

  lemma One(n: int)
    requires -0x100 <= n < 0
    ensures BE(n + 0x100, 1) == [n % 0x100]
  {
  }

  lemma Wraps2(n: int)
    ensures Low2(n + 0x1_0000) == Low2(n)
  {
    Carry(n, 0x100, 1, n + 0x1_0000);
    Carry(n, 1, 0x100, n + 0x1_0000);
  }

  lemma Wraps4(n: int)
    ensures Low4(n + 0x1_0000_0000) == Low4(n)
  {
    var m := n + 0x1_0000_0000;
    Carry(n, 0x100_0000, 1, m);
    Carry(n, 0x1_0000, 0x100, m);
    Carry(n, 0x100, 0x1_0000, m);
    Carry(n, 1, 0x100_0000, m);
  }

  lemma Wraps8(n: int)
    ensures Low8(n + 0x1_0000_0000_0000_0000) == Low8(n)
  {
    var m := n + 0x1_0000_0000_0000_0000;
    Carry(n, 0x100_0000_0000_0000, 1, m);
    Carry(n, 0x1_0000_0000_0000, 0x100, m);
    Carry(n, 0x100_0000_0000, 0x1_0000, m);
    Carry(n, 0x1_0000_0000, 0x100_0000, m);
    Carry(n, 0x100_0000, 0x1_0000_0000, m);
    Carry(n, 0x1_0000, 0x100_0000_0000, m);
    Carry(n, 0x100, 0x1_0000_0000_0000, m);
    Carry(n, 1, 0x100_0000_0000_0000, m);
  }

  /** mp_encode_int (lserial.c:223-293) */
  method EncodeInt(buf: MpBuf, n: int)
    requires buf.Valid() && -0x8000_0000_0000_0000 <= n < 0x8000_0000_0000_0000
    modifies buf.Repr()
    ensures buf.Valid() && fresh(buf.Repr() - old(buf.Repr())) && buf.Contents() == old(buf.Contents()) + EncInt(n)
  {
    var b: Bytes;
    if n >= 0 {
      if n <= 127 {
        b := [n];
      } else if n <= 0xff {
        b := [0xcc, n];
      } else if n <= 0xffff {
        b := [0xcd] + Low2(n);
      } else if n <= 0xffff_ffff {
        b := [0xce] + Low4(n);
      } else {
        b := [0xcf] + Low8(n);
      }
    } else {
      if n >= -32 {
        b := [n + 0x100];
      } else if n >= -128 {
        b := [0xd0, n % 0x100];
      } else if n >= -32768 {
        b := [0xd1] + Low2(n);
      } else if n >= -2147483648 {
        b := [0xd2] + Low4(n);
      } else {
        b := [0xd3] + Low8(n);
      }
    }
    IntBytes(n);
    buf.Append(b);
  }

  /** mp_encode_array (lserial.c:295-316) */
  method EncodeArray(buf: MpBuf, n: nat)
    requires buf.Valid()
    modifies buf.Repr()
    ensures buf.Valid() && fresh(buf.Repr() - old(buf.Repr()))
            && buf.Contents() == old(buf.Contents()) + EncCount(false, n)
  {
    var b: Bytes;
    if n <= 15 {
      b := [0x90 + n];
    } else if n <= 65535 {
      b := [0xdc] + Low2(n);
    } else {
      b := [0xdd] + Low4(n);
    }
    Two(n);
    Four(n);
    buf.Append(b);
  }

  /** mp_encode_map (lserial.c:318-339) */
  method EncodeMap(buf: MpBuf, n: nat)
    requires buf.Valid()
    modifies buf.Repr()
    ensures buf.Valid() && fresh(buf.Repr() - old(buf.Repr()))
            && buf.Contents() == old(buf.Contents()) + EncCount(true, n)
  {
    var b: Bytes;
    if n <= 15 {
      b := [0x80 + n];
    } else if n <= 65535 {
      b := [0xde] + Low2(n);
    } else {
      b := [0xdf] + Low4(n);
    }
    Two(n);
    Four(n);
    buf.Append(b);
  }

  /** mp_encode_double (lserial.c:205-221): whether the double is a float is the form of the number. */
  method EncodeDouble(buf: MpBuf, n: Number)
    requires buf.Valid() && !n.Int?
    modifies buf.Repr()
    ensures buf.Valid() && fresh(buf.Repr() - old(buf.Repr()))
            && buf.Contents() == old(buf.Contents()) + EncScalar(Num(n))
  {
    Four(n.bits);
    Eight(n.bits);
    if n.Single? {
      buf.Append([0xca] + Low4(n.bits));
    } else {
      buf.Append([0xcb] + Low8(n.bits));
    }
  }

  /** The scalar cases of mp_encode_lua_type (lserial.c:343-377, 490-505). */
  method EncodeScalar(buf: MpBuf, s: Scalar)
    requires buf.Valid() && s.Wf()
    modifies buf.Repr()
    ensures buf.Valid() && fresh(buf.Repr() - old(buf.Repr())) && buf.Contents() == old(buf.Contents()) + EncScalar(s)
  {
    match s
    case Str(x) => EncodeBytes(buf, x);
    case Bool(b) => buf.Append([if b then 0xc3 else 0xc2]);
    case Num(Int(i)) => EncodeInt(buf, i);
    case Num(n) => EncodeDouble(buf, n);
  }

  function Indices(n: int): set<Value> { set i | 1 <= i <= n :: Index(i) }

  lemma {:induction false} IndicesSize(n: nat)
    ensures |Indices(n)| == n
  {
    if n == 0 {
      assert Indices(0) == {};
    } else {
      IndicesSize(n - 1);
      assert Indices(n) == Indices(n - 1) + {Index(n)};
    }
  }

  /** As many as there are, and all of them there. */
  lemma {:induction false} Pigeonhole<T>(a: set<T>, b: set<T>)
    requires a <= b && |a| == |b|
    ensures a == b
  {
    if x :| x in b && x !in a {
      Subset(a, b - {x});
    }
  }

  lemma {:induction false} Subset<T>(a: set<T>, b: set<T>)
    requires a <= b
    ensures |a| <= |b|
  {
    if a != {} {
      var x :| x in a;
      Subset(a - {x}, b - {x});
    }
  }

  /** What the scan of table_is_an_array has found after the first i keys. */
  ghost predicate Scanned(t: Table, i: int, max: int) {
    && 0 <= i <= |t.order| && 0 <= max < 0x8000_0000
    && (forall j :: 0 <= j < i ==> exists n :: 1 <= n <= max && t.order[j] == Index(n))
    && (max > 0 ==> exists j :: 0 <= j < i && t.order[j] == Index(max))
  }

  /** The largest key is the number of keys: then the keys are 1 up to that number. */
  lemma ScanDecides(t: Table, max: nat)
    requires t.Wf() && Scanned(t, |t.order|, max)
    ensures (max == |t.order|) == IsSequence(t)
  {
    OrderSize(t);
    IndicesSize(max);
    assert t.fields.Keys <= Indices(max) by {
      forall k | k in t.fields ensures k in Indices(max) {
        assert k in t.order;
      }
    }
    assert max > 0 ==> Index(max) in t.order && Index(max) in t.fields;
    if max == |t.order| {
      Pigeonhole(t.fields.Keys, Indices(max));
    } else if IsSequence(t) {
      Subset(t.fields.Keys, Indices(max));
    }
  }

  lemma NotAnIndex(t: Table, i: nat)
    requires t.Wf() && i < |t.order| && forall n :: 1 <= n < 0x8000_0000 ==> t.order[i] != Index(n)
    ensures !IsSequence(t)
  {
    assert t.order[i] in t.fields;
  }

  lemma ScanStarts(t: Table)
    ensures Scanned(t, 0, 0)
  {
  }

  lemma ScanMore(t: Table, i: nat, max: nat, n: int)
    requires Scanned(t, i, max) && i < |t.order| && t.order[i] == Index(n) && 0 < n < 0x8000_0000
    ensures Scanned(t, i + 1, if n > max then n else max)
  {
    if n > max || max == 0 {
      assert t.order[i] == Index(if n > max then n else max);
    } else {
      var j :| 0 <= j < i && t.order[j] == Index(max);
    }
  }

  /** table_is_an_array (lserial.c:425-463).  A number is equal to an int just if its form is `Int`
      and it is in range. */
  method TableIsAnArray(t: Table) returns (r: bool)
    requires t.Wf()
    ensures r == IsSequence(t)
  {
    hide Scanned, IsSequence, Table.Wf;
    ScanStarts(t);
    var count, max: nat := 0, 0;
    while count < |t.order|
      invariant 0 <= count <= |t.order| && Scanned(t, count, max)
    {
      var key := t.order[count];
      match key {
        case Sc(Num(Int(n))) =>
          if n <= 0 || n > INT_MAX {
            NotAnIndex(t, count);
            return false;
          }
          ScanMore(t, count, max, n);
          max := if n > max then n else max;
        case _ =>
          NotAnIndex(t, count);
          return false;
      }
      count := count + 1;
    }
    ScanDecides(t, max);
    return max == count;
  }

  /** A border, as Lua defines the length of a table. */
  ghost predicate IsBorder(t: Table, n: nat) {
    (n == 0 || t.Get(Index(n)) != Nil) && t.Get(Index(n + 1)) == Nil
  }

  /** The keys 1 to n have one border, so no item is left out. */
  lemma BorderIsCount(t: Table, n: nat)
    requires t.Wf() && IsSequence(t)
    ensures IsBorder(t, n) <==> n == |t.fields|
  {
    SequenceKeys(t);
    assert forall j :: Index(j) in t.fields ==> 1 <= j <= |t.fields|;
  }

  lemma OneMore(keys: set<Value>, n: nat)
    requires n > 0 && Indices(n - 1) <= keys && Index(n) in keys
    ensures Indices(n) <= keys && n <= |keys|
  {
    IndicesSize(n);
    Subset(Indices(n), keys);
  }

  /** lua_objlen: some border. */
  method ObjLen(t: Table) returns (n: nat)
    requires t.Wf()
    ensures IsBorder(t, n)
  {
    n := 0;
    while Index(n + 1) in t.fields
      invariant n == 0 || t.Get(Index(n)) != Nil
      invariant Indices(n) <= t.fields.Keys
      decreases |t.fields| - n
    {
      n := n + 1;
      OneMore(t.fields.Keys, n);
    }
  }

  /** mp_encode_lua_type (lserial.c:483-507) */
  method EncodeLuaType(buf: MpBuf, h: Heap, v: Value, level: nat)
    requires buf.Valid() && level <= MAX_NESTING && WfHeap(h) && v.Wf()
    modifies buf.Repr()
    ensures buf.Valid() && fresh(buf.Repr() - old(buf.Repr()))
            && buf.Contents() == old(buf.Contents()) + Enc(h, v, level)
    decreases MAX_NESTING - level, 0
  {
    if v.Tab? && level != MAX_NESTING {
      EncodeTable(buf, h, v.r, level);
    } else if v.Sc? {
      EncodeScalar(buf, v.s);
    } else {
      buf.Append([0xc0]);
    }
  }

  lemma WfTableAt(h: Heap, r: Ref)
    requires WfHeap(h)
    ensures TableAt(h, r).Wf()
  {
  }

  lemma EncTable(h: Heap, r: Ref, level: nat)
    requires level < MAX_NESTING
    ensures var t := TableAt(h, r);
            Enc(h, Tab(r), level)
            == if IsSequence(t) then EncCount(false, |t.fields|) + EncItems(h, t, 1, level + 1)
               else EncCount(true, |t.order|) + EncFields(h, t, t.order, level + 1)
  {
  }

  /** mp_encode_lua_table (lserial.c:468-473) */
  method EncodeTable(buf: MpBuf, h: Heap, r: Ref, level: nat)
    requires buf.Valid() && level < MAX_NESTING && WfHeap(h)
    modifies buf.Repr()
    ensures buf.Valid() && fresh(buf.Repr() - old(buf.Repr()))
            && buf.Contents() == old(buf.Contents()) + Enc(h, Tab(r), level)
    decreases MAX_NESTING - level - 1, |TableAt(h, r).fields| + |TableAt(h, r).order| + 9
  {
    hide Enc, EncItems, EncFields, EncCount, TableAt, IsSequence, IsBorder, Table.Wf, WfHeap, Value.Wf, Pack,
         MpBuf.Contents, MpBuf.Valid;
    WfTableAt(h, r);
    EncTable(h, r, level);
    var asArray := TableIsAnArray(TableAt(h, r));
    if asArray {
      EncodeTableAsArray(buf, h, TableAt(h, r), level);
    } else {
      EncodeTableAsMap(buf, h, TableAt(h, r), level);
    }
  }

  lemma ItemsUnfold(h: Heap, t: Table, j: nat, level: nat, was: Bytes)
    requires level <= MAX_NESTING && t.Wf() && IsSequence(t) && 1 <= j
    ensures j <= |t.fields| ==>
              was + EncItems(h, t, j, level) == was + Enc(h, t.Get(Index(j)), level) + EncItems(h, t, j + 1, level)
    ensures j > |t.fields| ==> was + EncItems(h, t, j, level) == was
    ensures t.Get(Index(j)).Wf()
  {
    if j <= |t.fields| {
      Assoc(was, Enc(h, t.Get(Index(j)), level), EncItems(h, t, j + 1, level));
    }
  }

  /** mp_encode_lua_table_as_array (lserial.c:382-395) */
  method EncodeTableAsArray(buf: MpBuf, h: Heap, t: Table, level: nat)
    requires buf.Valid() && level < MAX_NESTING && WfHeap(h) && t.Wf() && IsSequence(t)
    modifies buf.Repr()
    ensures buf.Valid() && fresh(buf.Repr() - old(buf.Repr()))
    ensures buf.Contents() == old(buf.Contents()) + (EncCount(false, |t.fields|) + EncItems(h, t, 1, level + 1))
    decreases MAX_NESTING - level - 1, |t.fields| + |t.order| + 8
  {
    hide Enc, EncItems, EncFields, EncCount, TableAt, IsSequence, IsBorder, Table.Wf, WfHeap, Value.Wf, Pack,
         MpBuf.Contents, MpBuf.Valid;
    ghost var was := buf.Contents();
    var len := ObjLen(t);
    BorderIsCount(t, len);
    EncodeArray(buf, len);
    Assoc(was, EncCount(false, |t.fields|), EncItems(h, t, 1, level + 1));
    var j := 1;
    while j <= len
      invariant 1 <= j <= len + 1 && buf.Valid() && fresh(buf.Repr() - old(buf.Repr()))
      invariant buf.Contents() + EncItems(h, t, j, level + 1)
             == was + (EncCount(false, |t.fields|) + EncItems(h, t, 1, level + 1))
    {
      ItemsUnfold(h, t, j, level + 1, buf.Contents());
      EncodeLuaType(buf, h, t.Get(Index(j)), level + 1);
      j := j + 1;
    }
    ItemsUnfold(h, t, j, level + 1, buf.Contents());
  }

  lemma FieldsUnfold(h: Heap, t: Table, i: nat, level: nat, was: Bytes)
    requires level <= MAX_NESTING && t.Wf() && i <= |t.order|
    ensures i < |t.order| ==>
              && t.order[i].Wf() && t.Get(t.order[i]).Wf()
              && was + EncFields(h, t, t.order[i..], level)
                 == was + Enc(h, t.order[i], level) + Enc(h, t.Get(t.order[i]), level)
                  + EncFields(h, t, t.order[i + 1..], level)
    ensures i == |t.order| ==> was + EncFields(h, t, t.order[i..], level) == was
  {
    hide Enc;
    if i < |t.order| {
      var k, v := Enc(h, t.order[i], level), Enc(h, t.Get(t.order[i]), level);
      var rest := EncFields(h, t, t.order[i + 1..], level);
      assert t.order[i..][1..] == t.order[i + 1..] && t.order[i] in t.fields;
      assert EncFields(h, t, t.order[i..], level) == k + v + rest;
      Assoc(was, k + v, rest);
      Assoc(was, k, v);
    }
  }

  /** mp_encode_lua_table_as_map (lserial.c:398-420); the first loop counts the keys. */
  method EncodeTableAsMap(buf: MpBuf, h: Heap, t: Table, level: nat)
    requires buf.Valid() && level < MAX_NESTING && WfHeap(h) && t.Wf()
    modifies buf.Repr()
    ensures buf.Valid() && fresh(buf.Repr() - old(buf.Repr()))
    ensures buf.Contents() == old(buf.Contents()) + (EncCount(true, |t.order|) + EncFields(h, t, t.order, level + 1))
    decreases MAX_NESTING - level - 1, |t.fields| + |t.order| + 8
  {
    hide Enc, EncItems, EncFields, EncCount, TableAt, IsSequence, IsBorder, Table.Wf, WfHeap, Value.Wf, Pack,
         MpBuf.Contents, MpBuf.Valid;
    ghost var was := buf.Contents();
    var len := 0;
    while len < |t.order|
      invariant len <= |t.order|
      modifies {}
    {
      len := len + 1;
    }
    EncodeMap(buf, len);
    Assoc(was, EncCount(true, |t.order|), EncFields(h, t, t.order, level + 1));
    var i := 0;
    assert t.order[0..] == t.order;
    while i < |t.order|
      invariant 0 <= i <= |t.order| && buf.Valid() && fresh(buf.Repr() - old(buf.Repr()))
      invariant buf.Contents() + EncFields(h, t, t.order[i..], level + 1)
             == was + (EncCount(true, |t.order|) + EncFields(h, t, t.order, level + 1))
    {
      FieldsUnfold(h, t, i, level + 1, buf.Contents());
      EncodeLuaType(buf, h, t.order[i], level + 1);
      EncodeLuaType(buf, h, t.Get(t.order[i]), level + 1);
      i := i + 1;
    }
    FieldsUnfold(h, t, i, level + 1, buf.Contents());
  }

  /** mp_pack (lserial.c:513-544): one buffer for all values.  `moved` says how many bytes growing
      it moved for each value. */
  method MpPack(h: Heap, args: seq<Value>) returns (r: Bytes, ghost moved: seq<nat>)
    requires WfHeap(h) && forall v :: v in args ==> v.Wf()
    ensures r == Pack(h, args)
    ensures |moved| == |args| && forall i :: 0 <= i < |args| ==> moved[i] <= 2 * |Enc(h, args[i], 0)|
  {
    hide Enc, EncItems, EncFields, EncCount, TableAt, IsSequence, IsBorder, Table.Wf, WfHeap, Value.Wf, Pack,
         MpBuf.Contents, MpBuf.Valid;
    r, moved := [], [];
    var buf := new MpBuf();
    var i := 0;
    PackUnfold(h, args, 0, r);
    while i < |args|
      invariant 0 <= i <= |args| && buf.Valid() && fresh(buf.Repr()) && buf.Contents() == []
      invariant r + Pack(h, args[i..]) == Pack(h, args)
      invariant |moved| == i && forall j :: 0 <= j < i ==> moved[j] <= 2 * |Enc(h, args[j], 0)|
    {
      PackUnfold(h, args, i, r);
      EncodeLuaType(buf, h, args[i], 0);
      moved := moved + [buf.copied];
      r := r + buf.Contents();
      buf.Reuse();
      i := i + 1;
    }
    PackUnfold(h, args, i, r);
  }

  lemma PackUnfold(h: Heap, args: seq<Value>, i: nat, r: Bytes)
    requires i <= |args|
    ensures i == 0 ==> [] + Pack(h, args[i..]) == Pack(h, args)
    ensures i < |args| ==> r + Pack(h, args[i..]) == r + Enc(h, args[i], 0) + Pack(h, args[i + 1..])
    ensures i == |args| ==> r + Pack(h, args[i..]) == r
    ensures forall e: Bytes :: [] + e == e
  {
    hide Enc;
    if i == 0 {
      assert args[0..] == args;
    }
    if i < |args| {
      assert args[i..][1..] == args[i + 1..];
      Assoc(r, Enc(h, args[i], 0), Pack(h, args[i + 1..]));
    }
  }
}
