/**
 The packing and unpacking functions of common/lserial.c on byte strings.  `MsgpackBuffer` and
 `MsgpackCursor` do the same in place, on the growing buffer and on the cursor.
 */
module Msgpack {
  import opened LuaValues

  /** n in w bytes, the high one first; only the low bytes are kept. */
  function BE(n: nat, w: nat): (r: Bytes)
    ensures |r| == w
  {
    if w == 0 then [] else BE(n / 0x100, w - 1) + [n % 0x100]
  }

  /** mp_encode_int (lserial.c:223-293) */
  function EncInt(n: int): Bytes {
    if n >= 0 then
      if n <= 127 then [n]
      else if n <= 0xff then [0xcc] + BE(n, 1)
      else if n <= 0xffff then [0xcd] + BE(n, 2)
      else if n <= 0xffff_ffff then [0xce] + BE(n, 4)
      else [0xcf] + BE(n, 8)
    else
      if n >= -32 then BE(n + 0x100, 1)
      else if n >= -128 then [0xd0] + BE(n + 0x100, 1)
      else if n >= -32768 then [0xd1] + BE(n + 0x1_0000, 2)
      else if n >= -2147483648 then [0xd2] + BE(n + 0x1_0000_0000, 4)
      else [0xd3] + BE(if n + 0x1_0000_0000_0000_0000 < 0 then 0 else n + 0x1_0000_0000_0000_0000, 8)
  }

  /** mp_encode_bytes (lserial.c:176-202) */
  function EncStr(s: Bytes): Bytes {
    (if |s| < 32 then [0xa0 + |s|]
     else if |s| <= 0xff then [0xd9] + BE(|s|, 1)
     else if |s| <= 0xffff then [0xda] + BE(|s|, 2)
     else [0xdb] + BE(|s|, 4)) + s
  }

  /** mp_encode_array (lserial.c:295-316) and mp_encode_map (lserial.c:318-339) */
  function EncCount(isMap: bool, n: nat): Bytes {
    if n <= 15 then [(if isMap then 0x80 else 0x90) + n]
    else if n <= 65535 then [if isMap then 0xde else 0xdc] + BE(n, 2)
    else [if isMap then 0xdf else 0xdd] + BE(n, 4)
  }

  /** mp_encode_lua_string, _bool, _number (lserial.c:343-377) */
  function EncScalar(s: Scalar): Bytes {
    match s
    case Bool(b) => if b then [0xc3] else [0xc2]
    case Num(Int(i)) => EncInt(i)
    case Num(Single(bits)) => [0xca] + BE(bits, 4)
    case Num(Double(bits)) => [0xcb] + BE(bits, 8)
    case Str(s) => EncStr(s)
  }

  const MAX_NESTING := 16

  /** mp_encode_lua_type (lserial.c:483-507) */
  function Enc(h: Heap, v: Value, level: nat): Bytes
    requires level <= MAX_NESTING
    decreases MAX_NESTING - level, 0
  {
    match v
    case Sc(s) => EncScalar(s)
    case Tab(r) =>
      if level == MAX_NESTING then [0xc0] else
      var t := TableAt(h, r);
      if IsSequence(t) then EncCount(false, |t.fields|) + EncItems(h, t, 1, level + 1)
      else EncCount(true, |t.order|) + EncFields(h, t, t.order, level + 1)
    case _ => [0xc0]
  }

  /** The items from the j-th on (mp_encode_lua_table_as_array, lserial.c:382-395). */
  function EncItems(h: Heap, t: Table, j: nat, level: nat): Bytes
    requires level <= MAX_NESTING
    decreases MAX_NESTING - level, 1 + if j <= |t.fields| then |t.fields| + 1 - j else 0
  {
    if j > |t.fields| then [] else Enc(h, t.Get(Index(j)), level) + EncItems(h, t, j + 1, level)
  }

  /** The fields under these keys (mp_encode_lua_table_as_map, lserial.c:398-420). */
  function EncFields(h: Heap, t: Table, keys: seq<Value>, level: nat): Bytes
    requires level <= MAX_NESTING
    decreases MAX_NESTING - level, 1 + |keys|
  {
    if keys == [] then []
    else Enc(h, keys[0], level) + Enc(h, t.Get(keys[0]), level) + EncFields(h, t, keys[1..], level)
  }

  /** What a first byte announces; w is the width of the number that follows. */
  datatype Form =
    | FixInt(i: int) | Unsigned(w: nat) | Negative(w: nat) | Nothing | Flag(b: bool) | Float | DoubleFloat
    | Text(w: nat, fixed: nat) | Items(isMap: bool, w: nat, fixed: nat) | Bad

  /** The switch of mp_decode_to_lua_type (lserial.c:588-788). */
  function FormOf(b: Byte): Form {
    if b < 0x80 then FixInt(b)
    else if b < 0x90 then Items(true, 0, b - 0x80)
    else if b < 0xa0 then Items(false, 0, b - 0x90)
    else if b < 0xc0 then Text(0, b - 0xa0)
    else if b >= 0xe0 then FixInt(b - 0x100)
    else if b == 0xc0 then Nothing
    else if b == 0xc2 then Flag(false)
    else if b == 0xc3 then Flag(true)
    else if b == 0xca then Float
    else if b == 0xcb then DoubleFloat
    else if b == 0xcc then Unsigned(1)
    else if b == 0xcd then Unsigned(2)
    else if b == 0xce then Unsigned(4)
    else if b == 0xcf then Unsigned(8)
    else if b == 0xd0 then Negative(1)
    else if b == 0xd1 then Negative(2)
    else if b == 0xd2 then Negative(4)
    else if b == 0xd3 then Negative(8)
    else if b == 0xd9 then Text(1, 0)
    else if b == 0xda then Text(2, 0)
    else if b == 0xdb then Text(4, 0)
    else if b == 0xdc then Items(false, 2, 0)
    else if b == 0xdd then Items(false, 4, 0)
    else if b == 0xde then Items(true, 2, 0)
    else if b == 0xdf then Items(true, 4, 0)
    else Bad
  }

  /** The number in the w bytes from i on. */
  function Big(s: Bytes, i: nat, w: nat): nat
    requires i + w <= |s|
  {
    if w == 0 then 0 else Big(s, i, w - 1) * 0x100 + s[i + w - 1]
  }

  /** A w-byte number read as two's complement. */
  function TwosComplement(n: nat, w: nat): int {
    if 2 * n >= Shl(1, 8 * w) then n - Shl(1, 8 * w) else n
  }

  /** lua_pushunsigned: 8 bytes go through an int64. */
  function OfUnsigned(n: nat, w: nat): Number {
    OfInt(if w == 8 then TwosComplement(n, w) else n)
  }

  datatype Error = Eof | BadFmt | LuaError

  /** `next` is where the cursor stands. */
  datatype Result = Ok(v: Tree, next: nat) | Err(e: Error)

  /** mp_decode_to_lua_type (lserial.c:577-789) with the cursor at i. */
  function Dec(s: Bytes, i: nat): (r: Result)
    requires i <= |s|
    ensures r.Ok? ==> i < r.next <= |s|
    decreases |s| - i, 0
  {
    if i == |s| then Err(Eof) else
    match FormOf(s[i])
    case FixInt(n) => Ok(TSc(Num(Int(n))), i + 1)
    case Nothing => Ok(TNil, i + 1)
    case Flag(b) => Ok(TSc(Bool(b)), i + 1)
    case Unsigned(w) =>
      if i + 1 + w > |s| then Err(Eof) else Ok(TSc(Num(OfUnsigned(Big(s, i + 1, w), w))), i + 1 + w)
    case Negative(w) =>
      if i + 1 + w > |s| then Err(Eof) else Ok(TSc(Num(OfInt(TwosComplement(Big(s, i + 1, w), w)))), i + 1 + w)
    case Float => if i + 5 > |s| then Err(Eof) else Ok(TSc(Num(OfSingle(Big(s, i + 1, 4)))), i + 5)
    case DoubleFloat => if i + 9 > |s| then Err(Eof) else Ok(TSc(Num(OfDouble(Big(s, i + 1, 8)))), i + 9)
    case Text(w, fixed) =>
      if i + 1 + w > |s| then Err(Eof) else
      var l := fixed + Big(s, i + 1, w);
      if i + 1 + w + l > |s| then Err(Eof) else Ok(TSc(Str(s[i + 1 + w..i + 1 + w + l])), i + 1 + w + l)
    case Items(isMap, w, fixed) =>
      if i + 1 + w > |s| then Err(Eof) else
      var l := fixed + Big(s, i + 1, w);
      if isMap then DecFields(s, i + 1 + w, l, EMPTY_TREE) else DecItems(s, i + 1 + w, l, 1, EMPTY_TREE)
    case Bad => Err(BadFmt)
  }

  /** mp_decode_to_lua_array (lserial.c:550-561): n more items, the next one under index j. */
  function DecItems(s: Bytes, i: nat, n: nat, j: nat, t: Tree): (r: Result)
    requires i <= |s| && t.TTab?
    ensures r.Ok? ==> i <= r.next <= |s|
    decreases |s| - i, n + 1
  {
    if n == 0 then Ok(t, i) else
    var r := Dec(s, i);
    if r.Err? then r else DecItems(s, r.next, n - 1, j + 1, Put(t, TSc(Num(Int(j))), r.v))
  }

  /** mp_decode_to_lua_hash (lserial.c:563-573): n more fields. */
  function DecFields(s: Bytes, i: nat, n: nat, t: Tree): (r: Result)
    requires i <= |s| && t.TTab?
    ensures r.Ok? ==> i <= r.next <= |s|
    decreases |s| - i, n + 1
  {
    if n == 0 then Ok(t, i) else
    var k := Dec(s, i);
    if k.Err? then k else
    var v := Dec(s, k.next);
    if v.Err? then v
    else if BadKey(k.v) then Err(LuaError)
    else DecFields(s, v.next, n - 1, Put(t, k.v, v.v))
  }
}
