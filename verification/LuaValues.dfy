/**
 What the codec of common/lserial.c packs: Lua values over a heap of tables, which may contain
 themselves, with the key order of lua_next written out.  Numbers are doubles; a number is held in
 the one of three forms in which the source packs it (lserial.c:205-221, 369-377).
 */
module LuaValues {

  type Byte = b: int | 0 <= b < 0x100
  type Bytes = seq<Byte>

  /** n << k and n >> k */
  function Shl(n: nat, k: nat): nat { if k == 0 then n else 2 * Shl(n, k - 1) }

  function Shr(n: nat, k: nat): nat { if k == 0 then n else Shr(n, k - 1) / 2 }

  /** `Int`: equal to an int64; `Single`: otherwise equal to a float; `Double`: neither, so also
      every NaN.  The last two hold the bits of the IEEE 754 pattern. */
  datatype Number = Int(i: int) | Single(bits: nat) | Double(bits: nat)
  {
    predicate Wf() {
      match this
      case Int(i) => -0x8000_0000_0000_0000 <= i < 0x8000_0000_0000_0000 && OfInt(i) == this
      case Single(b) => b < 0x1_0000_0000 && OfSingle(b) == this
      case Double(b) => b < 0x1_0000_0000_0000_0000 && OfDouble(b) == this
    }

    predicate IsNan() { Double? && Shr(bits, 52) % 0x800 == 0x7ff && bits % 0x10_0000_0000_0000 != 0 }
  }

  /** The distance of neighbouring doubles at n. */
  function Ulp(n: nat): (u: nat)
    ensures u > 0
  {
    if n < 0x20_0000_0000_0000 then 1 else 2 * Ulp(n / 2)
  }

  /** The double nearest to n, ties to even. */
  function Rounded(n: nat): int {
    var u := Ulp(n);
    if 2 * (n % u) < u || (2 * (n % u) == u && n / u % 2 == 0) then n / u * u else (n / u + 1) * u
  }

  /** lua_pushinteger and lua_pushnumber of an int64. */
  function OfInt(i: int): Number {
    var d := if i < 0 then -Rounded(-i) else Rounded(i);
    if d == 0x8000_0000_0000_0000 then Single(0x5f00_0000) else Int(d)
  }

  function Signed(negative: bool, n: int): int {
    if negative then -n else n
  }

  /** lua_pushnumber of a float: sign, 8 bits of exponent, 23 of mantissa. */
  function OfSingle(bits: nat): Number {
    var sign, e, m := Shr(bits, 31), Shr(bits, 23) % 0x100, bits % 0x80_0000;
    if e == 0xff && m != 0 then Double(Shl(sign, 63) + Shl(0x7ff, 52) + Shl(m, 29))
    else if e == 0 && m == 0 then Int(0)
    else if 127 <= e < 190 && Shl(0x80_0000 + m, e - 127) % 0x80_0000 == 0 then
      Int(Signed(sign == 1, Shr(Shl(0x80_0000 + m, e - 127), 23)))
    else if bits == 0xdf00_0000 then Int(-0x8000_0000_0000_0000)
    else Single(bits)
  }

  /** lua_pushnumber of a double: sign, 11 bits of exponent, 52 of mantissa. */
  function OfDouble(bits: nat): Number {
    var sign, e, m := Shr(bits, 63), Shr(bits, 52) % 0x800, bits % 0x10_0000_0000_0000;
    if e == 0x7ff && m != 0 then Double(bits)
    else if e == 0 && m == 0 then Int(0)
    else if 1023 <= e < 1086 && Shl(0x10_0000_0000_0000 + m, e - 1023) % 0x10_0000_0000_0000 == 0 then
      Int(Signed(sign == 1, Shr(Shl(0x10_0000_0000_0000 + m, e - 1023), 52)))
    else if bits == 0xc3e0_0000_0000_0000 then Int(-0x8000_0000_0000_0000)
    else if e == 0x7ff then Single(Shl(sign, 31) + Shl(0xff, 23))
    else if 897 <= e <= 1150 && m % 0x2000_0000 == 0 then Single(Shl(sign, 31) + Shl(e - 896, 23) + Shr(m, 29))
    else if 874 <= e < 897 && Shl(Shr(m, 926 - e), 926 - e) == m then
      Single(Shl(sign, 31) + Shl(1, e - 874) + Shr(m, 926 - e))
    else Double(bits)
  }

  datatype Scalar = Bool(b: bool) | Num(n: Number) | Str(s: Bytes)
  {
    /** A string fits its length field, and a number is in its form. */
    predicate Wf() { (Num? ==> n.Wf()) && (Str? ==> |s| < 0x1_0000_0000) }

    predicate IsNan() { Num? && n.IsNan() }
  }

  type Ref = nat

  /** `Other`: functions, userdata and threads. */
  datatype Value = Nil | Sc(s: Scalar) | Tab(r: Ref) | Other
  {
    predicate Wf() { Sc? ==> s.Wf() }
  }

  /** `order` is the order in which lua_next gives the keys.  A key is not nil and no NaN, a value
      is not nil, and the keys can be counted in an int. */
  datatype Table = Table(order: seq<Value>, fields: map<Value, Value>)
  {
    ghost predicate Wf() {
      && (forall k :: k in order <==> k in fields)
      && (forall i, j :: 0 <= i < j < |order| ==> order[i] != order[j])
      && |fields| < 0x8000_0000
      && (forall k :: k in fields ==> k.Wf() && k != Nil && !(k.Sc? && k.s.IsNan()))
      && (forall k :: k in fields ==> fields[k].Wf() && fields[k] != Nil)
    }

    function Get(k: Value): Value { if k in fields then fields[k] else Nil }
  }

  type Heap = map<Ref, Table>

  ghost predicate WfHeap(h: Heap) { forall r :: r in h ==> h[r].Wf() }

  function TableAt(h: Heap, r: Ref): Table {
    if r in h then h[r] else Table([], map[])
  }

  function Index(i: int): Value { Sc(Num(Int(i))) }

  /** The keys are 1 up to their number. */
  predicate IsSequence(t: Table) {
    t.fields.Keys == set i | 1 <= i <= |t.fields| :: Index(i)
  }

  /** What unpacking builds.  `keyed` are the fields under scalar keys; every key that is a table is
      a new table, so `rest` only lists those fields. */
  datatype Tree = TNil | TSc(s: Scalar) | TTab(keyed: map<Scalar, Tree>, rest: seq<(Tree, Tree)>)

  const EMPTY_TREE := TTab(map[], [])

  /** A key that a table refuses. */
  predicate BadKey(k: Tree) { k.TNil? || (k.TSc? && k.s.IsNan()) }

  /** lua_settable: a nil value erases, and an equal key overwrites. */
  function Put(t: Tree, k: Tree, v: Tree): (r: Tree)
    requires t.TTab? && !BadKey(k)
    ensures r.TTab?
  {
    if k.TSc? then t.(keyed := if v.TNil? then t.keyed - {k.s} else t.keyed[k.s := v])
    else if v.TNil? then t
    else t.(rest := t.rest + [(k, v)])
  }
}
