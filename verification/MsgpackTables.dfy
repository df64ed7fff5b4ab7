/** What a table holds that is unpacked: its items in their order, and of its fields the last under each key. */
module MsgpackTables {
  import opened Basics
  import opened LuaValues
  import opened Msgpack

  /** n values that stand one behind the other from i on, and where they end. */
  function Row(s: Bytes, i: nat, n: nat): (r: Option<(seq<Tree>, nat)>)
    requires i <= |s|
    ensures r.Some? ==> |r.value.0| == n && i <= r.value.1 <= |s|
    decreases n
  {
    if n == 0 then Some(([], i)) else
    var d := Dec(s, i);
    if d.Err? then None else
    var rest := Row(s, d.next, n - 1);
    if rest == None then None else Some(([d.v] + rest.value.0, rest.value.1))
  }

  function Lookup(t: Tree, k: Scalar): Tree
    requires t.TTab?
  {
    if k in t.keyed then t.keyed[k] else TNil
  }

  /** No value in the table is nil. */
  ghost predicate NoNils(t: Tree) {
    t.TTab? && (forall k :: k in t.keyed ==> t.keyed[k] != TNil) && (forall x :: x in t.rest ==> x.1 != TNil)
  }

  lemma PutNoNils(t: Tree, k: Tree, v: Tree)
    requires NoNils(t) && !BadKey(k)
    ensures NoNils(Put(t, k, v)) && (k.TSc? ==> Put(t, k, v).rest == t.rest)
  {
  }

  lemma PutLookup(t: Tree, k: Tree, v: Tree, x: Scalar)
    requires t.TTab? && !BadKey(k)
    ensures Lookup(Put(t, k, v), x) == if k == TSc(x) then v else Lookup(t, x)
  {
  }

  function IndexOf(x: Scalar): int { if x.Num? && x.n.Int? then x.n.i else 0 }

  /** An array: the m-th value that stands behind its header is under the m-th index, and there is nothing
      else in it; it fails exactly if one of these values does. */
  lemma {:induction false} ItemsAre(s: Bytes, i: nat, n: nat, j: nat, t: Tree, x: Scalar)
    requires i <= |s| && t.TTab? && NoNils(t) && j > 0
    ensures DecItems(s, i, n, j, t).Ok? <==> Row(s, i, n).Some?
    ensures DecItems(s, i, n, j, t).Ok? ==>
              var r, row := DecItems(s, i, n, j, t), Row(s, i, n).value;
              && r.next == row.1 && NoNils(r.v) && r.v.rest == t.rest
              && Lookup(r.v, x) == if j <= IndexOf(x) < j + n then row.0[IndexOf(x) - j] else Lookup(t, x)
    decreases n
  {
    hide Dec, NoNils, Lookup, Put;
    if n > 0 && Dec(s, i).Ok? {
      var d := Dec(s, i);
      var k := TSc(Num(Int(j)));
      PutNoNils(t, k, d.v);
      PutLookup(t, k, d.v, x);
      KeyOf(x, j);
      ItemsAre(s, d.next, n - 1, j + 1, Put(t, k, d.v), x);
    }
  }

  lemma KeyOf(x: Scalar, j: nat)
    requires j > 0
    ensures IndexOf(x) == j <==> x == Num(Int(j))
  {
  }

  /** The m-th key and value of a map are the values at 2 * m and 2 * m + 1. */
  function KeyAt(row: seq<Tree>, m: nat): Tree
    requires 2 * m < |row|
  {
    row[2 * m]
  }

  function ValueAt(row: seq<Tree>, m: nat): Tree
    requires 2 * m + 1 < |row|
  {
    row[2 * m + 1]
  }

  /** The value that the last of the fields gives to key x, or else `d`. */
  function LastOf(row: seq<Tree>, x: Scalar, d: Tree): Tree {
    if |row| < 2 then d else LastOf(row[2..], x, if row[0] == TSc(x) then row[1] else d)
  }

  /** The fields that have a table as key, but no nil as value. */
  function Others(row: seq<Tree>): seq<(Tree, Tree)> {
    if |row| < 2 then []
    else (if row[0].TTab? && !row[1].TNil? then [(row[0], row[1])] else []) + Others(row[2..])
  }

  ghost predicate GoodKeys(row: seq<Tree>) { forall m :: 0 <= m && 2 * m < |row| ==> !BadKey(KeyAt(row, m)) }

  lemma {:induction false} LastIs(row: seq<Tree>, x: Scalar, d: Tree, m: nat)
    requires 2 * m + 1 < |row| && KeyAt(row, m) == TSc(x)
    requires forall k :: m < k && 2 * k + 1 < |row| ==> KeyAt(row, k) != TSc(x)
    ensures LastOf(row, x, d) == ValueAt(row, m)
  {
    var rest := row[2..];
    assert forall k :: 0 <= k && 2 * k + 1 < |rest| ==> KeyAt(rest, k) == KeyAt(row, k + 1);
    if m > 0 {
      assert KeyAt(rest, m - 1) == KeyAt(row, m) && ValueAt(rest, m - 1) == ValueAt(row, m);
      LastIs(rest, x, if row[0] == TSc(x) then row[1] else d, m - 1);
    } else {
      assert row[0] == KeyAt(row, 0) && row[1] == ValueAt(row, 0);
      NoneIs(rest, x, row[1]);
    }
  }

  lemma {:induction false} NoneIs(row: seq<Tree>, x: Scalar, d: Tree)
    requires forall k :: 0 <= k && 2 * k + 1 < |row| ==> KeyAt(row, k) != TSc(x)
    ensures LastOf(row, x, d) == d
  {
    if |row| >= 2 {
      assert KeyAt(row, 0) == row[0];
      var rest := row[2..];
      assert forall k :: 0 <= k && 2 * k + 1 < |rest| ==> KeyAt(rest, k) == KeyAt(row, k + 1);
      NoneIs(rest, x, d);
    }
  }

  lemma RowTwo(s: Bytes, i: nat, n: nat)
    requires i <= |s| && Dec(s, i).Ok? && Dec(s, Dec(s, i).next).Ok?
    ensures var k := Dec(s, i);
            var v := Dec(s, k.next);
            && (Row(s, i, n + 2).Some? <==> Row(s, v.next, n).Some?)
            && (Row(s, i, n + 2).Some? ==>
                  && Row(s, i, n + 2).value.0 == [k.v, v.v] + Row(s, v.next, n).value.0
                  && Row(s, i, n + 2).value.1 == Row(s, v.next, n).value.1)
  {
    hide Dec;
    var k := Dec(s, i);
    var v := Dec(s, k.next);
    assert Row(s, k.next, n + 1).Some? <==> Row(s, v.next, n).Some?;
    if Row(s, v.next, n).Some? {
      assert [k.v] + ([v.v] + Row(s, v.next, n).value.0) == [k.v, v.v] + Row(s, v.next, n).value.0;
    }
  }

  lemma GoodTwo(k: Tree, v: Tree, rest: seq<Tree>)
    ensures GoodKeys([k, v] + rest) <==> !BadKey(k) && GoodKeys(rest)
  {
    var row := [k, v] + rest;
    assert KeyAt(row, 0) == k;
    assert forall m :: 0 <= m && 2 * m < |rest| ==> KeyAt(rest, m) == KeyAt(row, m + 1);
    forall m | 0 <= m && 2 * m < |row| && !BadKey(k) && GoodKeys(rest) ensures !BadKey(KeyAt(row, m)) {
      assert m > 0 ==> KeyAt(row, m) == KeyAt(rest, m - 1);
    }
  }

  /** A map: under each key is the value of the last field with that key, unless it is nil; it fails exactly if
      one of the values that stand behind its header does, or if a key is nil or NaN. */
  lemma {:induction false} FieldsAre(s: Bytes, i: nat, n: nat, t: Tree, x: Scalar)
    requires i <= |s| && t.TTab? && NoNils(t)
    ensures DecFields(s, i, n, t).Ok? <==> Row(s, i, 2 * n).Some? && GoodKeys(Row(s, i, 2 * n).value.0)
    ensures DecFields(s, i, n, t).Ok? ==>
              var r, row := DecFields(s, i, n, t), Row(s, i, 2 * n).value;
              && r.next == row.1 && NoNils(r.v) && r.v.rest == t.rest + Others(row.0)
              && Lookup(r.v, x) == LastOf(row.0, x, Lookup(t, x))
    decreases n
  {
    hide Dec, NoNils, Lookup, GoodKeys, Others, LastOf, Put;
    if n == 0 {
      NoFields(t, x);
    } else if Dec(s, i).Ok? && Dec(s, Dec(s, i).next).Ok? {
      var k := Dec(s, i);
      var v := Dec(s, k.next);
      RowTwo(s, i, 2 * (n - 1));
      if Row(s, v.next, 2 * (n - 1)).Some? {
        GoodTwo(k.v, v.v, Row(s, v.next, 2 * (n - 1)).value.0);
      }
      if !BadKey(k.v) {
        PutNoNils(t, k.v, v.v);
        FieldsAre(s, v.next, n - 1, Put(t, k.v, v.v), x);
        if DecFields(s, i, n, t).Ok? {
          FieldStep(t, k.v, v.v, Row(s, v.next, 2 * (n - 1)).value.0, x);
        }
      }
    }
  }

  lemma NoFields(t: Tree, x: Scalar)
    requires t.TTab?
    ensures t.rest == t.rest + Others([]) && Lookup(t, x) == LastOf([], x, Lookup(t, x)) && GoodKeys([])
  {
  }

  lemma FieldStep(t: Tree, k: Tree, v: Tree, rest: seq<Tree>, x: Scalar)
    requires t.TTab? && !BadKey(k)
    ensures LastOf(rest, x, Lookup(Put(t, k, v), x)) == LastOf([k, v] + rest, x, Lookup(t, x))
    ensures Put(t, k, v).rest + Others(rest) == t.rest + Others([k, v] + rest)
  {
    PutLookup(t, k, v, x);
    var row := [k, v] + rest;
    assert row[0] == k && row[1] == v && row[2..] == rest;
    assert Others(row) == (if k.TTab? && !v.TNil? then [(k, v)] else []) + Others(rest);
  }

  // ---- why a table cannot be read ---------------------------------------------------

  /** The error of an array is that of the first of its values that cannot be read. */
  lemma {:induction false} ItemsError(s: Bytes, i: nat, n: nat, j: nat, t: Tree) returns (m: nat)
    requires i <= |s| && t.TTab? && DecItems(s, i, n, j, t).Err?
    ensures m < n && Row(s, i, m).Some? && Dec(s, Row(s, i, m).value.1) == DecItems(s, i, n, j, t)
    decreases n
  {
    hide Dec, Put;
    var d := Dec(s, i);
    m := 0;
    if d.Ok? {
      m := ItemsError(s, d.next, n - 1, j + 1, Put(t, TSc(Num(Int(j))), d.v));
      m := m + 1;
    }
  }

  /** The field that stands at i cannot be taken: its key cannot be read, or else its value, or else no table
      takes the key. */
  predicate FieldFails(s: Bytes, i: nat, e: Error)
    requires i <= |s|
  {
    var k := Dec(s, i);
    if k.Err? then k.e == e else
    var v := Dec(s, k.next);
    if v.Err? then v.e == e else BadKey(k.v) && e == LuaError
  }

  /** The error of a map is that of the first of its fields that cannot be taken. */
  lemma {:induction false} FieldsError(s: Bytes, i: nat, n: nat, t: Tree) returns (m: nat)
    requires i <= |s| && t.TTab? && DecFields(s, i, n, t).Err?
    ensures m < n && Row(s, i, 2 * m).Some? && GoodKeys(Row(s, i, 2 * m).value.0)
    ensures FieldFails(s, Row(s, i, 2 * m).value.1, DecFields(s, i, n, t).e)
    decreases n
  {
    hide Dec, Put, GoodKeys;
    var k := Dec(s, i);
    m := 0;
    NoFields(t, Bool(true));
    if k.Ok? && Dec(s, k.next).Ok? && !BadKey(k.v) {
      var v := Dec(s, k.next);
      m := FieldsError(s, v.next, n - 1, Put(t, k.v, v.v));
      RowTwo(s, i, 2 * m);
      GoodTwo(k.v, v.v, Row(s, v.next, 2 * m).value.0);
      m := m + 1;
    }
  }
}
