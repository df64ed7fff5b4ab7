/** What several parts use. */
module Basics {

  /** The usual optional value; it stands for the C pointers that may be NULL. */
  datatype Option<+T> = None | Some(value: T)
  {
    function GetOr(other: T): T { if Some? then value else other }
  }

  ghost predicate Distinct(xs: seq<nat>) {
    forall i, j :: 0 <= i < j < |xs| ==> xs[i] != xs[j]
  }

  lemma Assoc<T>(a: seq<T>, b: seq<T>, c: seq<T>)
    ensures (a + b) + c == a + (b + c)
  {
  }

  lemma AtLeast(d: int, k: int)
    requires 0 < d && 1 <= k
    ensures d <= d * k
  {
    assert 0 <= d * (k - 1);
  }

  /** Division with remainder has one result. */
  lemma Quotient(x: int, d: int, q: int, r: int)
    requires 0 <= r < d && x == q * d + r
    ensures x / d == q && x % d == r
  {
    assert x == d * (x / d) + x % d;
    assert d * (q - x / d) == q * d - d * (x / d);
    assert d * (x / d - q) == d * (x / d) - q * d;
    if x / d < q {
      AtLeast(d, q - x / d);
    } else if x / d > q {
      AtLeast(d, x / d - q);
    }
  }
}
