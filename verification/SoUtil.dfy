/** common/somgr/so_util.c in place: byte buffers, and queues from which any socket can be taken. */
module SoUtil {
  import opened Basics
  import opened LuaValues

  /** q without x. */
  function Without<T(==)>(q: seq<T>, x: T): seq<T> {
    if q == [] then [] else if q[0] == x then q[1..] else [q[0]] + Without(q[1..], x)
  }

  lemma {:induction false} WithoutMiddle<T>(q: seq<T>, k: nat)
    requires k < |q| && forall i :: 0 <= i < k ==> q[i] != q[k]
    ensures Without(q, q[k]) == q[..k] + q[k + 1..]
  {
    if k == 0 {
      assert q[..0] + q[1..] == q[1..];
    } else {
      WithoutMiddle(q[1..], k - 1);
      assert q[..k] + q[k + 1..] == [q[0]] + (q[1..][..k - 1] + q[1..][k..]);
    }
  }

  function Numbers<T>(q: seq<T>, num: T -> nat): seq<nat> {
    seq(|q|, i requires 0 <= i < |q| => num(q[i]))
  }

  /** With the sockets numbered, taking one out of a queue is taking out its number: `SoMgr` has the
      queues so. */
  lemma {:induction false} WithoutNumbers<T>(q: seq<T>, x: T, num: T -> nat)
    requires forall y :: y in q && num(y) == num(x) ==> y == x
    ensures Numbers(Without(q, x), num) == Without(Numbers(q, num), num(x))
  {
    if q != [] {
      assert Numbers(q, num)[1..] == Numbers(q[1..], num);
      if q[0] != x {
        assert q[0] in q;
        WithoutNumbers(q[1..], x, num);
        assert Numbers([q[0]] + Without(q[1..], x), num) == [num(q[0])] + Numbers(Without(q[1..], x), num);
      }
    }
  }

  lemma Spliced<T>(was: seq<T>, now: seq<T>, k: nat)
    requires k < |was| && now == was[..k] + was[k + 1..]
    requires forall i, j :: 0 <= i < j < |was| ==> was[i] != was[j]
    ensures |now| == |was| - 1 && forall i :: 0 <= i < |now| ==> now[i] == was[if i < k then i else i + 1]
    ensures forall i, j :: 0 <= i < j < |now| ==> now[i] != now[j]
    ensures forall x :: x in now ==> x in was && x != was[k]
  {
  }

  /** The capacity that sbuf_expand asks realloc for, with its 32-bit sum and its own guard against
      wrapping (so_util.c:9-11); none if the guard refuses. */
  function Grown(cap: nat, need: nat): (r: Option<nat>) {
    var sum := (cap + need + 1024) % 0x1_0000_0000;
    if sum < cap then None else Some(sum / 1024 * 1024)
  }

  /** What the capacity of a buffer can be. */
  predicate Whole(cap: nat) { cap % 1024 == 0 && cap < 0x1_0000_0000 }

  lemma WholeBound(cap: nat)
    requires Whole(cap)
    ensures cap < 0x1_0000_0000
  {
  }

  /** From here on the guard misses the wrap. */
  const WRAP := 0x1_0000_0000 - 1024

  /** The new capacity has the room asked for, or is refused, exactly if less than WRAP is needed;
      otherwise the capacity stays as it was, and no error is seen. */
  lemma GrownEnough(cap: nat, need: nat)
    requires Whole(cap) && need < 0x1_0000_0000
    ensures (Grown(cap, need).None? || Grown(cap, need).value >= cap + need) <==> need < WRAP
    ensures need >= WRAP ==> Grown(cap, need) == Some(cap)
    ensures need < WRAP ==> (Grown(cap, need).None? <==> cap + need + 1024 >= 0x1_0000_0000)
    ensures Grown(cap, need).Some? ==>
              var c := Grown(cap, need).value;
              cap <= c && Whole(c) && (need < WRAP ==> cap + need < c <= cap + need + 1024)
  {
  }

  /** A buffer that is to have as much again gets 1024 bytes more than that, or stays as it is. */
  lemma GrownTwice(cap: nat)
    requires Whole(cap)
    ensures Grown(cap, cap).GetOr(cap) == if 2 * cap + 1024 < 0x1_0000_0000 then 2 * cap + 1024 else cap
  {
    var sum := 2 * cap + 1024;
    assert cap == cap / 1024 * 1024;
    Quotient(sum, 1024, 2 * (cap / 1024) + 1, 0);
    if sum >= 0x1_0000_0000 {
      Quotient(sum, 0x1_0000_0000, 1, sum - 0x1_0000_0000);
    } else {
      Quotient(sum, 0x1_0000_0000, 0, sum);
    }
  }

  /** The input at which it shows: an empty buffer and the longest write. */
  lemma GrownTooLittle()
    ensures Grown(0, 0xffff_ffff) == Some(0)
  {
  }

  /** sbuf_t (so_util.h:14-18) */
  class SBuf {
    var ptr: array?<Byte>
    var cap: nat
    var cur: nat

    constructor ()
      ensures Valid() && Contents() == [] && fresh(Repr())
    {
      ptr, cap, cur := null, 0, 0;
    }

    ghost function Repr(): set<object>
      reads this
    {
      if ptr == null then {this} else {this, ptr}
    }

    ghost predicate Valid()
      reads this
    {
      && cur <= cap && Whole(cap) && cap == if ptr == null then 0 else ptr.Length
    }

    ghost function Contents(): Bytes
      requires Valid()
      reads this, Repr()
    {
      if ptr == null then [] else ptr[..cur]
    }

    /** sbuf_expand (so_util.c:8-17); `ok` says whether realloc had memory. */
    method Expand(need: nat, ok: bool) returns (r: int)
      requires Valid() && need < 0x1_0000_0000
      modifies this
      ensures Valid() && Contents() == old(Contents()) && cur == old(cur) && (ptr == old(ptr) || fresh(ptr))
      ensures r == if Grown(old(cap), need).None? then -1 else if ok then 0 else -2
      ensures r != 0 ==> cap == old(cap)
      ensures r == 0 ==> cap == Grown(old(cap), need).value && (cap >= old(cap) + need <==> need < WRAP)
    {
      GrownEnough(cap, need);
      var newcap := (cap + need + 1024) % 0x1_0000_0000;
      if newcap < cap {
        return -1;
      }
      newcap := newcap / 1024 * 1024;
      if !ok {
        return -2;
      }
      var p := new Byte[newcap];
      var i := 0;
      while i < cur
        invariant 0 <= i <= cur
        invariant forall k :: 0 <= k < i ==> p[k] == ptr[k]
        modifies p
      {
        p[i] := ptr[i];
        i := i + 1;
      }
      ghost var was := Contents();
      assert p[..cur] == was;
      ptr, cap := p, newcap;
      r := 0;
    }

    /** sbuf_readed (so_util.c:23-29): the first n bytes are gone; memcpy as a move. */
    method Readed(n: nat) returns (r: int)
      requires Valid()
      modifies Repr()
      ensures Valid() && ptr == old(ptr) && cap == old(cap)
      ensures n > old(cur) ==> r == -1 && Contents() == old(Contents())
      ensures n <= old(cur) ==> r == 0 && Contents() == old(Contents()[n..])
    {
      if n > cur {
        return -1;
      }
      ghost var was := Contents();
      var left := cur - n;
      var i := 0;
      while i < left
        invariant 0 <= i <= left && cur == old(cur) && cap == old(cap) && ptr == old(ptr)
        invariant forall k :: 0 <= k < i ==> ptr[k] == was[k + n]
        invariant forall k :: i <= k < cur ==> ptr[k] == was[k]
      {
        ptr[i] := ptr[i + n];
        i := i + 1;
      }
      cur := left;
      assert Contents() == was[n..];
      r := 0;
    }

    /** memcpy to sbuf_cptr, and sbuf_writed (so_util.c:31-44). */
    method Writed(data: Bytes) returns (r: int)
      requires Valid()
      modifies Repr()
      ensures Valid() && ptr == old(ptr) && cap == old(cap)
      ensures |data| > old(cap - cur) ==> r == -1 && Contents() == old(Contents())
      ensures |data| <= old(cap - cur) ==> r == 0 && Contents() == old(Contents()) + data
    {
      if cap - cur < |data| {
        return -1;
      }
      ghost var was := Contents();
      var i := 0;
      while i < |data|
        invariant 0 <= i <= |data| && cur == old(cur) && cap == old(cap) && ptr == old(ptr)
        invariant forall k :: 0 <= k < cur ==> ptr[k] == was[k]
        invariant forall k :: 0 <= k < i ==> ptr[cur + k] == data[k]
      {
        ptr[cur + i] := data[i];
        i := i + 1;
      }
      cur := cur + |data|;
      assert Contents() == was + data;
      r := 0;
    }
  }

  /** The links of so_t (so_util.h:20-30). */
  class SoLink {
    var prev: SoLink?
    var next: SoLink?
    var curq: SoQueue?

    constructor ()
      ensures prev == null && next == null && curq == null
    {
      prev, next, curq := null, null, null;
    }
  }

  /** soqueue_t (so_util.h:32-36) */
  class SoQueue {
    var head: SoLink?
    var tail: SoLink?
    var num: nat
    ghost var items: seq<SoLink>

    constructor ()
      ensures Valid() && items == []
    {
      head, tail, num, items := null, null, 0, [];
    }

    ghost predicate Valid()
      reads this, items
    {
      && num == |items|
      && (if items == [] then head == null && tail == null
          else head == items[0] && tail == items[|items| - 1] && head.prev == null && tail.next == null)
      && (forall o :: o in items ==> o.curq == this)
      && (forall i, j :: 0 <= i < j < |items| ==> items[i] != items[j])
      && (forall i :: 0 <= i < |items| - 1 ==> items[i].next == items[i + 1] && items[i + 1].prev == items[i])
    }

    /** soqueue_pop (so_util.c:55-71) */
    method Pop() returns (so: SoLink?)
      requires Valid()
      modifies this, items
      ensures Valid()
      ensures old(items) == [] ==> so == null && items == []
      ensures old(items) != [] ==> so == old(items)[0] && items == old(items)[1..] && so.curq == null
    {
      so := head;
      if so != null {
        assert so in items && (|items| > 1 ==> items[0].next == items[0 + 1] && items[1] in items);
        head := so.next;
        if head == null {
          assert tail == so;
          tail := null;
        } else {
          head.prev := null;
        }
        num := num - 1;
        so.prev := null;
        so.next := null;
        so.curq := null;
        items := items[1..];
      }
    }

    /** soqueue_push (so_util.c:73-90) */
    method Push(so: SoLink)
      requires Valid() && so.curq == null
      modifies this, so, items
      ensures Valid() && items == old(items) + [so]
    {
      assert so !in items && (items != [] ==> items[|items| - 1] in items);
      if tail != null {
        assert head != null;
        tail.next := so;
        so.next := null;
        so.prev := tail;
        tail := so;
      } else {
        assert head == null;
        head := so;
        tail := so;
        so.next := null;
        so.prev := null;
      }
      so.curq := this;
      num := num + 1;
      items := items + [so];
    }

    /** The queue was `was`, and the links around its k-th socket are closed. */
    ghost predicate Unlinked(was: seq<SoLink>, k: nat)
      requires k < |was|
      reads `head, `tail, was
    {
      && was[k].curq == null
      && (k > 0 ==> head == was[0] && was[0].prev == null)
      && (k == 0 ==> if |was| == 1 then head == null else head == was[1] && was[1].prev == null)
      && (k < |was| - 1 ==> tail == was[|was| - 1] && was[|was| - 1].next == null)
      && (k == |was| - 1 ==> if k == 0 then tail == null else tail == was[k - 1] && was[k - 1].next == null)
      && (forall i :: 0 <= i < |was| - 1 && i != k && i != k - 1 ==>
           was[i].next == was[i + 1] && was[i + 1].prev == was[i])
      && (0 < k < |was| - 1 ==> was[k - 1].next == was[k + 1] && was[k + 1].prev == was[k - 1])
      && (forall o :: o in was && o != was[k] ==> o.curq == this)
    }

    /** soqueue_erase up to the count (so_util.c:95-111). */
    method Unlink(so: SoLink, ghost k: nat)
      requires Valid() && k < |items| && items[k] == so
      modifies `head, `tail, items`prev, items`next, so`curq
      ensures num == old(num) && items == old(items) && Unlinked(items, k)
    {
      assert k > 0 ==> items[k - 1].next == items[(k - 1) + 1] && items[k - 1] in items;
      assert k + 1 < |items| ==> items[k].next == items[k + 1] && items[k + 1] in items;
      if so.prev != null {
        so.prev.next := so.next;
      } else {
        assert so == head;
        head := so.next;
      }
      if so.next != null {
        so.next.prev := so.prev;
      } else {
        assert so == tail;
        tail := so.prev;
      }
      so.next := null;
      so.prev := null;
      so.curq := null;
    }

    lemma Closed(was: seq<SoLink>, k: nat)
      requires k < |was| && (forall i, j :: 0 <= i < j < |was| ==> was[i] != was[j])
      requires items == was[..k] + was[k + 1..] && num == |items| && Unlinked(was, k)
      ensures Valid()
    {
      Spliced(was, items, k);
      forall i | 0 <= i < |items| - 1 ensures items[i].next == items[i + 1] && items[i + 1].prev == items[i] {
        assert items[i] == was[if i < k then i else i + 1] && items[i + 1] == was[if i + 1 < k then i + 1 else i + 2];
      }
    }

    /** soqueue_erase (so_util.c:92-113); nothing happens to a socket that is on no queue. */
    method Erase(so: SoLink)
      requires Valid() && (so in items || so.curq == null)
      modifies this, items
      ensures Valid() && items == (if old(so.curq) == null then old(items) else Without(old(items), so))
              && so.curq == null
    {
      hide Without;
      if so.curq == null {
        return;
      }
      ghost var k :| 0 <= k < |items| && items[k] == so;
      WithoutMiddle(items, k);
      ghost var was := items;
      Unlink(so, k);
      num := num - 1;
      items := items[..k] + items[k + 1..];
      Closed(was, k);
    }
  }
}
