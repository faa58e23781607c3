/** Packets, ranked items and sorted lists of them. */
module Elements {

  datatype Pkt = Pkt(pktid: nat, flowid: nat, length: nat, flowSize: nat)

  /** What a scheduler queues: a packet and the rank computed for it on arrival.  Items are ordered by rank and,
      at equal rank, by packet id. */
  datatype Item = Item(rank: real, pkt: Pkt)

  predicate Less(a: Item, b: Item) {
    if a.rank != b.rank then a.rank < b.rank else a.pkt.pktid < b.pkt.pktid
  }

  predicate Sorted(s: seq<Item>) {
    forall i, j :: 0 <= i < j < |s| ==> !Less(s[j], s[i])
  }

  /** The total length, in bytes, of the packets in s. */
  function Bytes(s: seq<Item>): (n: nat) {
    if s == [] then 0 else s[0].pkt.length + Bytes(s[1..])
  }

  lemma {:induction false} BytesAppend(s: seq<Item>, t: seq<Item>)
    ensures Bytes(s + t) == Bytes(s) + Bytes(t)
  {
    if s == [] {
      assert s + t == t;
    } else {
      assert (s + t)[1..] == s[1..] + t;
      BytesAppend(s[1..], t);
    }
  }

  /** The position at which e is inserted: the first entry that is not below e. */
  function BisectLeft(s: seq<Item>, e: Item): (k: nat)
    ensures k <= |s|
    ensures forall i :: 0 <= i < k ==> Less(s[i], e)
    ensures k < |s| ==> !Less(s[k], e)
  {
    if s == [] || !Less(s[0], e) then 0 else
      var k := BisectLeft(s[1..], e);
      assert forall i :: 0 <= i < k ==> s[i + 1] == s[1..][i];
      1 + k
  }

  lemma {:induction false} BisectLeftIs(s: seq<Item>, e: Item, k: nat)
    requires k <= |s| && (forall i :: 0 <= i < k ==> Less(s[i], e)) && (k < |s| ==> !Less(s[k], e))
    ensures BisectLeft(s, e) == k
  {
    if k > 0 {
      assert forall i :: 0 <= i < k - 1 ==> s[1..][i] == s[i + 1];
      BisectLeftIs(s[1..], e, k - 1);
    }
  }

  function Insert(s: seq<Item>, e: Item): (r: seq<Item>) {
    var k := BisectLeft(s, e);
    s[..k] + [e] + s[k..]
  }

  /** s without its first occurrence of e; s itself when e does not occur. */
  function Remove(s: seq<Item>, e: Item): (r: seq<Item>) {
    if s == [] then []
    else if s[0] == e then s[1..]
    else [s[0]] + Remove(s[1..], e)
  }

  lemma {:induction false} RemoveIsDifference(s: seq<Item>, e: Item)
    ensures multiset(Remove(s, e)) == multiset(s) - multiset{e}
  {
    if s != [] {
      assert s == [s[0]] + s[1..];
      RemoveIsDifference(s[1..], e);
    }
  }

  lemma {:induction false} RemoveKeepsSorted(s: seq<Item>, e: Item)
    requires Sorted(s)
    ensures Sorted(Remove(s, e))
    ensures forall x :: x in Remove(s, e) ==> x in s
  {
    if s != [] && s[0] != e {
      RemoveKeepsSorted(s[1..], e);
      var t := Remove(s[1..], e);
      forall j | 0 <= j < |t|
        ensures !Less(t[j], s[0])
      {
        assert t[j] in s[1..];
        var k :| 0 <= k < |s[1..]| && s[1..][k] == t[j];
        assert s[k + 1] == t[j];
      }
    }
  }

  /** s without the items of es, each removed once, in order. */
  function RemoveAll(s: seq<Item>, es: seq<Item>): (r: seq<Item>)
    decreases |es|
  {
    if es == [] then s else RemoveAll(Remove(s, es[0]), es[1..])
  }

  lemma {:induction false} RemoveAllIsDifference(s: seq<Item>, es: seq<Item>)
    ensures multiset(RemoveAll(s, es)) == multiset(s) - multiset(es)
    ensures Sorted(s) ==> Sorted(RemoveAll(s, es))
    decreases |es|
  {
    if es != [] {
      assert es == [es[0]] + es[1..];
      RemoveIsDifference(s, es[0]);
      if Sorted(s) {
        RemoveKeepsSorted(s, es[0]);
      }
      RemoveAllIsDifference(Remove(s, es[0]), es[1..]);
    }
  }

  lemma LessIsTotalOrder(a: Item, b: Item, c: Item)
    ensures !Less(a, a)
    ensures Less(a, b) ==> !Less(b, a)
    ensures Less(a, b) && Less(b, c) ==> Less(a, c)
    ensures !Less(b, a) && !Less(c, b) ==> !Less(c, a)
    ensures Less(a, b) && !Less(c, b) ==> Less(a, c)
  {
  }

  lemma InsertKeepsSorted(s: seq<Item>, e: Item)
    requires Sorted(s)
    ensures Sorted(Insert(s, e))
    ensures multiset(Insert(s, e)) == multiset(s) + multiset{e}
  {
    InsertIsSum(s, e);
    var r := Insert(s, e);
    forall i, j | 0 <= i < j < |r|
      ensures !Less(r[j], r[i])
    {
      InsertedPair(s, e, i, j);
    }
  }

  lemma InsertIsSum(s: seq<Item>, e: Item)
    ensures multiset(Insert(s, e)) == multiset(s) + multiset{e}
  {
    var k := BisectLeft(s, e);
    assert s == s[..k] + s[k..];
  }

  lemma InsertedPair(s: seq<Item>, e: Item, i: nat, j: nat)
    requires Sorted(s) && i < j <= |s|
    ensures !Less(Insert(s, e)[j], Insert(s, e)[i])
  {
    var k := BisectLeft(s, e);
    var r := Insert(s, e);
    if j < k {
      assert r[i] == s[i] && r[j] == s[j];
    } else if j == k {
      assert r[i] == s[i] && r[j] == e;
      LessIsTotalOrder(s[i], e, e);
    } else if i < k {
      assert r[i] == s[i] && r[j] == s[j - 1];
    } else if i == k {
      assert r[i] == e && r[j] == s[j - 1];
      LessIsTotalOrder(e, s[k], s[j - 1]);
      LessIsTotalOrder(s[k], s[k], s[k]);
    } else {
      assert r[i] == s[i - 1] && r[j] == s[j - 1];
    }
  }

  lemma InsertBytes(s: seq<Item>, e: Item)
    ensures Bytes(Insert(s, e)) == Bytes(s) + e.pkt.length
  {
    var k := BisectLeft(s, e);
    assert s == s[..k] + s[k..];
    BytesAppend(s[..k], s[k..]);
    BytesAppend(s[..k] + [e], s[k..]);
    BytesAppend(s[..k], [e]);
  }

  lemma MultisetSlice(s: seq<Item>)
    requires s != []
    ensures multiset(s) == multiset{s[0]} + multiset(s[1..])
    ensures multiset(s) == multiset(s[..|s| - 1]) + multiset{s[|s| - 1]}
  {
    assert s == [s[0]] + s[1..];
    assert s == s[..|s| - 1] + [s[|s| - 1]];
  }

  /** How many items of s have a rank strictly below r. */
  function CountBelow(s: seq<Item>, r: real): (n: nat)
    ensures n <= |s|
  {
    if s == [] then 0 else (if s[0].rank < r then 1 else 0) + CountBelow(s[1..], r)
  }

  lemma {:induction false} CountBelowAppend(s: seq<Item>, t: seq<Item>, r: real)
    ensures CountBelow(s + t, r) == CountBelow(s, r) + CountBelow(t, r)
  {
    if s == [] {
      assert s + t == t;
    } else {
      assert (s + t)[1..] == s[1..] + t;
      CountBelowAppend(s[1..], t, r);
    }
  }

  lemma {:induction false} NoneBelow(s: seq<Item>, r: real)
    requires forall y :: y in s ==> y.rank >= r
    ensures CountBelow(s, r) == 0
  {
    if s != [] {
      assert s[0] in s;
      NoneBelow(s[1..], r);
    }
  }

  /** How many items of m have a rank strictly below r. */
  ghost function BelowIn(m: multiset<Item>, r: real): nat
    decreases |m|
  {
    if m == multiset{} then 0 else
      var x :| x in m;
      (if x.rank < r then 1 else 0) + BelowIn(m - multiset{x}, r)
  }

  lemma {:induction false} BelowInRemove(m: multiset<Item>, y: Item, r: real)
    requires y in m
    ensures BelowIn(m, r) == (if y.rank < r then 1 else 0) + BelowIn(m - multiset{y}, r)
    decreases |m|
  {
    var x :| x in m && BelowIn(m, r) == (if x.rank < r then 1 else 0) + BelowIn(m - multiset{x}, r);
    if x != y {
      BelowInRemove(m - multiset{x}, y, r);
      BelowInRemove(m - multiset{y}, x, r);
      assert m - multiset{x} - multiset{y} == m - multiset{y} - multiset{x};
    }
  }

  lemma {:induction false} CountBelowIsBelowIn(s: seq<Item>, r: real)
    ensures CountBelow(s, r) == BelowIn(multiset(s), r)
  {
    if s != [] {
      MultisetSlice(s);
      BelowInRemove(multiset(s), s[0], r);
      assert multiset(s) - multiset{s[0]} == multiset(s[1..]);
      CountBelowIsBelowIn(s[1..], r);
    }
  }

  lemma {:induction false} BelowInPlus(a: multiset<Item>, b: multiset<Item>, r: real)
    ensures BelowIn(a + b, r) == BelowIn(a, r) + BelowIn(b, r)
    decreases |a|
  {
    if a == multiset{} {
      assert a + b == b;
    } else {
      var x :| x in a;
      BelowInRemove(a, x, r);
      BelowInRemove(a + b, x, r);
      assert (a + b) - multiset{x} == (a - multiset{x}) + b;
      BelowInPlus(a - multiset{x}, b, r);
    }
  }
}
