/** Queue elements and the lists that hold them. */
module SortedLists {
  import opened Elements

  /** An element is shared: the scheduler's PIFO and its shadow list hold the same
      object, and a delay charged through one list is read through the other. */
  class Element {
    const item: Item
    var delay: nat
    var queueIndex: nat

    constructor (item: Item, queueIndex: nat)
      ensures this.item == item && this.delay == 0 && this.queueIndex == queueIndex
    {
      this.item := item;
      this.delay := 0;
      this.queueIndex := queueIndex;
    }
  }

  function ItemsOf(es: seq<Element>): (s: seq<Item>)
    ensures |s| == |es|
    ensures forall k :: 0 <= k < |es| ==> s[k] == es[k].item
  {
    seq(|es|, k requires 0 <= k < |es| => es[k].item)
  }

  /** es with e inserted in front of the first element that is not below it. */
  function Added(es: seq<Element>, e: Element): seq<Element> {
    var k := BisectLeft(ItemsOf(es), e.item);
    es[..k] + [e] + es[k..]
  }

  /** es without its first occurrence of e. */
  function Removed(es: seq<Element>, e: Element): (r: seq<Element>)
    ensures forall y :: y in r ==> y in es
  {
    if es == [] then []
    else if es[0] == e then es[1..]
    else [es[0]] + Removed(es[1..], e)
  }

  /** Every element of es is the one that stands for its item. */
  ghost predicate Linked(es: seq<Element>, rep: map<Item, Element>) {
    forall e :: e in es ==> e.item in rep && rep[e.item] == e
  }

  ghost predicate Unique(es: seq<Element>) {
    forall i, j :: 0 <= i < j < |es| ==> es[i] != es[j]
  }

  lemma ItemsOfAdded(es: seq<Element>, e: Element)
    ensures ItemsOf(Added(es, e)) == Insert(ItemsOf(es), e.item)
    ensures forall y :: y in Added(es, e) <==> y in es || y == e
  {
    var k := BisectLeft(ItemsOf(es), e.item);
    ItemsOfInserted(es, k, e);
    assert es == es[..k] + es[k..];
  }

  lemma ItemsOfInserted(es: seq<Element>, k: nat, e: Element)
    requires k <= |es|
    ensures ItemsOf(es[..k] + [e] + es[k..]) == ItemsOf(es)[..k] + [e.item] + ItemsOf(es)[k..]
  {
    ItemsOfConcat(es[..k] + [e], es[k..]);
    ItemsOfConcat(es[..k], [e]);
    assert ItemsOf([e]) == [e.item];
    assert ItemsOf(es[..k]) == ItemsOf(es)[..k];
    assert ItemsOf(es[k..]) == ItemsOf(es)[k..];
  }

  lemma ItemsOfConcat(es: seq<Element>, fs: seq<Element>)
    ensures ItemsOf(es + fs) == ItemsOf(es) + ItemsOf(fs)
  {
  }

  lemma AddedIsUnique(es: seq<Element>, e: Element)
    requires Unique(es) && e !in es
    ensures Unique(Added(es, e))
  {
  }

  lemma {:induction false} ItemsOfRemoved(es: seq<Element>, e: Element, rep: map<Item, Element>)
    requires Linked(es, rep) && Linked([e], rep)
    ensures ItemsOf(Removed(es, e)) == Remove(ItemsOf(es), e.item)
  {
    if es != [] {
      assert e in [e] && es[0] in es;
      assert ItemsOf(es)[1..] == ItemsOf(es[1..]);
      if es[0] != e {
        ItemsOfRemoved(es[1..], e, rep);
        assert ItemsOf([es[0]] + Removed(es[1..], e)) == [es[0].item] + ItemsOf(Removed(es[1..], e));
      }
    }
  }

  lemma {:induction false} RemovedIsUnique(es: seq<Element>, e: Element)
    requires Unique(es)
    ensures Unique(Removed(es, e)) && e !in Removed(es, e)
  {
    if es != [] {
      assert forall i, j :: 0 <= i < j < |es[1..]| ==> es[1..][i] == es[i + 1] && es[1..][j] == es[j + 1];
      if es[0] == e {
        forall j | 0 <= j < |es[1..]|
          ensures es[1..][j] != e
        {
          assert es[1..][j] == es[j + 1];
        }
      } else {
        RemovedIsUnique(es[1..], e);
        var r := Removed(es[1..], e);
        forall j | 0 <= j < |r|
          ensures r[j] != es[0]
        {
          assert r[j] in es[1..];
          var k :| 0 <= k < |es[1..]| && es[1..][k] == r[j];
          assert es[k + 1] == r[j];
        }
      }
    }
  }

  lemma {:induction false} NotRemoved(es: seq<Element>, e: Element)
    requires e !in es
    ensures Removed(es, e) == es && multiset(es) - multiset{e} == multiset(es)
  {
    if es != [] {
      NotRemoved(es[1..], e);
    }
  }

  lemma {:induction false} RemovedIsDifference(es: seq<Element>, e: Element)
    ensures multiset(Removed(es, e)) == multiset(es) - multiset{e}
  {
    if es != [] {
      assert es == [es[0]] + es[1..];
      RemovedIsDifference(es[1..], e);
    }
  }

  lemma {:induction false} RemovedIsSorted(es: seq<Element>, e: Element)
    requires Sorted(ItemsOf(es))
    ensures Sorted(ItemsOf(Removed(es, e)))
  {
    if es != [] {
      assert ItemsOf(es[1..]) == ItemsOf(es)[1..];
      if es[0] != e {
        RemovedIsSorted(es[1..], e);
        var r := Removed(es[1..], e);
        forall j | 0 <= j < |r|
          ensures !Less(r[j].item, es[0].item)
        {
          assert r[j] in es[1..];
          var k :| 0 <= k < |es[1..]| && es[1..][k] == r[j];
          assert ItemsOf(es)[k + 1] == r[j].item && ItemsOf(es)[0] == es[0].item;
        }
        assert Removed(es, e) == [es[0]] + r;
      }
    }
  }

  /** What stands before an entry below e is below e. */
  lemma LessBelow(s: seq<Item>, i: nat, mid: nat, e: Item)
    requires Sorted(s) && i <= mid < |s| && Less(s[mid], e)
    ensures Less(s[i], e)
  {
    if i < mid {
      assert !Less(s[mid], s[i]);
    }
  }

  /** A linked list holds an element as soon as it holds the element's item. */
  lemma LinkedHolds(es: seq<Element>, e: Element, rep: map<Item, Element>)
    requires Linked(es, rep) && Linked([e], rep) && e.item in multiset(ItemsOf(es))
    ensures e in es
  {
    assert e.item in ItemsOf(es);
    var k :| 0 <= k < |es| && ItemsOf(es)[k] == e.item;
    assert e in [e] && es[k] in es;
  }

  /** The list class of the schedulers, kept in order by insertion. */
  class SortedList {
    var items: seq<Element>

    ghost predicate Valid()
      reads this
    {
      Sorted(ItemsOf(items)) && Unique(items)
    }

    constructor ()
      ensures Valid() && items == []
    {
      items := [];
    }

    /** Binary search for the first element that is not below e. */
    method FindLeft(e: Element) returns (k: nat)
      requires Valid()
      ensures k == BisectLeft(ItemsOf(items), e.item)
    {
      ghost var s := ItemsOf(items);
      var hi := |items|;
      k := 0;
      while k < hi
        invariant k <= hi <= |items|
        invariant forall i :: 0 <= i < k ==> Less(s[i], e.item)
        invariant hi < |items| ==> !Less(s[hi], e.item)
      {
        var mid := (k + hi) / 2;
        if Less(items[mid].item, e.item) {
          forall i | 0 <= i < mid + 1
            ensures Less(s[i], e.item)
          {
            LessBelow(s, i, mid, e.item);
          }
          k := mid + 1;
        } else {
          hi := mid;
        }
      }
      BisectLeftIs(s, e.item, k);
    }

    method Add(e: Element)
      requires Valid() && e !in items
      modifies this
      ensures Valid() && items == Added(old(items), e)
      ensures multiset(items) == multiset(old(items)) + multiset{e}
    {
      hide Insert, Unique, Sorted;
      ItemsOfAdded(items, e);
      AddedIsUnique(items, e);
      InsertKeepsSorted(ItemsOf(items), e.item);
      var k := FindLeft(e);
      assert items == items[..k] + items[k..];
      items := items[..k] + [e] + items[k..];
    }

    /** Remove an element, wherever it is.  One that is not there is an error. */
    method Remove(e: Element) returns (found: bool)
      requires Valid()
      modifies this
      ensures Valid() && items == Removed(old(items), e) && e !in items
      ensures (found <==> e in old(items)) && (!found ==> items == old(items))
      ensures multiset(items) == multiset(old(items)) - multiset{e}
    {
      found := e in items;
      if !found {
        NotRemoved(items, e);
        return;
      }
      RemovedIsDifference(items, e);
      RemovedIsUnique(items, e);
      RemovedIsSorted(items, e);
      items := Removed(items, e);
    }

    /** pop(0): the least element. */
    method PopFirst() returns (e: Element)
      requires Valid() && items != []
      modifies this
      ensures Valid() && old(items) == [e] + items
      ensures forall y :: y in items ==> !Less(y.item, e.item)
    {
      e := items[0];
      assert ItemsOf(items[1..]) == ItemsOf(items)[1..];
      forall y | y in items[1..]
        ensures !Less(y.item, e.item)
      {
        var k :| 0 <= k < |items[1..]| && items[1..][k] == y;
        assert ItemsOf(items)[k + 1] == y.item && ItemsOf(items)[0] == e.item;
      }
      items := items[1..];
    }

    /** pop(): the greatest element. */
    method PopLast() returns (e: Element)
      requires Valid() && items != []
      modifies this
      ensures Valid() && old(items) == items + [e]
      ensures forall y :: y in items ==> !Less(e.item, y.item)
    {
      var n := |items| - 1;
      e := items[n];
      assert ItemsOf(items[..n]) == ItemsOf(items)[..n];
      forall y | y in items[..n]
        ensures !Less(e.item, y.item)
      {
        var k :| 0 <= k < n && items[k] == y;
        assert ItemsOf(items)[k] == y.item && ItemsOf(items)[n] == e.item;
      }
      items := items[..n];
    }
  }
}
