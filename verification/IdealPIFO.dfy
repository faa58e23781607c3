/** The ideal scheduler: one sorted list with a shared byte budget.  Scale-up PIFO is measured against it. */
module IdealPIFO {
  import opened Elements
  import opened SortedLists

  /** How many of the best items stay when one of the given length arrives: the most that leave room for it. */
  function Kept(s: seq<Item>, length: nat, buffer: real): (k: nat)
    ensures k <= |s|
  {
    if s == [] || (Bytes(s) + length) as real <= buffer then |s|
    else Kept(s[..|s| - 1], length, buffer)
  }

  lemma {:induction false} KeptIsMost(s: seq<Item>, length: nat, buffer: real)
    ensures var k := Kept(s, length, buffer);
      && (k == 0 || (Bytes(s[..k]) + length) as real <= buffer)
      && forall j :: k < j <= |s| ==> (Bytes(s[..j]) + length) as real > buffer
  {
    assert s[..|s|] == s;
    if s != [] && (Bytes(s) + length) as real > buffer {
      var t := s[..|s| - 1];
      KeptIsMost(t, length, buffer);
      forall j | 0 <= j <= |t|
        ensures t[..j] == s[..j]
      {
      }
    }
  }

  /** The list after an arrival. */
  function Arrived(s: seq<Item>, x: Item, buffer: real): seq<Item> {
    Insert(s[..Kept(s, x.pkt.length, buffer)], x)
  }

  /** After an arrival the list is sorted and within its budget, unless the newcomer alone exceeds it; what
      was evicted is no better than what stayed, and keeping one more would have been too much. */
  lemma ArrivalKeepsBest(s: seq<Item>, x: Item, buffer: real)
    requires Sorted(s)
    ensures var k := Kept(s, x.pkt.length, buffer);
      && Sorted(Arrived(s, x, buffer))
      && multiset(Arrived(s, x, buffer)) == multiset(s[..k]) + multiset{x}
      && (Bytes(Arrived(s, x, buffer)) as real <= buffer || Arrived(s, x, buffer) == [x])
      && (forall i, j :: 0 <= i < k <= j < |s| ==> !Less(s[j], s[i]))
      && (k < |s| ==> (Bytes(s[..k + 1]) + x.pkt.length) as real > buffer)
  {
    var k := Kept(s, x.pkt.length, buffer);
    KeptIsMost(s, x.pkt.length, buffer);
    InsertKeepsSorted(s[..k], x);
    InsertBytes(s[..k], x);
    if k == 0 {
      assert s[..0] == [];
    }
  }

  /** Nothing left behind is below the least item of a sorted list. */
  lemma LeastHasNoneBelow(s: seq<Item>)
    requires Sorted(s) && s != []
    ensures Sorted(s[1..]) && BisectLeft(s[1..], s[0]) == 0 && CountBelow(s[1..], s[0].rank) == 0
    ensures forall y :: y in s[1..] ==> !Less(y, s[0]) && y.rank >= s[0].rank
  {
    forall y | y in s[1..]
      ensures !Less(y, s[0]) && y.rank >= s[0].rank
    {
      var k :| 0 <= k < |s[1..]| && s[1..][k] == y;
      assert y == s[k + 1];
    }
    BisectLeftIs(s[1..], s[0], 0);
    NoneBelow(s[1..], s[0].rank);
  }

  datatype Served = Nothing | Sent(element: Element, rankError: nat, delay: nat)

  class IdealPIFOScheduler {
    const bufferSize: real
    const withDelay: bool
    var queue: SortedList
    var pifoSize: int
    var totalPktLength: int
    var maxTotalLength: int

    ghost function Items(): seq<Item>
      reads this, queue
    {
      ItemsOf(queue.items)
    }

    ghost predicate Valid()
      reads this, queue, queue.items
    {
      && queue.Valid()
      && pifoSize == totalPktLength == Bytes(Items()) <= maxTotalLength
      && forall e :: e in queue.items ==> e.delay == 0
    }

    constructor (bufferSize: real, withDelay: bool)
      ensures Valid() && Items() == [] && fresh(queue)
      ensures this.bufferSize == bufferSize && this.withDelay == withDelay
    {
      this.bufferSize, this.withDelay := bufferSize, withDelay;
      queue := new SortedList();
      pifoSize, totalPktLength, maxTotalLength := 0, 0, 0;
    }

    method Enqueue(pkt: Pkt, rank: real) returns (element: Element)
      requires Valid()
      modifies this, queue
      ensures Valid() && queue == old(queue) && fresh(element) && element.item == Item(rank, pkt)
      ensures Items() == Arrived(old(Items()), element.item, bufferSize)
      ensures queue.items == Added(old(queue.items)[..Kept(old(Items()), pkt.length, bufferSize)], element)
      ensures maxTotalLength == if old(maxTotalLength) >= Bytes(Items()) then old(maxTotalLength) else Bytes(Items())
    {
      hide Unique, Sorted, Kept, Bytes, Insert;
      element := new Element(Item(rank, pkt), 0);
      ghost var s := Items();
      MakeRoom(pkt.length);
      var kept := queue.items;
      totalPktLength := totalPktLength + pkt.length;
      if totalPktLength > maxTotalLength {
        maxTotalLength := totalPktLength;
      }
      ItemsOfAdded(kept, element);
      InsertBytes(ItemsOf(kept), element.item);
      queue.Add(element);
      AddedHas(kept, element);
      pifoSize := pifoSize + pkt.length;
    }

    /** Evict from the tail until an item of the given length fits. */
    method MakeRoom(length: nat)
      requires Valid()
      modifies this`pifoSize, this`totalPktLength, queue
      ensures Valid() && queue == old(queue)
      ensures queue.items == old(queue.items)[..Kept(old(Items()), length, bufferSize)]
      ensures Items() == old(Items())[..Kept(old(Items()), length, bufferSize)]
    {
      hide Unique, Sorted, Kept, Bytes;
      ghost var all := queue.items;
      var requiredSize := pifoSize + length;
      ghost var n := |all|;
      assert all[..n] == all && ItemsOf(all)[..n] == ItemsOf(all);
      while requiredSize as real > bufferSize && queue.items != []
        invariant Valid() && queue == old(queue) && maxTotalLength == old(maxTotalLength)
        invariant 0 <= n <= |all| && queue.items == all[..n] && Items() == ItemsOf(all)[..n]
        invariant requiredSize == pifoSize + length
        invariant Kept(ItemsOf(all)[..n], length, bufferSize) == Kept(ItemsOf(all), length, bufferSize)
        decreases n
      {
        DropLast(Items());
        KeptStep(Items(), length, bufferSize);
        PrefixItems(all, n);
        var removed := queue.PopLast();
        n := n - 1;
        PrefixItems(all, n);
        assert forall e :: e in queue.items ==> e in all[..n + 1];
        pifoSize := pifoSize - removed.item.pkt.length;
        requiredSize := pifoSize + length;
        totalPktLength := totalPktLength - removed.item.pkt.length;
      }
      KeptAll(Items(), length, bufferSize);
    }

    /** The least item leaves, and it never overtakes: rank error and delay are always zero. */
    method Dequeue() returns (r: Served)
      requires Valid()
      modifies this, queue, queue.items
      ensures Valid() && queue == old(queue) && maxTotalLength == old(maxTotalLength)
      ensures old(queue.items) == [] ==> r == Nothing && queue.items == []
      ensures old(queue.items) != [] ==> r == Sent(old(queue.items)[0], 0, 0) && queue.items == old(queue.items)[1..]
      ensures old(queue.items) != [] ==> forall y :: y in Items() ==> !Less(y, r.element.item)
    {
      hide Sorted, Bytes, CountBelow, Unique, Less, BisectLeft;
      if queue.items == [] {
        return Nothing;
      }
      ghost var s := Items();
      SortedNow(queue);
      LeastHasNoneBelow(s);
      FirstBytes(s);
      var element := queue.PopFirst();
      assert Items() == s[1..];
      pifoSize := pifoSize - element.item.pkt.length;
      var rankError := queue.FindLeft(element);
      totalPktLength := totalPktLength - element.item.pkt.length;
      if withDelay {
        UpdateQueueDelays(queue.items, element.item.rank);
      }
      r := Sent(element, rankError, element.delay);
    }

    method IsEmpty() returns (empty: bool)
      ensures empty <==> Items() == []
    {
      empty := queue.items == [];
    }
  }

  /** Charge one more delay to every element of rank below r. */
  method UpdateQueueDelays(es: seq<Element>, r: real)
    requires Unique(es)
    modifies es
    ensures forall e :: e in es ==> e.delay == old(e.delay) + if e.item.rank < r then 1 else 0
  {
    var k := 0;
    while k < |es|
      invariant k <= |es|
      invariant forall j :: 0 <= j < k ==> es[j].delay == old(es[j].delay) + if es[j].item.rank < r then 1 else 0
      invariant forall j :: k <= j < |es| ==> es[j].delay == old(es[j].delay)
    {
      if es[k].item.rank < r {
        es[k].delay := es[k].delay + 1;
      }
      k := k + 1;
    }
  }

  lemma SortedNow(queue: SortedList)
    requires queue.Valid()
    ensures Sorted(ItemsOf(queue.items)) && Unique(queue.items)
  {
  }

  lemma FirstBytes(s: seq<Item>)
    requires s != []
    ensures Bytes(s) == s[0].pkt.length + Bytes(s[1..])
  {
  }

  lemma KeptStep(s: seq<Item>, length: nat, buffer: real)
    requires s != [] && (Bytes(s) + length) as real > buffer
    ensures Kept(s, length, buffer) == Kept(s[..|s| - 1], length, buffer)
  {
  }

  lemma KeptAll(s: seq<Item>, length: nat, buffer: real)
    requires s == [] || (Bytes(s) + length) as real <= buffer
    ensures Kept(s, length, buffer) == |s|
  {
  }

  lemma PrefixItems(es: seq<Element>, n: nat)
    requires n <= |es|
    ensures ItemsOf(es[..n]) == ItemsOf(es)[..n]
    ensures n > 0 ==> ItemsOf(es)[..n][..n - 1] == ItemsOf(es)[..n - 1] && es[..n][..n - 1] == es[..n - 1]
  {
  }

  lemma AddedHas(es: seq<Element>, e: Element)
    ensures forall y :: y in Added(es, e) ==> y in es || y == e
  {
    ItemsOfAdded(es, e);
  }

  lemma DropLast(s: seq<Item>)
    requires s != []
    ensures Bytes(s) == Bytes(s[..|s| - 1]) + s[|s| - 1].pkt.length
  {
    var x := s[|s| - 1];
    assert s == s[..|s| - 1] + [x];
    BytesAppend(s[..|s| - 1], [x]);
    assert [x][1..] == [];
  }

  /** Emptying the scheduler gives everything it held in rank order. */
  method Drain(scheduler: IdealPIFOScheduler) returns (out: seq<Item>)
    requires scheduler.Valid()
    modifies scheduler, scheduler.queue, scheduler.queue.items
    ensures scheduler.Valid() && scheduler.Items() == []
    ensures out == old(scheduler.Items())
  {
    hide Unique, Sorted, Bytes;
    out := [];
    ghost var es := scheduler.queue.items;
    while scheduler.queue.items != []
      invariant scheduler.Valid() && scheduler.queue == old(scheduler.queue)
      invariant |out| <= |es| && scheduler.queue.items == es[|out|..]
      invariant out == ItemsOf(es)[..|out|]
      decreases |es| - |out|
    {
      assert forall e :: e in scheduler.queue.items ==> e in es;
      var r := scheduler.Dequeue();
      assert es[|out|..][1..] == es[|out| + 1..];
      out := out + [r.element.item];
    }
  }
}
