/** The Scale-up PIFO scheduler with its fields updated in place.

Each method is proved against the state machine of ScaleUpModel: after any
sequence of calls the fields denote the state of the corresponding run.
*/
module ScaleUpSchedulers {
  import opened Elements
  import opened SortedLists
  import opened Model = ScaleUpModel
  import opened ScaleUpAccounting

  /** What a dequeue gives its caller. */
  datatype Served = Nothing | Sent(item: Item, rankError: nat, delay: nat)

  function ServedBy(ev: seq<Event>): Served {
    if ev != [] && ev[|ev| - 1].Returned? then
      var e := ev[|ev| - 1];
      Sent(e.item, e.rankError, e.delay)
    else Nothing
  }

  function PortsOf(fifos: seq<seq<Element>>, pifos: seq<seq<Element>>, usage: seq<int>, sizes: seq<int>): (q: seq<Port>)
    requires |fifos| == |pifos| == |usage| == |sizes|
    ensures |q| == |fifos|
    ensures forall p :: 0 <= p < |q| ==> q[p] == Port(ItemsOf(fifos[p]), ItemsOf(pifos[p]), usage[p], sizes[p])
  {
    seq(|fifos|, p requires 0 <= p < |fifos| && |fifos| == |pifos| == |usage| == |sizes| =>
      Port(ItemsOf(fifos[p]), ItemsOf(pifos[p]), usage[p], sizes[p]))
  }

  lemma PortsUpdated(fifos: seq<seq<Element>>, pifos: seq<seq<Element>>, usage: seq<int>, sizes: seq<int>,
      p: nat, fifo: seq<Element>, pifo: seq<Element>, u: int, size: int)
    requires |fifos| == |pifos| == |usage| == |sizes| && p < |fifos|
    ensures PortsOf(fifos[p := fifo], pifos[p := pifo], usage[p := u], sizes[p := size])
         == PortsOf(fifos, pifos, usage, sizes)[p := Port(ItemsOf(fifo), ItemsOf(pifo), u, size)]
  {
  }

  lemma LinkedUpdated(lists: seq<seq<Element>>, p: nat, es: seq<Element>, rep: map<Item, Element>)
    requires p < |lists| && Linked(es, rep)
    requires forall k :: 0 <= k < |lists| ==> Linked(lists[k], rep)
    ensures var updated := lists[p := es];
      forall k :: 0 <= k < |lists| ==> Linked(updated[k], rep)
  {
  }

  /** Lists stay linked when a new item gets its element. */
  lemma StillLinked(lists: seq<seq<Element>>, e: Element, rep: map<Item, Element>)
    requires e.item !in rep
    requires forall k :: 0 <= k < |lists| ==> Linked(lists[k], rep)
    ensures forall k :: 0 <= k < |lists| ==> Linked(lists[k], rep[e.item := e])
  {
  }

  lemma AppendedLinked(lists: seq<seq<Element>>, p: nat, e: Element, rep: map<Item, Element>)
    requires e.item !in rep && p < |lists|
    requires forall k :: 0 <= k < |lists| ==> Linked(lists[k], rep)
    ensures Linked(lists[p] + [e], rep[e.item := e])
  {
  }

  class DynamicIntervalRRPIFOScheduler {
    const c: Config

    var numIntervals: nat
    var borders: seq<real>
    var borderCounts: seq<real>
    var intervalCounters: Counters
    var loadBalancerIndex: nat
    var pifoIndex: nat
    var adjustCounter: nat
    var fifos: seq<seq<Element>>
    var pifos: seq<seq<Element>>
    var fifoUsage: seq<int>
    var pifoSizes: seq<int>
    var queue: seq<Element>

    /** The element standing for each item ever accepted, and the packet ids offered so far. */
    ghost var rep: map<Item, Element>
    ghost var seen: set<nat>

    ghost predicate Dims()
      reads this`fifos, this`pifos, this`fifoUsage, this`pifoSizes
    {
      |fifos| == c.pifos && |pifos| == c.pifos && |fifoUsage| == c.pifos && |pifoSizes| == c.pifos
    }

    ghost function PortAt(p: nat): Port
      reads this`fifos, this`pifos, this`fifoUsage, this`pifoSizes
      requires Dims() && p < c.pifos
    {
      Port(ItemsOf(fifos[p]), ItemsOf(pifos[p]), fifoUsage[p], pifoSizes[p])
    }

    ghost function Ports(): (q: seq<Port>)
      reads this`fifos, this`pifos, this`fifoUsage, this`pifoSizes
      requires Dims()
      ensures |q| == c.pifos
      ensures forall p :: 0 <= p < c.pifos ==> q[p] == PortAt(p)
    {
      PortsOf(fifos, pifos, fifoUsage, pifoSizes)
    }

    /** The elements of the shadow list carry the delays d. */
    ghost predicate DelaysMatch(d: map<Item, nat>)
      reads this`queue, queue
    {
      forall e :: e in queue ==> e.item in d && d[e.item] == e.delay
    }

    /** The fields denote the state s. */
    ghost predicate Denotes(s: State)
      reads this, queue
    {
      && Dims()
      && borders == s.borders && borderCounts == s.hotness && intervalCounters == s.counters
      && loadBalancerIndex == s.balancer && pifoIndex == s.port && adjustCounter == s.adjusts
      && Ports() == s.ports && ItemsOf(queue) == s.shadow && DelaysMatch(s.delay)
    }

    /** The lists hold the objects that stand for their items. */
    ghost predicate Shared()
      reads this`queue, this`rep, this`fifos, this`pifos
    {
      && Linked(queue, rep) && Unique(queue)
      && (forall p :: 0 <= p < |fifos| ==> Linked(fifos[p], rep))
      && (forall p :: 0 <= p < |pifos| ==> Linked(pifos[p], rep))
    }

    /** The fields are consistent and denote s. */
    ghost predicate Valid(s: State)
      reads this, queue
    {
      && ValidConfig(c) && numIntervals == c.ranges && Shared() && Shape(c, s) && Denotes(s)
      && (forall x :: x in rep ==> x.pkt.pktid in seen)
    }

    constructor (numLoadBalancers: nat, numPifos: nat, numIntervals: nat, refillBatchSize: nat, adjustPeriod: nat,
        intervalTotalLength: real, pifoBufferSize: real, withDelay: bool, alwaysAttenuate: bool)
      requires numLoadBalancers >= 1 && numPifos >= 1 && numIntervals >= 1 && refillBatchSize >= 1 && adjustPeriod >= 1
      requires intervalTotalLength > 0.0 && pifoBufferSize >= 0.0
      ensures c == Configure(numLoadBalancers, numPifos, numIntervals, refillBatchSize, adjustPeriod,
                             intervalTotalLength, pifoBufferSize, withDelay, alwaysAttenuate)
      ensures ValidConfig(c) && Valid(Initial(c)) && seen == {} && queue == []
    {
      var c := Configure(numLoadBalancers, numPifos, numIntervals, refillBatchSize, adjustPeriod,
                         intervalTotalLength, pifoBufferSize, withDelay, alwaysAttenuate);
      this.c := c;
      this.numIntervals := c.ranges;
      borders := InitialBorders(c);
      borderCounts := seq(c.ranges, _ => 0.0);
      intervalCounters := InitialCounters(c);
      loadBalancerIndex, pifoIndex, adjustCounter := 0, 0, 0;
      fifos := seq(c.pifos, _ => []);
      pifos := seq(c.pifos, _ => []);
      fifoUsage := seq(c.pifos, _ => 0);
      pifoSizes := seq(c.pifos, _ => 0);
      queue := [];
      rep, seen := map[], {};
      new;
      assert Ports() == Initial(c).ports;
      assert ItemsOf(queue) == [];
    }

    // ----- Arrival -----

    method GetIntervalIndex(rank: real) returns (i: nat)
      requires |borders| == numIntervals + 1 && numIntervals >= 1
      modifies this`borders
      ensures (i, borders) == Locate(old(borders), rank)
    {
      i := 0;
      while i < numIntervals
        invariant i <= numIntervals
        invariant RangeFrom(borders, rank, 0) == RangeFrom(borders, rank, i)
        invariant borders == old(borders)
      {
        if borders[i] <= rank < borders[i + 1] {
          return;
        }
        i := i + 1;
      }
      borders := borders[numIntervals := rank];
      i := numIntervals - 1;
    }

    method SelectBestPifo(l: nat, i: nat) returns (best: nat)
      requires ValidConfig(c) && CountersShape(c, intervalCounters) && l < c.balancers && i < c.ranges
      ensures best == ChoosePort(Column(c, intervalCounters, l, i))
    {
      ghost var col := Column(c, intervalCounters, l, i);
      best := 0;
      var minCount := intervalCounters[l][0][i];
      var p := 1;
      assert col[..1] == [col[0]];
      while p < c.pifos
        invariant 1 <= p <= c.pifos && best < p
        invariant best == ChoosePort(col[..p]) && minCount == col[best]
      {
        var count := intervalCounters[l][p][i];
        assert col[..p + 1][..p] == col[..p];
        if count < minCount {
          minCount := count;
          best := p;
        }
        p := p + 1;
      }
      assert col[..p] == col;
    }

    method Enqueue(pkt: Pkt, rank: real, ghost s: State) returns (ghost t: State, ghost ev: seq<Event>)
      requires Valid(s) && pkt.pktid !in seen
      modifies this
      ensures Valid(t) && (t, ev) == Model.Enqueue(c, s, Item(rank, pkt))
      ensures seen == old(seen) + {pkt.pktid}
      ensures forall e :: e in queue ==> e in old(queue) || fresh(e)
    {
      seen := seen + {pkt.pktid};
      t, ev := Arrive(Item(rank, pkt), s);
    }

    method Arrive(x: Item, ghost s: State) returns (ghost t: State, ghost ev: seq<Event>)
      requires ValidConfig(c) && Shape(c, s) && Denotes(s) && Shared() && numIntervals == c.ranges
      requires x !in rep
      modifies this`borders, this`loadBalancerIndex, this`fifos, this`fifoUsage, this`queue, this`rep,
               this`intervalCounters, this`adjustCounter, this`borderCounts, this`numIntervals
      ensures Shared() && numIntervals == c.ranges
      ensures (t, ev) == Model.Enqueue(c, s, x) && Denotes(t)
      ensures rep.Keys <= old(rep.Keys) + {x}
      ensures forall e :: e in queue ==> e in old(queue) || fresh(e)
    {
      var i := GetIntervalIndex(x.rank);
      var l := loadBalancerIndex;
      AdvanceBalancer();
      t, ev := OfferTo(l, i, x, s.(borders := borders, balancer := loadBalancerIndex));
    }

    /** Put an item on the best PIFO of its range, unless the FIFO in front is full. */
    method OfferTo(l: nat, i: nat, x: Item, ghost s: State) returns (ghost t: State, ghost ev: seq<Event>)
      requires ValidConfig(c) && Shape(c, s) && Denotes(s) && Shared() && numIntervals == c.ranges
      requires l < c.balancers && i < c.ranges && x !in rep
      modifies this`borders, this`fifos, this`fifoUsage, this`queue, this`rep,
               this`intervalCounters, this`adjustCounter, this`borderCounts, this`numIntervals
      ensures Shared() && numIntervals == c.ranges
      ensures (t, ev) == Offer(c, s, l, i, x) && Denotes(t)
      ensures rep.Keys <= old(rep.Keys) + {x}
      ensures forall e :: e in queue ==> e in old(queue) || fresh(e)
    {
      hide Counted, Admit, Shared, ChoosePort, Bump, Column, DelaysMatch;
      var best := SelectBestPifo(l, i);
      assert fifoUsage[best] == s.ports[best].fifoBytes;
      if (fifoUsage[best] + x.pkt.length) as real < c.fifoLimit {
        var element := new Element(x, best);
        ghost var s1 := Accept(element, l, i, best, s);
        t := CountAccepted(s1);
        ev := [Accepted(l, i, best, x)];
      } else {
        t, ev := s, [Rejected(l, i, best, x)];
      }
    }

    method CountAccepted(ghost s: State) returns (ghost t: State)
      requires ValidConfig(c) && Shape(c, s) && Denotes(s) && numIntervals == c.ranges
      modifies this`borders, this`intervalCounters, this`adjustCounter, this`borderCounts, this`numIntervals
      ensures t == Counted(c, s) && Denotes(t) && numIntervals == c.ranges
    {
      hide Counted, Adjust, FullPeriods, Linked, Unique;
      adjustCounter := adjustCounter + 1;
      ghost var s1 := s.(adjusts := adjustCounter);
      var full := PeriodIsFull();
      if full {
        t := AdjustIntervals(s1);
      } else {
        t := s1;
      }
      CountedIs(c, s, s1);
    }

    method PeriodIsFull() returns (full: bool)
      requires ValidConfig(c)
      ensures full <==> FullPeriods(adjustCounter, c.period)
    {
      full := adjustCounter % c.period == 0;
    }

    method AdvanceBalancer()
      requires loadBalancerIndex < c.balancers
      modifies this`loadBalancerIndex
      ensures loadBalancerIndex == Next(old(loadBalancerIndex), c.balancers)
    {
      NextIsModular(loadBalancerIndex, c.balancers);
      loadBalancerIndex := (loadBalancerIndex + 1) % c.balancers;
    }

    method AdvancePort()
      requires pifoIndex < c.pifos
      modifies this`pifoIndex
      ensures pifoIndex == Next(old(pifoIndex), c.pifos)
    {
      NextIsModular(pifoIndex, c.pifos);
      pifoIndex := (pifoIndex + 1) % c.pifos;
    }

    method CalculateCurrentCounts() returns (counts: seq<int>)
      requires ValidConfig(c) && CountersShape(c, intervalCounters) && numIntervals == c.ranges
      ensures |counts| == c.ranges
      ensures forall i :: 0 <= i < c.ranges ==> counts[i] == RangeTotal(c, intervalCounters, i, c.balancers)
    {
      hide SumInts, RangeTotal, Column;
      counts := seq(numIntervals, _ => 0);
      NothingCounted(c, intervalCounters);
      for l := 0 to c.balancers
        invariant |counts| == c.ranges
        invariant forall i :: 0 <= i < c.ranges ==> counts[i] == RangeTotal(c, intervalCounters, i, l)
      {
        ghost var base := counts;
        forall i | 0 <= i < c.ranges
          ensures Column(c, intervalCounters, l, i)[..0] == []
        {
        }
        for p := 0 to c.pifos
          invariant |counts| == c.ranges
          invariant forall i :: 0 <= i < c.ranges ==>
            counts[i] == base[i] + SumInts(Column(c, intervalCounters, l, i)[..p])
        {
          ghost var before := counts;
          for i := 0 to numIntervals
            invariant |counts| == c.ranges
            invariant forall j :: 0 <= j < i ==> counts[j] == before[j] + intervalCounters[l][p][j]
            invariant forall j :: i <= j < c.ranges ==> counts[j] == before[j]
          {
            counts := counts[i := counts[i] + intervalCounters[l][p][i]];
          }
          forall i | 0 <= i < c.ranges
            ensures counts[i] == base[i] + SumInts(Column(c, intervalCounters, l, i)[..p + 1])
          {
            SumIntsSnoc(Column(c, intervalCounters, l, i), p);
          }
        }
        forall i | 0 <= i < c.ranges
          ensures counts[i] == RangeTotal(c, intervalCounters, i, l + 1)
        {
          assert Column(c, intervalCounters, l, i)[..c.pifos] == Column(c, intervalCounters, l, i);
          BalancerCounted(c, intervalCounters, i, l);
        }
      }
    }

    /** Take the least counter of each column away from the whole column. */
    method LowerCounters()
      requires ValidConfig(c) && CountersShape(c, intervalCounters) && numIntervals == c.ranges
      modifies this`intervalCounters
      ensures intervalCounters == Lowered(c, old(intervalCounters))
    {
      ghost var was := intervalCounters;
      ghost var goal := Lowered(c, was);
      for l := 0 to c.balancers
        invariant CountersShape(c, intervalCounters)
        invariant forall k :: 0 <= k < l ==> intervalCounters[k] == goal[k]
        invariant forall k :: l <= k < c.balancers ==> intervalCounters[k] == was[k]
      {
        LowerBalancer(l, was);
      }
    }

    method LowerBalancer(l: nat, ghost was: Counters)
      requires ValidConfig(c) && CountersShape(c, intervalCounters) && numIntervals == c.ranges
      requires CountersShape(c, was) && l < c.balancers && intervalCounters[l] == was[l]
      modifies this`intervalCounters
      ensures CountersShape(c, intervalCounters)
      ensures intervalCounters == old(intervalCounters)[l := Lowered(c, was)[l]]
    {
      ghost var start := intervalCounters;
      ghost var goal := Lowered(c, was);
      for i := 0 to numIntervals
        invariant CountersShape(c, intervalCounters)
        invariant intervalCounters == start[l := intervalCounters[l]]
        invariant forall p, j :: 0 <= p < c.pifos && 0 <= j < i ==> intervalCounters[l][p][j] == goal[l][p][j]
        invariant forall p, j :: 0 <= p < c.pifos && i <= j < c.ranges ==> intervalCounters[l][p][j] == was[l][p][j]
      {
        assert Column(c, intervalCounters, l, i) == Column(c, was, l, i);
        LowerColumn(l, i);
      }
      assert intervalCounters[l] == goal[l] by {
        forall p | 0 <= p < c.pifos
          ensures intervalCounters[l][p] == goal[l][p]
        {
        }
      }
    }

    method LowerColumn(l: nat, i: nat)
      requires ValidConfig(c) && CountersShape(c, intervalCounters) && l < c.balancers && i < c.ranges
      modifies this`intervalCounters
      ensures CountersShape(c, intervalCounters)
      ensures intervalCounters == old(intervalCounters)[l := intervalCounters[l]]
      ensures var col := Column(c, old(intervalCounters), l, i);
        forall p :: 0 <= p < c.pifos ==>
          intervalCounters[l][p] == old(intervalCounters)[l][p][i := col[p] - col[ChoosePort(col)]]
    {
      ghost var start := intervalCounters;
      var col := Column(c, intervalCounters, l, i);
      var minCount := col[ChoosePort(col)];
      for p := 0 to c.pifos
        invariant CountersShape(c, intervalCounters)
        invariant intervalCounters == start[l := intervalCounters[l]]
        invariant forall q :: 0 <= q < p ==> intervalCounters[l][q] == start[l][q][i := col[q] - minCount]
        invariant forall q :: p <= q < c.pifos ==> intervalCounters[l][q] == start[l][q]
      {
        intervalCounters := intervalCounters[l := intervalCounters[l][p :=
          intervalCounters[l][p][i := intervalCounters[l][p][i] - minCount]]];
      }
    }

    method AdjustIntervals(ghost s: State) returns (ghost t: State)
      requires ValidConfig(c) && Shape(c, s) && Denotes(s) && numIntervals == c.ranges
      modifies this`borders, this`intervalCounters, this`borderCounts, this`numIntervals
      ensures t == Adjust(c, s) && Denotes(t) && numIntervals == c.ranges
    {
      if numIntervals < 2 {
        return s;
      }
      ghost var s1 := HeatUp(s);
      t := Rearrange(s1);
    }

    /** Read the counters into the hotness of the ranges, and lower them. */
    method HeatUp(ghost s: State) returns (ghost t: State)
      requires ValidConfig(c) && Shape(c, s) && Denotes(s) && numIntervals == c.ranges
      modifies this`intervalCounters, this`borderCounts
      ensures t == Warmed(c, s) && Denotes(t)
    {
      var counts := CalculateCurrentCounts();
      LowerCounters();
      var decay := c.alwaysAttenuate || SumReals(borderCounts) > c.pifoCap / 1480.0;
      borderCounts := Aged(borderCounts, counts, decay);
      HeatedIs(c, s, counts, decay, borderCounts);
      t := s.(counters := intervalCounters, hotness := borderCounts);
    }

    method Rearrange(ghost s: State) returns (ghost t: State)
      requires ValidConfig(c) && Shape(c, s) && Denotes(s) && numIntervals == c.ranges >= 2
      modifies this`borders, this`borderCounts, this`numIntervals
      ensures t == Rearranged(c, s) && Denotes(t) && numIntervals == c.ranges
    {
      var total := SumReals(borderCounts);
      if total == 0.0 || !Uneven(borderCounts) {
        return s;
      }
      MoveBorders();
      t := s.(borders := borders, hotness := borderCounts);
    }

    method MoveBorders()
      requires |borders| == numIntervals + 1 && |borderCounts| == numIntervals && numIntervals >= 2
      modifies this`borders, this`borderCounts, this`numIntervals
      ensures (borders, borderCounts) == Rebalance(old(borders), old(borderCounts))
      ensures numIntervals == old(numIntervals)
    {
      MergeColdest();
      SplitHottest();
    }

    /** Merge the coldest range with its colder neighbour. */
    method MergeColdest()
      requires |borders| == numIntervals + 1 && |borderCounts| == numIntervals && numIntervals >= 2
      modifies this`borders, this`borderCounts, this`numIntervals
      ensures (borders, borderCounts) == Merge(old(borders), old(borderCounts), MergeStart(old(borderCounts)))
      ensures numIntervals == old(numIntervals) - 1
    {
      var minIndex := ArgMin(borderCounts);
      var mergeWith;
      if 0 < minIndex && minIndex < numIntervals - 1 {
        if borderCounts[minIndex - 1] <= borderCounts[minIndex + 1] {
          mergeWith := minIndex - 1;
        } else {
          mergeWith := minIndex + 1;
        }
      } else if 0 < minIndex {
        mergeWith := minIndex - 1;
      } else {
        mergeWith := minIndex + 1;
      }
      var mergeStart := if minIndex < mergeWith then minIndex else mergeWith;
      var mergeEnd := if minIndex < mergeWith then mergeWith else minIndex;
      borders := borders[..mergeEnd] + borders[mergeEnd + 1..];
      var merged := borderCounts[mergeStart] + borderCounts[mergeEnd];
      borderCounts := borderCounts[..mergeStart] + [merged] + borderCounts[mergeEnd + 1..];
      numIntervals := numIntervals - 1;
    }

    /** Split the hottest range in the middle. */
    method SplitHottest()
      requires |borders| == numIntervals + 1 && |borderCounts| == numIntervals && numIntervals >= 1
      modifies this`borders, this`borderCounts, this`numIntervals
      ensures (borders, borderCounts) == Split(old(borders), old(borderCounts), ArgMax(old(borderCounts)))
      ensures numIntervals == old(numIntervals) + 1
    {
      var maxIndex := ArgMax(borderCounts);
      var mid := (borders[maxIndex] + borders[maxIndex + 1]) / 2.0;
      borders := borders[..maxIndex + 1] + [mid] + borders[maxIndex + 1..];
      var half := borderCounts[maxIndex] / 2.0;
      borderCounts := borderCounts[..maxIndex] + [half, half] + borderCounts[maxIndex + 1..];
      numIntervals := numIntervals + 1;
    }

    /** Put a new element into a FIFO and into the shadow list. */
    method Accept(element: Element, l: nat, i: nat, p: nat, ghost s: State) returns (ghost t: State)
      requires ValidConfig(c) && Shape(c, s) && Denotes(s) && Shared()
      requires l < c.balancers && i < c.ranges && p < c.pifos
      requires element.item !in rep && element.delay == 0
      modifies this`fifos, this`intervalCounters, this`fifoUsage, this`queue, this`rep
      ensures Shared() && t == Admit(c, s, l, i, p, element.item) && Denotes(t)
      ensures rep == old(rep)[element.item := element]
      ensures forall e :: e in queue ==> e in old(queue) || e == element
    {
      hide Insert, Linked, Unique, Bump, CountersShape, Ports;
      var x := element.item;
      StillLinked(fifos, element, rep);
      StillLinked(pifos, element, rep);
      AppendedLinked(fifos, p, element, rep);
      BumpCounter(l, p, i);
      AppendToFifo(element, p);
      Mirror(element, s.delay);
      t := Admit(c, s, l, i, p, x);
    }

    method BumpCounter(l: nat, p: nat, i: nat)
      requires CountersShape(c, intervalCounters) && l < c.balancers && p < c.pifos && i < c.ranges
      modifies this`intervalCounters
      ensures CountersShape(c, old(intervalCounters)) && intervalCounters == Bump(old(intervalCounters), l, p, i)
    {
      intervalCounters := intervalCounters[l := intervalCounters[l][p :=
        intervalCounters[l][p][i := intervalCounters[l][p][i] + 1]]];
    }

    method AppendToFifo(element: Element, p: nat)
      requires Dims() && p < c.pifos
      modifies this`fifos, this`fifoUsage
      ensures Dims()
      ensures var q := old(PortAt(p)); var x := element.item;
        Ports() == old(Ports())[p := q.(fifo := q.fifo + [x], fifoBytes := q.fifoBytes + x.pkt.length)]
      ensures fifos == old(fifos)[p := old(fifos[p]) + [element]]
    {
      assert ItemsOf(fifos[p] + [element]) == ItemsOf(fifos[p]) + [element.item];
      PortsUpdated(fifos, pifos, fifoUsage, pifoSizes, p, fifos[p] + [element], pifos[p],
                   fifoUsage[p] + element.item.pkt.length, pifoSizes[p]);
      assert pifos[p := pifos[p]] == pifos && pifoSizes[p := pifoSizes[p]] == pifoSizes;
      fifos := fifos[p := fifos[p] + [element]];
      fifoUsage := fifoUsage[p := fifoUsage[p] + element.item.pkt.length];
    }

    /** Add a new element to the shadow list. */
    method Mirror(element: Element, ghost d: map<Item, nat>)
      requires Linked(queue, rep) && Unique(queue) && element.item !in rep && element.delay == 0
      requires DelaysMatch(d)
      modifies this`queue, this`rep
      ensures Linked(queue, rep) && Unique(queue) && DelaysMatch(d[element.item := 0])
      ensures rep == old(rep)[element.item := element]
      ensures ItemsOf(queue) == Insert(old(ItemsOf(queue)), element.item)
      ensures forall e :: e in queue ==> e in old(queue) || e == element
    {
      assert forall e :: e in queue ==> e.item in rep;
      ItemsOfAdded(queue, element);
      AddedIsUnique(queue, element);
      queue := Added(queue, element);
      rep := rep[element.item := element];
    }

    // ----- Departure -----

    method RefillFromFifo(p: nat)
      requires ValidConfig(c) && Dims() && Shared() && p < c.pifos
      requires multiset(ItemsOf(fifos[p])) + multiset(ItemsOf(pifos[p])) <= multiset(ItemsOf(queue))
      modifies this`fifos, this`pifos, this`fifoUsage, this`pifoSizes, this`queue
      ensures Dims() && Shared()
      ensures Ports() == old(Ports())[p := Refill(c, old(PortAt(p))).0]
      ensures ItemsOf(queue) == RemoveAll(old(ItemsOf(queue)), Refill(c, old(PortAt(p))).1)
      ensures forall e :: e in queue ==> e in old(queue)
    {
      LoadKeepsContents(PortAt(p), c.batch);
      var fifo, pifo, usage, size := LoadBatch(fifos[p], pifos[p], fifoUsage[p], pifoSizes[p], c.batch, rep);
      var left;
      pifo, size, left := ShedWorst(fifo, pifo, usage, size, queue, c.pifoCap, rep);
      ReplacePort(p, fifo, pifo, usage, size);
      queue := left;
    }

    method ReplacePort(p: nat, fifo: seq<Element>, pifo: seq<Element>, usage: int, size: int)
      requires Dims() && Shared() && p < c.pifos && Linked(fifo, rep) && Linked(pifo, rep)
      modifies this`fifos, this`pifos, this`fifoUsage, this`pifoSizes
      ensures Dims() && Shared()
      ensures Ports() == old(Ports())[p := Port(ItemsOf(fifo), ItemsOf(pifo), usage, size)]
    {
      PortsUpdated(fifos, pifos, fifoUsage, pifoSizes, p, fifo, pifo, usage, size);
      LinkedUpdated(fifos, p, fifo, rep);
      LinkedUpdated(pifos, p, pifo, rep);
      fifos, fifoUsage := fifos[p := fifo], fifoUsage[p := usage];
      pifos, pifoSizes := pifos[p := pifo], pifoSizes[p := size];
    }

    method UpdateQueueDelays(currentRank: real, ghost frame: set<Element>)
      requires Unique(queue) && forall e :: e in queue ==> e in frame
      modifies frame
      ensures forall e :: e in frame && e !in queue ==> e.delay == old(e.delay)
      ensures forall e :: e in queue ==>
        e.delay == old(e.delay) + (if e.item.rank < currentRank then 1 else 0)
    {
      for k := 0 to |queue|
        invariant forall e :: e in frame && e !in queue ==> e.delay == old(e.delay)
        invariant forall j :: k <= j < |queue| ==> queue[j].delay == old(queue[j].delay)
        invariant forall j :: 0 <= j < k ==>
          queue[j].delay == old(queue[j].delay) + (if queue[j].item.rank < currentRank then 1 else 0)
      {
        var elem := queue[k];
        if elem.item.rank < currentRank {
          elem.delay := elem.delay + 1;
        }
      }
    }

    /** Serve the next port.  Every removal from the shadow list succeeds in a reachable state. */
    method Dequeue(ghost s: State) returns (r: Served, ghost t: State, ghost ev: seq<Event>)
      requires Valid(s) && Removable(c, s)
      modifies this, queue
      ensures Valid(t) && (t, ev) == Model.Dequeue(c, s) && r == ServedBy(ev)
      ensures seen == old(seen)
      ensures forall e :: e in queue ==> e in old(queue)
    {
      r, t, ev := Visit(s, set e | e in queue);
    }

    method Visit(ghost s: State, ghost frame: set<Element>) returns (r: Served, ghost t: State, ghost ev: seq<Event>)
      requires ValidConfig(c) && Shape(c, s) && Denotes(s) && Shared() && Removable(c, s)
      requires forall e :: e in queue ==> e in frame
      modifies this`pifoIndex, this`fifos, this`pifos, this`fifoUsage, this`pifoSizes, this`queue, frame
      ensures Shared() && Denotes(t) && r == ServedBy(ev) && Shape(c, t) && (t, ev) == Model.Dequeue(c, s)
      ensures forall e :: e in queue ==> e in old(queue)
    {
      hide Shared, Served1, RemoveAll, Refill, Forget, Model.Dequeue, EvictionEvents, PopFront;
      var p := pifoIndex;
      AdvancePort();
      ghost var s1 := s.(port := pifoIndex);
      assert Denotes(s1);
      if pifos[p] != [] {
        ghost var q1, dropped := Refill(c, PopFront(s.ports[p])).0, Refill(c, PopFront(s.ports[p])).1;
        r, t, ev := ServeReady(p, s1, q1, dropped, frame);
        ReadyIs(c, s, q1, dropped, t, ev);
      } else if fifos[p] != [] {
        ghost var q1, dropped := Refill(c, s.ports[p]).0, Refill(c, s.ports[p]).1;
        r, t, ev := ServeWaiting(p, s1, q1, dropped, frame);
        WaitingIs(c, s, q1, dropped, t, ev);
      } else {
        r, t, ev := Nothing, s1, [Idle(p)];
        IdleIs(c, s, s1, ev);
      }
    }

    /** The visited PIFO holds something: pop its head, then refill. */
    method ServeReady(p: nat, ghost s: State, ghost q1: Port, ghost dropped: seq<Item>, ghost frame: set<Element>)
      returns (r: Served, ghost t: State, ghost ev: seq<Event>)
      requires ValidConfig(c) && Denotes(s) && Shared() && p < c.pifos && pifos[p] != []
      requires Contents(PopFront(s.ports[p])) <= multiset(s.shadow)
      requires (q1, dropped) == Refill(c, PopFront(s.ports[p]))
      requires s.ports[p].pifo[0] in multiset(RemoveAll(s.shadow, dropped))
      requires forall e :: e in queue ==> e in frame
      modifies this`fifos, this`pifos, this`fifoUsage, this`pifoSizes, this`queue, frame
      ensures Shared() && Denotes(t) && r == ServedBy(ev)
      ensures (t, ev) == Served1(c, s, p, q1, dropped, s.ports[p].pifo[0])
      ensures forall e :: e in queue ==> e in old(queue)
    {
      hide Linked, Unique, Refill, RemoveAll, EvictionEvents, Insert, DelaysMatch, Contents;
      var element := pifos[p][0];
      FirstIsLinked(pifos[p], rep);
      ghost var s1 := PopElement(p, s);
      ghost var s2 := RefillPort(p, s1, q1, dropped);
      ghost var e;
      assert element.item in multiset(s2.shadow);
      assert forall y :: y in queue ==> y in frame;
      r, t, e := Release(p, element, s2, frame);
      ev := EvictionEvents(s.delay, p, dropped) + [e];
      LastIsServed(EvictionEvents(s.delay, p, dropped), e);
      PoppedThenRefilled(c, s, s1, s2, p, q1, dropped, element.item, t, e);
    }

    /** The visited PIFO is empty: refill it, then pop its head. */
    method ServeWaiting(p: nat, ghost s: State, ghost q1: Port, ghost dropped: seq<Item>, ghost frame: set<Element>)
      returns (r: Served, ghost t: State, ghost ev: seq<Event>)
      requires ValidConfig(c) && Denotes(s) && Shared() && p < c.pifos
      requires Contents(s.ports[p]) <= multiset(s.shadow)
      requires (q1, dropped) == Refill(c, s.ports[p])
      requires q1.pifo != [] ==> q1.pifo[0] in multiset(RemoveAll(s.shadow, dropped))
      requires forall e :: e in queue ==> e in frame
      modifies this`fifos, this`pifos, this`fifoUsage, this`pifoSizes, this`queue, frame
      ensures Shared() && Denotes(t) && r == ServedBy(ev)
      ensures q1.pifo != [] ==> (t, ev) == Served1(c, s, p, PopFront(q1), dropped, q1.pifo[0])
      ensures q1.pifo == [] ==> t == Forget(s, dropped).(ports := s.ports[p := q1])
      ensures q1.pifo == [] ==> ev == EvictionEvents(s.delay, p, dropped)
      ensures forall e :: e in queue ==> e in old(queue)
    {
      hide Linked, Unique, Refill, RemoveAll, EvictionEvents, Insert, DelaysMatch, Contents;
      ghost var s1 := RefillPort(p, s, q1, dropped);
      if pifos[p] != [] {
        var element := pifos[p][0];
        FirstIsLinked(pifos[p], rep);
        ghost var s2 := PopElement(p, s1);
        ghost var e;
        assert element.item in multiset(s2.shadow);
        assert forall y :: y in queue ==> y in frame;
        r, t, e := Release(p, element, s2, frame);
        ev := EvictionEvents(s.delay, p, dropped) + [e];
        LastIsServed(EvictionEvents(s.delay, p, dropped), e);
        RefilledThenPopped(c, s, s1, s2, p, q1, dropped, element.item, t, e);
      } else {
        r, t, ev := Nothing, s1, EvictionEvents(s.delay, p, dropped);
        NoReturn(s.delay, p, dropped);
      }
    }

    method PopElement(p: nat, ghost s: State) returns (ghost t: State)
      requires Denotes(s) && Shared() && p < c.pifos && pifos[p] != []
      modifies this`fifos, this`pifos, this`fifoUsage, this`pifoSizes
      ensures Shared() && Denotes(t) && t == s.(ports := s.ports[p := PopFront(s.ports[p])])
    {
      var element := pifos[p][0];
      assert ItemsOf(pifos[p][1..]) == ItemsOf(pifos[p])[1..];
      ReplacePort(p, fifos[p], pifos[p][1..], fifoUsage[p], pifoSizes[p] - element.item.pkt.length);
      t := s.(ports := s.ports[p := PopFront(s.ports[p])]);
    }

    method RefillPort(p: nat, ghost s: State, ghost q1: Port, ghost dropped: seq<Item>) returns (ghost t: State)
      requires ValidConfig(c) && Denotes(s) && Shared() && p < c.pifos
      requires Contents(s.ports[p]) <= multiset(s.shadow)
      requires (q1, dropped) == Refill(c, s.ports[p])
      modifies this`fifos, this`pifos, this`fifoUsage, this`pifoSizes, this`queue
      ensures Shared() && Denotes(t) && t == Forget(s, dropped).(ports := s.ports[p := q1])
      ensures forall e :: e in queue ==> e in old(queue)
    {
      RefillFromFifo(p);
      t := Forget(s, dropped).(ports := s.ports[p := q1]);
      assert forall y :: y in queue ==> y.item in ItemsOf(queue);
    }

    /** Take a popped element out of the shadow list, measure its rank error, charge those it overtook. */
    method Release(p: nat, element: Element, ghost s: State, ghost frame: set<Element>)
      returns (r: Served, ghost t: State, ghost e: Event)
      requires Denotes(s) && Shared() && Linked([element], rep)
      requires element.item in multiset(s.shadow)
      requires forall y :: y in queue ==> y in frame
      modifies this`queue, frame
      ensures Shared() && Denotes(t) && (t, e) == Depart(c, s, p, element.item)
      ensures r == Sent(element.item, e.rankError, e.delay)
      ensures forall y :: y in queue ==> y in old(queue)
    {
      hide Unique, RemoveAll, Insert, Remove, BisectLeft, CountBelow, Ports, Dims;
      LinkedHolds(queue, element, rep);
      var rankError := BisectLeft(ItemsOf(queue), element.item);
      queue := Withdrawn(queue, element, rep);
      if c.withDelay {
        UpdateQueueDelays(element.item.rank, frame);
      }
      r := Sent(element.item, rankError, element.delay);
      t, e := Depart(c, s, p, element.item).0, Depart(c, s, p, element.item).1;
      assert forall y :: y in queue ==> y.item in ItemsOf(queue);
    }

    method IsEmpty() returns (empty: bool)
      requires Dims()
      ensures empty <==> forall p :: 0 <= p < c.pifos ==> pifos[p] == [] && fifos[p] == []
    {
      for p := 0 to |pifos|
        invariant forall k :: 0 <= k < p ==> pifos[k] == []
      {
        if pifos[p] != [] {
          return false;
        }
      }
      for p := 0 to |fifos|
        invariant forall k :: 0 <= k < p ==> fifos[k] == []
      {
        if fifos[p] != [] {
          return false;
        }
      }
      return true;
    }
  }

  // ----- Refilling one PIFO -----

  /** Move up to batch elements from a FIFO into its PIFO. */
  method LoadBatch(fifo0: seq<Element>, pifo0: seq<Element>, usage0: int, size0: int, batch: nat,
      ghost rep: map<Item, Element>)
    returns (fifo: seq<Element>, pifo: seq<Element>, usage: int, size: int)
    requires Linked(fifo0, rep) && Linked(pifo0, rep)
    ensures Linked(fifo, rep) && Linked(pifo, rep)
    ensures Port(ItemsOf(fifo), ItemsOf(pifo), usage, size)
         == Load(Port(ItemsOf(fifo0), ItemsOf(pifo0), usage0, size0), batch)
  {
    hide Load, Linked;
    fifo, pifo, usage, size := fifo0, pifo0, usage0, size0;
    ghost var now := Port(ItemsOf(fifo), ItemsOf(pifo), usage, size);
    ghost var done := Load(now, batch);
    var k := 0;
    while k < batch
      invariant k <= batch && Linked(fifo, rep) && Linked(pifo, rep)
      invariant now == Port(ItemsOf(fifo), ItemsOf(pifo), usage, size)
      invariant Load(now, batch - k) == done
    {
      LoadDone(now, batch - k);
      if fifo == [] {
        break;
      }
      fifo, pifo, usage, size := LoadElement(fifo, pifo, usage, size, rep);
      LoadStep(now, batch - k);
      now := Port(ItemsOf(fifo), ItemsOf(pifo), usage, size);
      k := k + 1;
    }
    if k == batch {
      LoadDone(now, 0);
    }
  }

  lemma LoadDone(q: Port, n: nat)
    ensures q.fifo == [] || n == 0 ==> Load(q, n) == q
  {
  }

  lemma LoadStep(q: Port, n: nat)
    requires n > 0 && q.fifo != []
    ensures Load(q, n) == Load(LoadOne(q), n - 1)
  {
  }

  method LoadElement(fifo0: seq<Element>, pifo0: seq<Element>, usage0: int, size0: int,
      ghost rep: map<Item, Element>)
    returns (fifo: seq<Element>, pifo: seq<Element>, usage: int, size: int)
    requires Linked(fifo0, rep) && Linked(pifo0, rep) && fifo0 != []
    ensures Linked(fifo, rep) && Linked(pifo, rep)
    ensures Port(ItemsOf(fifo), ItemsOf(pifo), usage, size)
         == LoadOne(Port(ItemsOf(fifo0), ItemsOf(pifo0), usage0, size0))
  {
    var element := fifo0[0];
    ItemsOfAdded(pifo0, element);
    assert ItemsOf(fifo0[1..]) == ItemsOf(fifo0)[1..];
    fifo := fifo0[1..];
    pifo := Added(pifo0, element);
    usage := usage0 - element.item.pkt.length;
    size := size0 + element.item.pkt.length;
  }

  /** Evict the worst elements of a PIFO, from it and from the shadow list, until it is within its cap. */
  method ShedWorst(ghost fifo: seq<Element>, pifo0: seq<Element>, ghost usage: int, size0: int,
      queue0: seq<Element>, cap: real, ghost rep: map<Item, Element>)
    returns (pifo: seq<Element>, size: int, queue: seq<Element>)
    requires Linked(pifo0, rep) && Linked(queue0, rep) && Unique(queue0)
    requires multiset(ItemsOf(pifo0)) <= multiset(ItemsOf(queue0))
    ensures Linked(pifo, rep) && Linked(queue, rep) && Unique(queue)
    ensures Port(ItemsOf(fifo), ItemsOf(pifo), usage, size)
         == Shed(Port(ItemsOf(fifo), ItemsOf(pifo0), usage, size0), cap).0
    ensures ItemsOf(queue)
         == RemoveAll(ItemsOf(queue0), Shed(Port(ItemsOf(fifo), ItemsOf(pifo0), usage, size0), cap).1)
    ensures forall e :: e in queue ==> e in queue0
  {
    ghost var now := Port(ItemsOf(fifo), ItemsOf(pifo0), usage, size0);
    ghost var done := Shed(now, cap);
    ghost var gone: seq<Item> := [];
    assert [] + done.1 == done.1;
    pifo, size, queue := pifo0, size0, queue0;
    while size as real > cap && pifo != []
      invariant Linked(pifo, rep) && Linked(queue, rep) && Unique(queue)
      invariant now == Port(ItemsOf(fifo), ItemsOf(pifo), usage, size)
      invariant done.0 == Shed(now, cap).0 && done.1 == gone + Shed(now, cap).1
      invariant ItemsOf(queue) == RemoveAll(ItemsOf(queue0), gone)
      invariant multiset(ItemsOf(pifo)) <= multiset(ItemsOf(queue))
      invariant forall e :: e in queue ==> e in queue0
      decreases |pifo|
    {
      var x;
      x, pifo, size, queue := DropWorst(fifo, pifo, usage, size, queue, rep);
      ShedSnoc(now, Port(ItemsOf(fifo), ItemsOf(pifo), usage, size), cap, gone);
      now := Port(ItemsOf(fifo), ItemsOf(pifo), usage, size);
      RemoveAllSnoc(ItemsOf(queue0), gone, x);
      gone := gone + [x];
    }
    assert gone + [] == gone;
  }

  method DropWorst(ghost fifo: seq<Element>, pifo0: seq<Element>, ghost usage: int, size0: int,
      queue0: seq<Element>, ghost rep: map<Item, Element>)
    returns (x: Item, pifo: seq<Element>, size: int, queue: seq<Element>)
    requires Linked(pifo0, rep) && Linked(queue0, rep) && Unique(queue0) && pifo0 != []
    requires multiset(ItemsOf(pifo0)) <= multiset(ItemsOf(queue0))
    ensures Linked(pifo, rep) && Linked(queue, rep) && Unique(queue)
    ensures |pifo| == |pifo0| - 1
    ensures x == ItemsOf(pifo0)[|pifo|]
    ensures Port(ItemsOf(fifo), ItemsOf(pifo), usage, size)
         == Port(ItemsOf(fifo), ItemsOf(pifo0)[..|pifo|], usage, size0 - x.pkt.length)
    ensures ItemsOf(queue) == Remove(ItemsOf(queue0), x)
    ensures multiset(ItemsOf(pifo)) <= multiset(ItemsOf(queue))
    ensures forall e :: e in queue ==> e in queue0
  {
    var n := |pifo0| - 1;
    var removed := pifo0[n];
    x := removed.item;
    LastItem(pifo0);
    assert removed in pifo0;
    assert Linked([removed], rep);
    queue := Withdrawn(queue0, removed, rep);
    pifo := pifo0[..n];
    size := size0 - x.pkt.length;
  }

  /** The shadow list without an element that it holds. */
  method Withdrawn(queue: seq<Element>, removed: Element, ghost rep: map<Item, Element>)
    returns (left: seq<Element>)
    requires Linked(queue, rep) && Unique(queue) && Linked([removed], rep)
    requires removed.item in multiset(ItemsOf(queue))
    ensures Linked(left, rep) && Unique(left)
    ensures ItemsOf(left) == Remove(ItemsOf(queue), removed.item)
    ensures multiset(ItemsOf(left)) == multiset(ItemsOf(queue)) - multiset{removed.item}
    ensures forall e :: e in left ==> e in queue
    ensures removed !in left
  {
    LinkedHolds(queue, removed, rep);
    RemoveIsDifference(ItemsOf(queue), removed.item);
    ItemsOfRemoved(queue, removed, rep);
    RemovedIsUnique(queue, removed);
    assert removed in queue;
    left := Removed(queue, removed);
  }

  // ----- Lemmas on values -----

  function Aged(hotness: seq<real>, counts: seq<int>, decay: bool): (h: seq<real>)
    requires |hotness| == |counts|
    ensures |h| == |hotness|
  {
    seq(|hotness|, i requires 0 <= i < |hotness| && |hotness| == |counts| =>
      (if decay then hotness[i] * 0.5 else hotness[i]) + counts[i] as real)
  }

  lemma HeatedIs(c: Config, s: State, counts: seq<int>, decay: bool, h: seq<real>)
    requires ValidConfig(c) && Shape(c, s) && |counts| == c.ranges
    requires forall i :: 0 <= i < c.ranges ==> counts[i] == RangeTotal(c, s.counters, i, c.balancers)
    requires decay == (c.alwaysAttenuate || SumReals(s.hotness) > c.pifoCap / 1480.0)
    requires h == Aged(s.hotness, counts, decay)
    ensures h == Heated(c, s.hotness, s.counters)
  {
  }

  lemma SumIntsSnoc(s: seq<int>, p: nat)
    requires p < |s|
    ensures SumInts(s[..p + 1]) == SumInts(s[..p]) + s[p]
  {
    assert s[..p + 1][..p] == s[..p];
  }

  /** Serving x from port p: the port is now q and some items have been evicted from it. */
  ghost function Served1(c: Config, s: State, p: nat, q: Port, dropped: seq<Item>, x: Item): (State, seq<Event>)
    requires p < |s.ports|
  {
    var (t, e) := Depart(c, Forget(s, dropped).(ports := s.ports[p := q]), p, x);
    (t, EvictionEvents(s.delay, p, dropped) + [e])
  }

  lemma PoppedThenRefilled(c: Config, s: State, s1: State, s2: State, p: nat, q1: Port, dropped: seq<Item>,
      x: Item, t: State, e: Event)
    requires p < |s.ports| && s.ports[p].pifo != []
    requires s1 == s.(ports := s.ports[p := PopFront(s.ports[p])])
    requires s2 == Forget(s1, dropped).(ports := s1.ports[p := q1])
    requires (t, e) == Depart(c, s2, p, x)
    ensures (t, EvictionEvents(s.delay, p, dropped) + [e]) == Served1(c, s, p, q1, dropped, x)
  {
    assert s2 == Forget(s, dropped).(ports := s.ports[p := q1]);
  }

  lemma RefilledThenPopped(c: Config, s: State, s1: State, s2: State, p: nat, q1: Port, dropped: seq<Item>,
      x: Item, t: State, e: Event)
    requires p < |s.ports| && q1.pifo != []
    requires s1 == Forget(s, dropped).(ports := s.ports[p := q1])
    requires s2 == s1.(ports := s1.ports[p := PopFront(q1)])
    requires (t, e) == Depart(c, s2, p, x)
    ensures (t, EvictionEvents(s.delay, p, dropped) + [e]) == Served1(c, s, p, PopFront(q1), dropped, x)
  {
    assert s2 == Forget(s, dropped).(ports := s.ports[p := PopFront(q1)]);
  }

  lemma ReadyIs(c: Config, s: State, q1: Port, dropped: seq<Item>, t: State, ev: seq<Event>)
    requires ValidConfig(c) && Shape(c, s) && s.ports[s.port].pifo != []
    requires (q1, dropped) == Refill(c, PopFront(s.ports[s.port]))
    requires (t, ev) == Served1(c, s.(port := Next(s.port, c.pifos)), s.port, q1, dropped, s.ports[s.port].pifo[0])
    ensures (t, ev) == Model.Dequeue(c, s) && Shape(c, t)
  {
    assert Model.Dequeue(c, s) == Serve(c, s, q1, dropped, s.ports[s.port].pifo[0]);
  }

  lemma WaitingIs(c: Config, s: State, q1: Port, dropped: seq<Item>, t: State, ev: seq<Event>)
    requires ValidConfig(c) && Shape(c, s) && s.ports[s.port].pifo == [] && s.ports[s.port].fifo != []
    requires (q1, dropped) == Refill(c, s.ports[s.port])
    requires var s1 := s.(port := Next(s.port, c.pifos));
      && (q1.pifo != [] ==> (t, ev) == Served1(c, s1, s.port, PopFront(q1), dropped, q1.pifo[0]))
      && (q1.pifo == [] ==> t == Forget(s1, dropped).(ports := s.ports[s.port := q1]))
      && (q1.pifo == [] ==> ev == EvictionEvents(s.delay, s.port, dropped))
    ensures (t, ev) == Model.Dequeue(c, s) && Shape(c, t)
  {
    if q1.pifo != [] {
      assert Model.Dequeue(c, s) == Serve(c, s, PopFront(q1), dropped, q1.pifo[0]);
    }
  }

  lemma IdleIs(c: Config, s: State, t: State, ev: seq<Event>)
    requires ValidConfig(c) && Shape(c, s) && s.ports[s.port].pifo == [] && s.ports[s.port].fifo == []
    requires t == s.(port := Next(s.port, c.pifos)) && ev == [Idle(s.port)]
    ensures (t, ev) == Model.Dequeue(c, s) && Shape(c, t)
  {
  }

  lemma FirstIsLinked(es: seq<Element>, rep: map<Item, Element>)
    requires Linked(es, rep) && es != []
    ensures Linked([es[0]], rep)
  {
    assert es[0] in es;
  }

  lemma LastIsServed(ev: seq<Event>, e: Event)
    requires e.Returned?
    ensures ServedBy(ev + [e]) == Sent(e.item, e.rankError, e.delay)
  {
  }

  lemma NoReturn(delay: map<Item, nat>, p: nat, dropped: seq<Item>)
    ensures ServedBy(EvictionEvents(delay, p, dropped)) == Nothing
  {
  }

  /** What a visit to the next port takes from the shadow list is there. */
  ghost predicate Removable(c: Config, s: State)
    requires ValidConfig(c) && Shape(c, s)
  {
    var q := s.ports[s.port];
    if q.pifo != [] then
      && Contents(PopFront(q)) <= multiset(s.shadow)
      && q.pifo[0] in multiset(RemoveAll(s.shadow, Refill(c, PopFront(q)).1))
    else
      && Contents(q) <= multiset(s.shadow)
      && (Refill(c, q).0.pifo != [] ==> Refill(c, q).0.pifo[0] in multiset(RemoveAll(s.shadow, Refill(c, q).1)))
  }

  lemma BalancedIsRemovable(c: Config, s: State, log: seq<Event>)
    requires ValidConfig(c) && Shape(c, s) && AccountingInv(c, s, log)
    ensures Removable(c, s)
  {
    hide PortOk, Refill, AccountingInv, RemoveAll;
    var q := s.ports[s.port];
    PortInShadow(c, s, log, s.port);
    if q.pifo != [] {
      PopFrontKeeps(c, q);
      RefillKeeps(c, PopFront(q));
      var r := Refill(c, PopFront(q));
      StillHeld(s.shadow, r.1, q.pifo[0], Contents(r.0), Contents(q));
    } else {
      RefillKeeps(c, q);
      var r := Refill(c, q);
      if r.0.pifo != [] {
        PopFrontKeeps(c, r.0);
        StillHeld(s.shadow, r.1, r.0.pifo[0], Contents(PopFront(r.0)), Contents(q));
      }
    }
  }

  lemma PortInShadow(c: Config, s: State, log: seq<Event>, p: nat)
    requires ValidConfig(c) && Shape(c, s) && AccountingInv(c, s, log) && p < c.pifos
    ensures PortOk(c, s.ports[p]) && Contents(s.ports[p]) <= multiset(s.shadow)
  {
    HeldHas(s.ports, p);
  }

  /** After evictions from a port, the item popped from it is still in the shadow list. */
  lemma StillHeld(shadow: seq<Item>, dropped: seq<Item>, x: Item, left: multiset<Item>, was: multiset<Item>)
    requires left + multiset(dropped) + multiset{x} == was && was <= multiset(shadow)
    ensures x in multiset(RemoveAll(shadow, dropped))
  {
    RemoveAllIsDifference(shadow, dropped);
  }

  lemma CountedIs(c: Config, s: State, s1: State)
    requires ValidConfig(c) && Shape(c, s) && Shape(c, s1) && s1 == s.(adjusts := s.adjusts + 1)
    ensures Counted(c, s) == if FullPeriods(s1.adjusts, c.period) then Adjust(c, s1) else s1
  {
    hide Adjust, FullPeriods;
  }

  /** Shedding one item and then the rest. */
  lemma ShedSnoc(q: Port, q1: Port, cap: real, gone: seq<Item>)
    requires q.pifoBytes as real > cap && q.pifo != []
    requires var n := |q.pifo| - 1;
      q1 == q.(pifo := q.pifo[..n], pifoBytes := q.pifoBytes - q.pifo[n].pkt.length)
    ensures Shed(q, cap).0 == Shed(q1, cap).0
    ensures gone + Shed(q, cap).1 == (gone + [q.pifo[|q.pifo| - 1]]) + Shed(q1, cap).1
  {
    hide Shed;
    ShedStep(q, cap);
    assert q1 == WithoutLast(q);
  }

  lemma LastItem(es: seq<Element>)
    requires es != []
    ensures ItemsOf(es[..|es| - 1]) == ItemsOf(es)[..|es| - 1]
    ensures multiset(ItemsOf(es)) == multiset(ItemsOf(es[..|es| - 1])) + multiset{es[|es| - 1].item}
  {
    MultisetSlice(ItemsOf(es));
    assert ItemsOf(es[..|es| - 1]) == ItemsOf(es)[..|es| - 1];
  }

  lemma NothingCounted(c: Config, counters: Counters)
    requires CountersShape(c, counters)
    ensures SumInts([]) == 0 && forall i :: 0 <= i < c.ranges ==> RangeTotal(c, counters, i, 0) == 0
  {
  }

  lemma BalancerCounted(c: Config, counters: Counters, i: nat, l: nat)
    requires CountersShape(c, counters) && i < c.ranges && l < c.balancers
    ensures RangeTotal(c, counters, i, l + 1) == RangeTotal(c, counters, i, l) + SumInts(Column(c, counters, l, i))
  {
    hide SumInts, Column;
  }

  lemma {:induction false} LoadKeepsContents(q: Port, n: nat)
    ensures Contents(Load(q, n)) == Contents(q)
    decreases n
  {
    hide Insert, Contents, LoadOne;
    if n > 0 && q.fifo != [] {
      LoadOneKeepsContents(q);
      LoadKeepsContents(LoadOne(q), n - 1);
    }
  }

  lemma LoadOneKeepsContents(q: Port)
    requires q.fifo != []
    ensures Contents(LoadOne(q)) == Contents(q)
  {
    hide Insert;
    InsertIsSum(q.pifo, q.fifo[0]);
    MultisetSlice(q.fifo);
    Moved(multiset(q.fifo[1..]), multiset(q.pifo), q.fifo[0]);
  }

  lemma {:induction false} RemoveAllSnoc(s: seq<Item>, gone: seq<Item>, x: Item)
    ensures RemoveAll(s, gone + [x]) == Remove(RemoveAll(s, gone), x)
    decreases |gone|
  {
    if gone == [] {
      assert [] + [x] == [x];
      assert [x][1..] == [];
    } else {
      assert (gone + [x])[1..] == gone[1..] + [x];
      RemoveAllSnoc(Remove(s, gone[0]), gone[1..], x);
    }
  }
}
