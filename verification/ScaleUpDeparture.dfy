/** What a visit to a port takes out of it, and what delays count. */
module ScaleUpDeparture {
  import opened Elements
  import opened ScaleUpModel
  import opened ScaleUpAccounting
  import opened ScaleUpArrival
  import opened ScaleUpRoundRobin

  // ----- Refills -----

  /** The dropped items are the last ones, worst first. */
  ghost predicate WorstFirst(left: seq<Item>, dropped: seq<Item>) {
    && (forall x, y :: x in dropped && y in left ==> !Less(x, y))
    && forall i, j :: 0 <= i < j < |dropped| ==> !Less(dropped[i], dropped[j])
  }

  lemma {:induction false} ShedIs(q: Port, cap: real)
    requires q.pifoBytes == Bytes(q.pifo) && Sorted(q.pifo) && cap >= 0.0
    ensures var (r, dropped) := Shed(q, cap);
      && r.fifo == q.fifo && r.pifo <= q.pifo && r.pifoBytes == Bytes(r.pifo)
      && multiset(r.pifo) + multiset(dropped) == multiset(q.pifo)
      && r.pifoBytes as real <= cap && WorstFirst(r.pifo, dropped)
      && (dropped != [] ==> (r.pifoBytes + dropped[|dropped| - 1].pkt.length) as real > cap)
    decreases |q.pifo|
  {
    hide Bytes, Shed, WorstFirst, Less;
    ShedStep(q, cap);
    ShedKeeps(q, cap);
    if q.pifoBytes as real > cap && q.pifo != [] {
      var n, q1 := |q.pifo| - 1, WithoutLast(q);
      LastOff(q.pifo);
      ShedIs(q1, cap);
      var r, dropped := Shed(q1, cap).0, Shed(q1, cap).1;
      OneWorse(q.pifo, r.pifo, dropped);
      if dropped == [] {
        SameList(r.pifo, q1.pifo);
      }
    } else {
      NoneDropped(q.pifo);
    }
  }

  lemma SameList(a: seq<Item>, b: seq<Item>)
    requires a <= b && multiset(a) + multiset([]) == multiset(b)
    ensures a == b
  {
    assert |multiset(a)| == |multiset(b)|;
  }

  lemma NoneDropped(left: seq<Item>)
    ensures WorstFirst(left, [])
  {
  }

  lemma OneWorse(s: seq<Item>, left: seq<Item>, dropped: seq<Item>)
    requires Sorted(s) && s != [] && WorstFirst(left, dropped)
    requires multiset(left) + multiset(dropped) == multiset(s[..|s| - 1])
    ensures WorstFirst(left, [s[|s| - 1]] + dropped)
  {
    var x := s[|s| - 1];
    LastIsWorst(s, s[..|s| - 1]);
    forall y | y in left || y in dropped
      ensures !Less(x, y)
    {
      assert y in multiset(left) + multiset(dropped);
      assert y in s[..|s| - 1];
    }
  }

  /** A refill takes the first items of the FIFO, as many as a batch if there are, and puts them into the order of the
      PIFO.  It then drops the worst items, worst first, and no more than it must for the rest to be within the cap. */
  lemma RefillIs(c: Config, q: Port)
    requires ValidConfig(c) && Weighed(q)
    ensures var (r, dropped) := Refill(c, q);
      var k := if c.batch <= |q.fifo| then c.batch else |q.fifo|;
      && r.fifo == q.fifo[k..] && Weighed(r)
      && multiset(r.pifo) + multiset(dropped) == multiset(q.pifo) + multiset(q.fifo[..k])
      && Bytes(r.pifo) as real <= c.pifoCap && WorstFirst(r.pifo, dropped)
      && (dropped != [] ==> (Bytes(r.pifo) + dropped[|dropped| - 1].pkt.length) as real > c.pifoCap)
  {
    hide Bytes, Load, Shed, WorstFirst, Less;
    var r := Load(q, c.batch);
    LoadKeeps(q, c.batch);
    LoadTakes(q, c.batch);
    ShedIs(r, c.pifoCap);
    RefillWeighs(c, q);
    var k := if c.batch <= |q.fifo| then c.batch else |q.fifo|;
    assert q.fifo == q.fifo[..k] + q.fifo[k..];
    Rest(multiset(r.pifo), multiset(q.fifo[k..]), multiset(q.fifo[..k]), multiset(q.pifo));
  }

  lemma Rest(p: multiset<Item>, left: multiset<Item>, taken: multiset<Item>, was: multiset<Item>)
    requires left + p == (taken + left) + was
    ensures p == was + taken
  {
    forall y
      ensures p[y] == (was + taken)[y]
    {
      assert (left + p)[y] == ((taken + left) + was)[y];
    }
  }

  // ----- Departures -----

  /** Port q has become r and given out x.  If its PIFO held something, x was the first there, and then a batch came in
      from the FIFO; if only the FIFO did, a batch came in and x was the best of it.  The PIFO dropped what was too
      much, worst first. */
  ghost predicate Visited(c: Config, q: Port, r: Port, x: Item, dropped: seq<Item>) {
    var k := if c.batch <= |q.fifo| then c.batch else |q.fifo|;
    var full := Bytes(r.pifo) + if q.pifo == [] then x.pkt.length else 0;
    && r.fifo == q.fifo[k..] && Weighed(r) && WorstFirst(r.pifo, dropped)
    && (q.pifo != [] ==> x == q.pifo[0])
    && (q.pifo == [] ==> x in q.fifo[..k] && forall y :: y in q.fifo[..k] ==> !Less(y, x))
    && multiset{x} + multiset(r.pifo) + multiset(dropped) == multiset(q.pifo) + multiset(q.fifo[..k])
    && full as real <= c.pifoCap
    && (dropped != [] ==> (full + dropped[|dropped| - 1].pkt.length) as real > c.pifoCap)
  }

  lemma ReadyVisit(c: Config, q: Port)
    requires ValidConfig(c) && Weighed(q) && q.pifo != []
    ensures var r := Refill(c, PopFront(q)); Visited(c, q, r.0, q.pifo[0], r.1)
  {
    hide Refill, WorstFirst, Bytes, Weighed;
    PopWeighs(q);
    RefillIs(c, PopFront(q));
    MultisetSlice(q.pifo);
    Regroup(multiset{q.pifo[0]}, multiset(Refill(c, PopFront(q)).0.pifo), multiset(Refill(c, PopFront(q)).1),
            multiset(q.pifo[1..]), multiset(q.fifo[..if c.batch <= |q.fifo| then c.batch else |q.fifo|]));
  }

  lemma Regroup(x: multiset<Item>, left: multiset<Item>, d: multiset<Item>, p: multiset<Item>, f: multiset<Item>)
    requires left + d == p + f
    ensures x + left + d == (x + p) + f
  {
    assert x + left + d == x + (left + d);
  }

  lemma WaitingVisit(c: Config, q: Port)
    requires ValidConfig(c) && Weighed(q) && q.pifo == [] && Refill(c, q).0.pifo != []
    ensures var r := Refill(c, q); Visited(c, q, PopFront(r.0), r.0.pifo[0], r.1)
  {
    hide Refill, Less, Bytes, Sorted, WorstFirst;
    RefillIs(c, q);
    var r, dropped := Refill(c, q).0, Refill(c, q).1;
    PopWeighs(r);
    BestLeaves(r.pifo, dropped, q.fifo[..if c.batch <= |q.fifo| then c.batch else |q.fifo|]);
  }

  /** The first of a sorted list to which the dropped items belong too. */
  lemma BestLeaves(s: seq<Item>, dropped: seq<Item>, batch: seq<Item>)
    requires Sorted(s) && s != [] && WorstFirst(s, dropped) && multiset(s) + multiset(dropped) == multiset(batch)
    ensures s[0] in batch && forall y :: y in batch ==> !Less(y, s[0])
    ensures WorstFirst(s[1..], dropped) && Bytes(s) == s[0].pkt.length + Bytes(s[1..])
    ensures multiset{s[0]} + multiset(s[1..]) + multiset(dropped) == multiset(batch)
  {
    hide Less, Bytes;
    assert s[0] in multiset(batch);
    forall y | y in batch
      ensures !Less(y, s[0])
    {
      assert y in multiset(batch);
      if y in s {
        LeastIsFirst(s, y);
      }
    }
    FirstOff(s);
  }

  lemma FirstOff(s: seq<Item>)
    requires s != []
    ensures Bytes(s) == s[0].pkt.length + Bytes(s[1..]) && multiset(s) == multiset{s[0]} + multiset(s[1..])
    ensures forall y :: y in s[1..] ==> y in s
  {
    MultisetSlice(s);
  }

  lemma LeastIsFirst(s: seq<Item>, y: Item)
    requires Sorted(s) && y in s
    ensures !Less(y, s[0])
  {
  }

  /** After any run, a dequeue visits the ports in turn, and only the visited one changes. */
  lemma DepartureIs(c: Config, ops: seq<Op>) returns (x: Item, dropped: seq<Item>)
    requires ValidConfig(c) && AllFit(c, ops)
    ensures var s := Run(c, ops).0;
      var (t, ev) := Step(c, s, Deq);
      var p: nat := (|ops| - |Arrivals(ops)|) % c.pifos;
      && t.ports == s.ports[p := t.ports[p]] && t.port == (p + 1) % c.pifos
      && if s.ports[p].pifo == [] && s.ports[p].fifo == [] then
           t.ports == s.ports && ev == [Idle(p)]
         else
           && |ev| == |dropped| + 1 && ev[|dropped|].Returned? && ev[|dropped|].item == x
           && (forall i :: 0 <= i < |dropped| ==> ev[i].Evicted? && ev[i].item == dropped[i])
           && Visited(c, s.ports[p], t.ports[p], x, dropped)
  {
    hide Run, Visited, Weighed, Bytes, Refill, Arrivals, PortOk, Step;
    RunKeepsTurns(c, ops);
    RunKeepsWeights(c, ops);
    RunKeepsAccounting(c, ops);
    var s, log := Run(c, ops).0, Run(c, ops).1;
    var q := s.ports[s.port];
    NextIsModular(s.port, c.pifos);
    if q.pifo != [] || q.fifo != [] {
      VisitedIsOk(c, s, log);
      x, dropped := VisitIs(c, s);
    } else {
      x, dropped := Item(0.0, Pkt(0, 0, 0, 0)), [];
      IdleVisit(c, s);
    }
  }

  lemma IdleVisit(c: Config, s: State)
    requires ValidConfig(c) && Shape(c, s) && s.ports[s.port].pifo == [] && s.ports[s.port].fifo == []
    ensures Step(c, s, Deq) == (s.(port := Next(s.port, c.pifos)), [Idle(s.port)])
  {
  }

  lemma VisitIs(c: Config, s: State) returns (x: Item, dropped: seq<Item>)
    requires ValidConfig(c) && Shape(c, s) && Weighed(s.ports[s.port]) && PortOk(c, s.ports[s.port])
    requires forall y :: y in Contents(s.ports[s.port]) ==> y.pkt.length as real <= c.pifoCap
    requires s.ports[s.port].pifo != [] || s.ports[s.port].fifo != []
    ensures var (t, ev) := Step(c, s, Deq);
      && t.ports == s.ports[s.port := t.ports[s.port]] && t.port == Next(s.port, c.pifos)
      && |ev| == |dropped| + 1 && ev[|dropped|].Returned? && ev[|dropped|].item == x
      && (forall i :: 0 <= i < |dropped| ==> ev[i].Evicted? && ev[i].item == dropped[i])
      && Visited(c, s.ports[s.port], t.ports[s.port], x, dropped)
  {
    hide Visited, Weighed, Bytes, Refill, PortOk, RemoveAll, Remove, Charged, BisectLeft, CountBelow, Next;
    var q := s.ports[s.port];
    if q.pifo != [] {
      x, dropped := q.pifo[0], Refill(c, PopFront(q)).1;
      ReadyVisit(c, q);
    } else {
      RefillLeavesOne(c, q);
      x, dropped := Refill(c, q).0.pifo[0], Refill(c, q).1;
      WaitingVisit(c, q);
    }
  }
}
