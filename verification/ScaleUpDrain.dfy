/** How far from sorted a drained output can be. */
module ScaleUpDrain {
  import opened Elements
  import opened ScaleUpModel
  import opened ScaleUpAccounting
  import opened ScaleUpRoundRobin
  import opened ScaleUpBorders

  /* When no adjustment falls into the filling, and each FIFO can be moved into its
     PIFO in one refill without evictions, a packet of range r leaves at most
     (pifos - 1) * balancers * r held packets in lower ranges behind. */

  // ----- Filling -----

  ghost predicate OnlyArrivals(ops: seq<Op>) {
    forall k :: 0 <= k < |ops| ==> ops[k].Enq?
  }

  /** Nothing has reached a PIFO, and each FIFO holds what the log says it was given. */
  ghost predicate Filled(c: Config, s: State, log: seq<Event>)
    requires ValidConfig(c) && Shape(c, s)
  {
    && s.port == 0
    && (forall p :: 0 <= p < c.pifos ==> s.ports[p].pifo == [])
    && (forall p, r :: 0 <= p < c.pifos && 0 <= r < c.ranges ==>
          CountBelow(s.ports[p].fifo, s.borders[r]) == Tally(log, HitBelow(p, r)))
  }

  /** An item is below border r exactly when its range is. */
  lemma BelowBorder(b: seq<real>, rank: real, i: nat, r: nat)
    requires Ordered(b) && Belongs(b, rank, i) && r + 1 < |b|
    ensures rank < b[r] <==> i < r
  {
    if i < r {
      assert b[i + 1] <= b[r];
    } else {
      assert b[r] <= b[i];
    }
  }

  lemma AdmitFills(c: Config, s: State, log: seq<Event>, l: nat, i: nat, p: nat, x: Item)
    requires ValidConfig(c) && Shape(c, s) && Filled(c, s, log) && Ordered(s.borders)
    requires l < c.balancers && i < c.ranges && p < c.pifos && Belongs(s.borders, x.rank, i)
    ensures Filled(c, Admit(c, s, l, i, p, x), log + [Accepted(l, i, p, x)])
  {
    var t := Admit(c, s, l, i, p, x);
    var e := Accepted(l, i, p, x);
    forall q, r | 0 <= q < c.pifos && 0 <= r < c.ranges
      ensures CountBelow(t.ports[q].fifo, t.borders[r]) == Tally(log + [e], HitBelow(q, r))
    {
      TallyOne(log, e, HitBelow(q, r));
      assert CountBelow(s.ports[q].fifo, s.borders[r]) == Tally(log, HitBelow(q, r));
      if q == p {
        CountBelowAppend(s.ports[p].fifo, [x], s.borders[r]);
        BelowBorder(s.borders, x.rank, i, r);
        assert [x][1..] == [];
      }
    }
  }

  lemma RejectFills(c: Config, s: State, log: seq<Event>, e: Event)
    requires ValidConfig(c) && Shape(c, s) && Filled(c, s, log) && e.Rejected?
    ensures Filled(c, s, log + [e])
  {
    forall p, r | 0 <= p < c.pifos && 0 <= r < c.ranges
      ensures CountBelow(s.ports[p].fifo, s.borders[r]) == Tally(log + [e], HitBelow(p, r))
    {
      TallyOne(log, e, HitBelow(p, r));
    }
  }

  lemma NotFull(k: nat, n: nat)
    requires 0 < k < n
    ensures !FullPeriods(k, n)
  {
  }

  lemma AdmitCounts(c: Config, s: State, l: nat, i: nat, p: nat, x: Item)
    requires ValidConfig(c) && Shape(c, s) && l < c.balancers && i < c.ranges && p < c.pifos
    ensures Admit(c, s, l, i, p, x).adjusts == s.adjusts
  {
  }

  lemma AdjustCounts(c: Config, s: State)
    requires ValidConfig(c) && Shape(c, s)
    ensures Adjust(c, s).adjusts == s.adjusts
  {
  }

  lemma CountedFills(c: Config, s: State, log: seq<Event>)
    requires ValidConfig(c) && Shape(c, s) && Filled(c, s, log) && Counted(c, s).adjusts < c.period
    ensures Filled(c, Counted(c, s), log) && Counted(c, s).adjusts == s.adjusts + 1
  {
    hide FullPeriods, Adjust;
    AdjustCounts(c, s.(adjusts := s.adjusts + 1));
    NotFull(s.adjusts + 1, c.period);
  }

  lemma OfferFills(c: Config, s: State, log: seq<Event>, l: nat, i: nat, x: Item)
    requires ValidConfig(c) && Shape(c, s) && Filled(c, s, log) && Ordered(s.borders)
    requires l < c.balancers && i < c.ranges && Belongs(s.borders, x.rank, i)
    requires Offer(c, s, l, i, x).0.adjusts < c.period
    ensures var (t, ev) := Offer(c, s, l, i, x); Filled(c, t, log + ev) && t.adjusts >= s.adjusts
  {
    hide FullPeriods, Counted, Admit, Filled, Column;
    var p := ChoosePort(Column(c, s.counters, l, i));
    if (s.ports[p].fifoBytes + x.pkt.length) as real < c.fifoLimit {
      AdmitFills(c, s, log, l, i, p, x);
      AdmitCounts(c, s, l, i, p, x);
      CountedFills(c, Admit(c, s, l, i, p, x), log + [Accepted(l, i, p, x)]);
    } else {
      RejectFills(c, s, log, Rejected(l, i, p, x));
    }
  }

  lemma RelabelFills(c: Config, s: State, log: seq<Event>, borders: seq<real>, balancer: nat)
    requires ValidConfig(c) && Shape(c, s) && Filled(c, s, log) && balancer < c.balancers
    requires |borders| == |s.borders| && borders[..c.ranges] == s.borders[..c.ranges]
    ensures Filled(c, s.(borders := borders, balancer := balancer), log)
  {
    forall p, r | 0 <= p < c.pifos && 0 <= r < c.ranges
      ensures CountBelow(s.ports[p].fifo, borders[r]) == Tally(log, HitBelow(p, r))
    {
      assert borders[r] == borders[..c.ranges][r] == s.borders[..c.ranges][r] == s.borders[r];
    }
  }

  lemma AdjustsGrow(c: Config, s: State, op: Op)
    requires ValidConfig(c) && Shape(c, s)
    ensures Step(c, s, op).0.adjusts >= s.adjusts
  {
  }

  lemma InitialFills(c: Config)
    requires ValidConfig(c)
    ensures Filled(c, Initial(c), [])
  {
  }

  lemma {:induction false} FillingFills(c: Config, ops: seq<Op>)
    requires ValidConfig(c) && OnlyArrivals(ops) && RanksNonNegative(ops)
    requires Run(c, ops).0.adjusts < c.period
    ensures Filled(c, Run(c, ops).0, Run(c, ops).1)
  {
    if ops == [] {
      InitialFills(c);
    } else {
      var n := |ops| - 1;
      var s, log := Run(c, ops[..n]).0, Run(c, ops[..n]).1;
      var x := ops[n].item;
      AdjustsGrow(c, s, ops[n]);
      FillingFills(c, ops[..n]);
      RunKeepsOrder(c, ops[..n]);
      LocateFinds(s.borders, x.rank);
      var i, b := Locate(s.borders, x.rank).0, Locate(s.borders, x.rank).1;
      RelabelFills(c, s, log, b, Next(s.balancer, c.balancers));
      OfferFills(c, s.(borders := b, balancer := Next(s.balancer, c.balancers)), log, s.balancer, i, x);
    }
  }

  // ----- Draining -----

  /** The port visited by departure d. */
  function Turn(d: nat, n: nat): (p: nat)
    requires n > 0
    ensures p < n
  {
    if d == 0 then 0 else Next(Turn(d - 1, n), n)
  }

  /** How often port p has been visited by d departures. */
  function Visits(d: nat, p: nat, n: nat): nat
    requires n > 0
  {
    if d == 0 then 0 else Visits(d - 1, p, n) + (if Turn(d - 1, n) == p then 1 else 0)
  }

  /** The ports before the next one have been visited once more than the others. */
  lemma {:induction false} VisitsStair(d: nat, p: nat, n: nat)
    requires p < n
    ensures Visits(d, p, n) == Visits(d, n - 1, n) + (if p < Turn(d, n) then 1 else 0)
  {
    if d > 0 {
      VisitsStair(d - 1, p, n);
    }
  }

  function PortBelow(q: Port, b: real): nat {
    CountBelow(q.fifo, b) + CountBelow(q.pifo, b)
  }

  function Surplus(a: nat, v: nat): nat {
    if v <= a then a - v else 0
  }

  /** The port can be refilled in one go without evictions. */
  ghost predicate Movable(c: Config, q: Port)
    requires ValidConfig(c)
  {
    q.pifo == [] && |q.fifo| <= c.batch && Bytes(q.fifo) as real <= c.pifoCap
  }

  /** A port of s after it has been visited v times since it looked like q. */
  ghost predicate DrainedPort(q: Port, now: Port, v: nat, b: real) {
    && (v == 0 ==> now == q)
    && (v > 0 ==> now.fifo == [])
    && PortBelow(now, b) == Surplus(PortBelow(q, b), v)
  }

  ghost predicate DrainInv(c: Config, s0: State, s: State, d: nat, b: real)
    requires ValidConfig(c) && Shape(c, s0) && Shape(c, s)
  {
    && s.port == Turn(d, c.pifos)
    && s.borders == s0.borders
    && (forall p :: 0 <= p < c.pifos ==> DrainedPort(s0.ports[p], s.ports[p], Visits(d, p, c.pifos), b))
  }

  /** Taking the front of a sorted list takes one of the items below b, if there are any. */
  lemma FrontBelow(s: seq<Item>, b: real)
    requires Sorted(s) && s != []
    ensures CountBelow(s[1..], b) == Surplus(CountBelow(s, b), 1)
    ensures s[0].rank >= b ==> CountBelow(s, b) == 0
  {
    if s[0].rank >= b {
      forall y | y in s
        ensures y.rank >= b
      {
        var j :| 0 <= j < |s| && s[j] == y;
      }
      NoneBelow(s, b);
    }
  }

  /** Loading without shedding keeps everything. */
  lemma MovableRefill(c: Config, q: Port)
    requires ValidConfig(c) && PortOk(c, q) && Movable(c, q)
    ensures var (r, dropped) := Refill(c, q);
      dropped == [] && r.fifo == [] && Sorted(r.pifo) && multiset(r.pifo) == multiset(q.fifo)
  {
    LoadKeeps(q, c.batch);
    LoadTakes(q, c.batch);
    var r := Load(q, c.batch);
    assert r.fifo == [];
    assert multiset(r.pifo) == Contents(r) == Contents(q) == multiset(q.fifo);
  }

  lemma SameCount(s: seq<Item>, t: seq<Item>, b: real)
    requires multiset(s) == multiset(t)
    ensures CountBelow(s, b) == CountBelow(t, b)
  {
    CountBelowIsBelowIn(s, b);
    CountBelowIsBelowIn(t, b);
  }

  /** Refilling a port whose FIFO is empty and whose PIFO is within its cap does nothing. */
  lemma IdleRefill(c: Config, q: Port)
    requires ValidConfig(c) && q.fifo == [] && q.pifoBytes as real <= c.pifoCap
    ensures Refill(c, q) == (q, [])
  {
  }

  /** What one visit of the drain does to its port, and what the returned item tells about the port. */
  lemma VisitDrains(c: Config, s: State, q0: Port, v: nat, b: real)
    requires ValidConfig(c) && Shape(c, s) && PortOk(c, s.ports[s.port]) && Movable(c, q0)
    requires DrainedPort(q0, s.ports[s.port], v, b)
    ensures var (t, ev) := Dequeue(c, s);
      && DrainedPort(q0, t.ports[s.port], v + 1, b)
      && t.ports == s.ports[s.port := t.ports[s.port]]
      && t.port == Next(s.port, c.pifos) && t.borders == s.borders
      && (forall e :: e in ev && e.Returned? && e.item.rank >= b ==> PortBelow(q0, b) <= v)
      && (forall e :: e in ev ==> !e.Evicted?)
  {
    var q := s.ports[s.port];
    if q.pifo != [] {
      ReadyVisit(c, s, q0, v, b);
    } else if q.fifo != [] {
      WaitingVisit(c, s, q0, v, b);
    }
  }

  lemma ReadyVisit(c: Config, s: State, q0: Port, v: nat, b: real)
    requires ValidConfig(c) && Shape(c, s) && PortOk(c, s.ports[s.port]) && Movable(c, q0)
    requires DrainedPort(q0, s.ports[s.port], v, b) && s.ports[s.port].pifo != []
    ensures var (t, ev) := Dequeue(c, s);
      && DrainedPort(q0, t.ports[s.port], v + 1, b)
      && t.ports == s.ports[s.port := t.ports[s.port]]
      && t.port == Next(s.port, c.pifos) && t.borders == s.borders
      && (forall e :: e in ev && e.Returned? && e.item.rank >= b ==> PortBelow(q0, b) <= v)
      && (forall e :: e in ev ==> !e.Evicted?)
  {
    var q := s.ports[s.port];
    FrontBelow(q.pifo, b);
    IdleRefill(c, PopFront(q));
    assert Dequeue(c, s) == Serve(c, s, PopFront(q), [], q.pifo[0]);
  }

  lemma WaitingVisit(c: Config, s: State, q0: Port, v: nat, b: real)
    requires ValidConfig(c) && Shape(c, s) && PortOk(c, s.ports[s.port]) && Movable(c, q0)
    requires DrainedPort(q0, s.ports[s.port], v, b)
    requires s.ports[s.port].pifo == [] && s.ports[s.port].fifo != []
    ensures var (t, ev) := Dequeue(c, s);
      && DrainedPort(q0, t.ports[s.port], v + 1, b)
      && t.ports == s.ports[s.port := t.ports[s.port]]
      && t.port == Next(s.port, c.pifos) && t.borders == s.borders
      && (forall e :: e in ev && e.Returned? && e.item.rank >= b ==> PortBelow(q0, b) <= v)
      && (forall e :: e in ev ==> !e.Evicted?)
  {
    var q := s.ports[s.port];
    assert v == 0 && q == q0;
    MovableRefill(c, q);
    var r := Refill(c, q).0;
    assert q.fifo[0] in multiset(r.pifo);
    SameCount(r.pifo, q.fifo, b);
    FrontBelow(r.pifo, b);
    assert Dequeue(c, s) == Serve(c, s, PopFront(r), [], r.pifo[0]);
  }

  function Departures(d: nat): (ops: seq<Op>)
    ensures |ops| == d
  {
    seq(d, _ => Deq)
  }

  lemma {:induction false} DrainingDrains(c: Config, ops: seq<Op>, s0: State, d: nat, b: real)
    requires ValidConfig(c) && AllFit(c, ops) && s0 == Run(c, ops).0 && s0.port == 0
    requires forall q :: q in s0.ports ==> Movable(c, q)
    ensures DrainInv(c, s0, Run(c, ops + Departures(d)).0, d, b)
  {
    hide Dequeue, DrainInv, AllFit, Departures, Run, PortOk;
    if d == 0 {
      NothingDrained(c, ops, s0, b);
    } else {
      DrainingDrains(c, ops, s0, d - 1, b);
      var before := ops + Departures(d - 1);
      OneMoreDeparture(ops, d);
      DeparturesFit(c, ops, d - 1);
      DequeueLast(c, before);
      ReachedPortsOk(c, before);
      DrainStep(c, s0, Run(c, before).0, d - 1, b);
    }
  }

  lemma NothingDrained(c: Config, ops: seq<Op>, s0: State, b: real)
    requires ValidConfig(c) && s0 == Run(c, ops).0 && s0.port == 0
    requires forall q :: q in s0.ports ==> Movable(c, q)
    ensures DrainInv(c, s0, Run(c, ops + Departures(0)).0, 0, b)
  {
    hide Run, Movable;
    assert ops + Departures(0) == ops;
  }

  lemma OneMoreDeparture(ops: seq<Op>, d: nat)
    requires d > 0
    ensures ops + Departures(d) == ops + Departures(d - 1) + [Deq]
  {
  }

  lemma DeparturesFit(c: Config, ops: seq<Op>, d: nat)
    requires ValidConfig(c) && AllFit(c, ops)
    ensures AllFit(c, ops + Departures(d))
  {
  }

  lemma ReachedPortsOk(c: Config, ops: seq<Op>)
    requires ValidConfig(c) && AllFit(c, ops)
    ensures PortOk(c, Run(c, ops).0.ports[Run(c, ops).0.port])
  {
    RunKeepsAccounting(c, ops);
  }

  lemma DequeueLast(c: Config, ops: seq<Op>)
    requires ValidConfig(c)
    ensures Run(c, ops + [Deq]).0 == Dequeue(c, Run(c, ops).0).0
  {
    assert (ops + [Deq])[..|ops + [Deq]| - 1] == ops;
  }

  lemma DrainStep(c: Config, s0: State, s: State, d: nat, b: real)
    requires ValidConfig(c) && Shape(c, s0) && Shape(c, s) && DrainInv(c, s0, s, d, b)
    requires forall q :: q in s0.ports ==> Movable(c, q)
    requires PortOk(c, s.ports[s.port])
    ensures DrainInv(c, s0, Dequeue(c, s).0, d + 1, b)
  {
    var p := s.port;
    assert DrainedPort(s0.ports[p], s.ports[p], Visits(d, p, c.pifos), b);
    VisitDrains(c, s, s0.ports[p], Visits(d, p, c.pifos), b);
    var t := Dequeue(c, s).0;
    forall q | 0 <= q < c.pifos
      ensures DrainedPort(s0.ports[q], t.ports[q], Visits(d + 1, q, c.pifos), b)
    {
      assert DrainedPort(s0.ports[q], s.ports[q], Visits(d, q, c.pifos), b);
    }
  }

  // ----- Counting what is left -----

  function TotalBelow(ports: seq<Port>, b: real): nat {
    if ports == [] then 0 else TotalBelow(ports[..|ports| - 1], b) + PortBelow(ports[|ports| - 1], b)
  }

  lemma {:induction false} HeldBelow(ports: seq<Port>, b: real)
    ensures BelowIn(Held(ports), b) == TotalBelow(ports, b)
  {
    if ports != [] {
      var n := |ports| - 1;
      HeldBelow(ports[..n], b);
      var q := ports[n];
      BelowInPlus(Held(ports[..n]), Contents(q), b);
      BelowInPlus(multiset(q.fifo), multiset(q.pifo), b);
      CountBelowIsBelowIn(q.fifo, b);
      CountBelowIsBelowIn(q.pifo, b);
    }
  }

  /** One port has none below b, the others at most m each. */
  lemma {:induction false} AllButOne(ports: seq<Port>, b: real, p: nat, m: nat)
    requires forall q :: 0 <= q < |ports| ==> PortBelow(ports[q], b) <= m
    requires p < |ports| ==> PortBelow(ports[p], b) == 0
    ensures TotalBelow(ports, b) <= m * (if p < |ports| then |ports| - 1 else |ports|)
  {
    if ports != [] {
      var n := |ports| - 1;
      AllButOne(ports[..n], b, p, m);
      if p != n {
        assert m * n == m * (n - 1) + m;
        assert m * (n + 1) == m * n + m;
      }
    }
  }

  /** The drain bound.  Fill a fresh scheduler with fewer than a period's packets, so that each FIFO
      can be refilled in one go; dequeue any number of times.  Then a departing packet whose rank is
      in range r or above leaves at most (pifos - 1) * balancers * r held packets of lower ranges,
      and nothing is evicted. */
  lemma DrainIsNearlySorted(c: Config, ops: seq<Op>, d: nat, r: nat)
    requires ValidConfig(c) && OnlyArrivals(ops) && RanksNonNegative(ops) && AllFit(c, ops)
    requires Run(c, ops).0.adjusts < c.period
    requires forall q :: q in Run(c, ops).0.ports ==> |q.fifo| <= c.batch && Bytes(q.fifo) as real <= c.pifoCap
    requires r < c.ranges
    ensures var s := Run(c, ops + Departures(d)).0;
      var (t, ev) := Dequeue(c, s);
      && (forall e :: e in ev && e.Returned? && e.item.rank >= s.borders[r] ==>
            CountBelow(t.shadow, s.borders[r]) <= c.balancers * r * (c.pifos - 1))
      && (forall e :: e in ev ==> !e.Evicted?)
  {
    hide Run, Dequeue, DrainInv, AllFit, PortOk, Mirrored, OnlyArrivals, RanksNonNegative;
    FillingFills(c, ops);
    var s0, log := Run(c, ops).0, Run(c, ops).1;
    var b := s0.borders[r];
    DrainingDrains(c, ops, s0, d, b);
    DeparturesFit(c, ops, d);
    AfterDrain(c, ops + Departures(d));
    var s := Run(c, ops + Departures(d)).0;
    SameBorders(c, s0, s, d, b);
    forall p, q | 0 <= p < c.pifos && 0 <= q < c.pifos
      ensures PortBelow(s0.ports[q], b) <= PortBelow(s0.ports[p], b) + c.balancers * r
    {
      FilledEvenly(c, ops, p, q, r);
    }
    LeftBehind(c, s0, s, d, b, c.balancers * r);
  }

  lemma AfterDrain(c: Config, ops: seq<Op>)
    requires ValidConfig(c) && AllFit(c, ops)
    ensures var s := Run(c, ops).0; PortOk(c, s.ports[s.port]) && Mirrored(Dequeue(c, s).0)
  {
    hide Run, Dequeue, PortOk, Mirrored, Conserved;
    RunKeepsAccounting(c, ops);
    var s, log := Run(c, ops).0, Run(c, ops).1;
    VisitedIsOk(c, s, log);
    DequeueKeepsAccounting(c, s, log);
  }

  lemma SameBorders(c: Config, s0: State, s: State, d: nat, b: real)
    requires ValidConfig(c) && Shape(c, s0) && Shape(c, s) && DrainInv(c, s0, s, d, b)
    ensures s.borders == s0.borders
  {
  }

  /** In a filled scheduler, two ports hold about as many packets of the first r ranges. */
  lemma FilledEvenly(c: Config, ops: seq<Op>, p: nat, q: nat, r: nat)
    requires ValidConfig(c) && r < c.ranges && p < c.pifos && q < c.pifos
    requires Filled(c, Run(c, ops).0, Run(c, ops).1)
    ensures var s := Run(c, ops).0;
      PortBelow(s.ports[q], s.borders[r]) <= PortBelow(s.ports[p], s.borders[r]) + c.balancers * r
  {
    hide Run, Tally, HitBelow;
    var s, log := Run(c, ops).0, Run(c, ops).1;
    LoadBelowIsBalanced(c, ops, q, p, r);
    assert CountBelow(s.ports[p].fifo, s.borders[r]) == Tally(log, HitBelow(p, r));
    assert CountBelow(s.ports[q].fifo, s.borders[r]) == Tally(log, HitBelow(q, r));
  }

  lemma LeftBehind(c: Config, s0: State, s: State, d: nat, b: real, m: nat)
    requires ValidConfig(c) && Shape(c, s0) && Shape(c, s) && DrainInv(c, s0, s, d, b)
    requires forall q :: q in s0.ports ==> Movable(c, q)
    requires PortOk(c, s.ports[s.port])
    requires Mirrored(Dequeue(c, s).0)
    requires forall p, q :: 0 <= p < c.pifos && 0 <= q < c.pifos ==>
      PortBelow(s0.ports[q], b) <= PortBelow(s0.ports[p], b) + m
    ensures var (t, ev) := Dequeue(c, s);
      && (forall e :: e in ev && e.Returned? && e.item.rank >= b ==> CountBelow(t.shadow, b) <= m * (c.pifos - 1))
      && (forall e :: e in ev ==> !e.Evicted?)
  {
    var p := s.port;
    var n := c.pifos;
    assert DrainedPort(s0.ports[p], s.ports[p], Visits(d, p, n), b);
    VisitDrains(c, s, s0.ports[p], Visits(d, p, n), b);
    DrainStep(c, s0, s, d, b);
    var t, ev := Dequeue(c, s).0, Dequeue(c, s).1;
    forall e | e in ev && e.Returned? && e.item.rank >= b
      ensures CountBelow(t.shadow, b) <= m * (n - 1)
    {
      assert PortBelow(s0.ports[p], b) <= Visits(d, p, n);
      forall q | 0 <= q < n
        ensures PortBelow(t.ports[q], b) <= m && (q == p ==> PortBelow(t.ports[q], b) == 0)
      {
        VisitsStair(d, p, n);
        VisitsStair(d, q, n);
        assert DrainedPort(s0.ports[q], t.ports[q], Visits(d + 1, q, n), b);
      }
      AllButOne(t.ports, b, p, m);
      HeldBelow(t.ports, b);
      CountBelowIsBelowIn(t.shadow, b);
    }
  }
}
