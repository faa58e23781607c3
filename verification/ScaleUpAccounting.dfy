/** What every step of Scale-up PIFO keeps. */
module ScaleUpAccounting {
  import opened Elements
  import opened ScaleUpModel

  /* Byte counters are the sums of lengths, each PIFO is sorted, the shadow list mirrors everything held,
     and packets are conserved. */

  ghost function Contents(q: Port): multiset<Item> {
    multiset(q.fifo) + multiset(q.pifo)
  }

  ghost function Held(ports: seq<Port>): multiset<Item> {
    if ports == [] then multiset{} else Held(ports[..|ports| - 1]) + Contents(ports[|ports| - 1])
  }

  /** The counters of a port are the sizes of its lists, within bounds, and its PIFO is in order. */
  ghost predicate PortOk(c: Config, q: Port)
    requires ValidConfig(c)
  {
    && q.fifoBytes == Bytes(q.fifo) && q.pifoBytes == Bytes(q.pifo)
    && Sorted(q.pifo)
    && q.fifoBytes as real < c.fifoLimit
    && q.pifoBytes as real <= c.pifoCap
  }

  /** The items of a kind of event in a log, with multiplicity. */
  ghost function AcceptedOf(log: seq<Event>): multiset<Item> {
    if log == [] then multiset{} else
      var e := log[|log| - 1];
      AcceptedOf(log[..|log| - 1]) + if e.Accepted? then multiset{e.item} else multiset{}
  }

  ghost function ReturnedOf(log: seq<Event>): multiset<Item> {
    if log == [] then multiset{} else
      var e := log[|log| - 1];
      ReturnedOf(log[..|log| - 1]) + if e.Returned? then multiset{e.item} else multiset{}
  }

  ghost function EvictedOf(log: seq<Event>): multiset<Item> {
    if log == [] then multiset{} else
      var e := log[|log| - 1];
      EvictedOf(log[..|log| - 1]) + if e.Evicted? then multiset{e.item} else multiset{}
  }

  lemma {:induction false} LogAppend(a: seq<Event>, b: seq<Event>)
    ensures AcceptedOf(a + b) == AcceptedOf(a) + AcceptedOf(b)
    ensures ReturnedOf(a + b) == ReturnedOf(a) + ReturnedOf(b)
    ensures EvictedOf(a + b) == EvictedOf(a) + EvictedOf(b)
  {
    if b == [] {
      assert a + b == a;
    } else {
      assert (a + b)[..|a + b| - 1] == a + b[..|b| - 1];
      LogAppend(a, b[..|b| - 1]);
    }
  }

  lemma OneEvent(e: Event)
    ensures AcceptedOf([e]) == if e.Accepted? then multiset{e.item} else multiset{}
    ensures ReturnedOf([e]) == if e.Returned? then multiset{e.item} else multiset{}
    ensures EvictedOf([e]) == if e.Evicted? then multiset{e.item} else multiset{}
  {
    assert [e][..0] == [];
  }

  lemma {:induction false} EvictionLog(delay: map<Item, nat>, p: nat, dropped: seq<Item>)
    ensures EvictedOf(EvictionEvents(delay, p, dropped)) == multiset(dropped)
    ensures AcceptedOf(EvictionEvents(delay, p, dropped)) == multiset{}
    ensures ReturnedOf(EvictionEvents(delay, p, dropped)) == multiset{}
  {
    if dropped != [] {
      var n := |dropped| - 1;
      var ev := EvictionEvents(delay, p, dropped);
      EvictionLog(delay, p, dropped[..n]);
      assert ev[..n] == EvictionEvents(delay, p, dropped[..n]);
      assert dropped == dropped[..n] + [dropped[n]];
    }
  }

  /** accepted = returned + evicted + held */
  ghost predicate Conserved(s: State, log: seq<Event>) {
    AcceptedOf(log) == ReturnedOf(log) + EvictedOf(log) + multiset(s.shadow)
  }

  ghost predicate Mirrored(s: State) {
    multiset(s.shadow) == Held(s.ports) && Sorted(s.shadow)
  }

  ghost predicate AccountingInv(c: Config, s: State, log: seq<Event>)
    requires ValidConfig(c) && Shape(c, s)
  {
    && (forall p :: 0 <= p < c.pifos ==> PortOk(c, s.ports[p]))
    && Mirrored(s)
    && Conserved(s, log)
    && (forall x :: x in s.shadow ==> x.pkt.length as real <= c.pifoCap)
  }

  // ----- Ports -----

  lemma {:induction false} HeldUpdate(ports: seq<Port>, p: nat, q: Port)
    requires p < |ports|
    ensures Held(ports[p := q]) + Contents(ports[p]) == Held(ports) + Contents(q)
  {
    var n := |ports| - 1;
    var last := Contents(ports[n]);
    if p == n {
      assert ports[p := q][..n] == ports[..n];
      Swap(Held(ports[..n]), Contents(q), last);
    } else {
      HeldUpdate(ports[..n], p, q);
      assert ports[p := q][..n] == ports[..n][p := q];
      Shuffle(Held(ports[..n][p := q]), Contents(ports[p]), Held(ports[..n]), Contents(q), last);
    }
  }

  lemma Shuffle(a: multiset<Item>, b: multiset<Item>, c: multiset<Item>, d: multiset<Item>, e: multiset<Item>)
    requires a + b == c + d
    ensures (a + e) + b == (c + e) + d
  {
    assert (a + e) + b == (a + b) + e;
    assert (c + e) + d == (c + d) + e;
  }

  lemma Swap(a: multiset<Item>, b: multiset<Item>, c: multiset<Item>)
    ensures (a + b) + c == (a + c) + b
  {
  }

  lemma {:induction false} HeldHas(ports: seq<Port>, p: nat)
    requires p < |ports|
    ensures Contents(ports[p]) <= Held(ports)
  {
    if p < |ports| - 1 {
      HeldHas(ports[..|ports| - 1], p);
    }
  }

  lemma {:induction false} LoadKeeps(q: Port, n: nat)
    requires q.fifoBytes == Bytes(q.fifo) && q.pifoBytes == Bytes(q.pifo) && Sorted(q.pifo)
    ensures var r := Load(q, n);
      && r.fifoBytes == Bytes(r.fifo) && r.pifoBytes == Bytes(r.pifo) && Sorted(r.pifo)
      && Contents(r) == Contents(q)
      && r.fifoBytes <= q.fifoBytes
      && r.fifoBytes + r.pifoBytes == q.fifoBytes + q.pifoBytes
    decreases n
  {
    hide Bytes, Sorted, Contents, Insert;
    if n > 0 && q.fifo != [] {
      LoadOneKeeps(q);
      LoadKeeps(LoadOne(q), n - 1);
    }
  }

  lemma {:induction false} LoadTakes(q: Port, n: nat)
    ensures Load(q, n).fifo == q.fifo[if n <= |q.fifo| then n else |q.fifo|..]
    ensures q.pifo != [] ==> Load(q, n).pifo != []
    decreases n
  {
    if n > 0 && q.fifo != [] {
      var r := LoadOne(q);
      LoadTakes(r, n - 1);
      var k := if n - 1 <= |r.fifo| then n - 1 else |r.fifo|;
      assert r.fifo == q.fifo[1..] && r.fifo[k..] == q.fifo[k + 1..];
    }
  }

  lemma LoadGives(q: Port, n: nat)
    requires n >= 1 && q.fifo != []
    ensures Load(q, n).pifo != []
  {
    LoadTakes(LoadOne(q), n - 1);
  }

  lemma LoadOneKeeps(q: Port)
    requires q.fifoBytes == Bytes(q.fifo) && q.pifoBytes == Bytes(q.pifo) && Sorted(q.pifo) && q.fifo != []
    ensures var r := LoadOne(q);
      && r.fifoBytes == Bytes(r.fifo) && r.pifoBytes == Bytes(r.pifo) && Sorted(r.pifo)
      && Contents(r) == Contents(q)
      && r.pifo != []
  {
    var x := q.fifo[0];
    InsertKeepsSorted(q.pifo, x);
    InsertBytes(q.pifo, x);
    MultisetSlice(q.fifo);
    Moved(multiset(q.fifo[1..]), multiset(q.pifo), x);
  }

  lemma Moved(f: multiset<Item>, g: multiset<Item>, x: Item)
    ensures f + (g + multiset{x}) == (multiset{x} + f) + g
  {
  }

  lemma {:induction false} ShedKeeps(q: Port, cap: real)
    requires q.pifoBytes == Bytes(q.pifo) && cap >= 0.0
    ensures var (r, dropped) := Shed(q, cap);
      && r.fifo == q.fifo && r.fifoBytes == q.fifoBytes
      && r.pifoBytes == Bytes(r.pifo)
      && r.pifoBytes as real <= cap
      && r.pifo <= q.pifo
      && multiset(r.pifo) + multiset(dropped) == multiset(q.pifo)
    decreases |q.pifo|
  {
    hide Bytes, Shed;
    ShedStep(q, cap);
    if q.pifoBytes as real > cap && q.pifo != [] {
      var n := |q.pifo| - 1;
      var x := q.pifo[n];
      LastOff(q.pifo);
      var q1 := WithoutLast(q);
      ShedKeeps(q1, cap);
      var r, dropped := Shed(q1, cap).0, Shed(q1, cap).1;
      PrefixOf(r.pifo, q1.pifo, q.pifo);
      OneDropped(multiset(r.pifo), dropped, x, multiset(q1.pifo));
    } else {
      NoBytes();
    }
  }

  function WithoutLast(q: Port): Port
    requires q.pifo != []
  {
    var n := |q.pifo| - 1;
    q.(pifo := q.pifo[..n], pifoBytes := q.pifoBytes - q.pifo[n].pkt.length)
  }

  lemma ShedStep(q: Port, cap: real)
    ensures q.pifoBytes as real <= cap || q.pifo == [] ==> Shed(q, cap) == (q, [])
    ensures q.pifoBytes as real > cap && q.pifo != [] ==>
      var (r, dropped) := Shed(WithoutLast(q), cap);
      Shed(q, cap) == (r, [q.pifo[|q.pifo| - 1]] + dropped)
  {
  }

  lemma PrefixOf(a: seq<Item>, b: seq<Item>, c: seq<Item>)
    requires a <= b <= c
    ensures a <= c
  {
  }

  lemma NoBytes()
    ensures Bytes([]) == 0
  {
  }

  lemma LastOff(s: seq<Item>)
    requires s != []
    ensures var n := |s| - 1;
      && Bytes(s) == Bytes(s[..n]) + s[n].pkt.length && multiset(s) == multiset(s[..n]) + multiset{s[n]}
      && s[..n] <= s
  {
    hide Bytes;
    var n := |s| - 1;
    MultisetSlice(s);
    assert s == s[..n] + [s[n]];
    BytesAppend(s[..n], [s[n]]);
    OneItem(s[n]);
  }

  lemma OneItem(x: Item)
    ensures Bytes([x]) == x.pkt.length
  {
    assert [x][1..] == [];
  }

  lemma OneDropped(a: multiset<Item>, dropped: seq<Item>, x: Item, whole: multiset<Item>)
    requires a + multiset(dropped) == whole
    ensures a + multiset([x] + dropped) == whole + multiset{x}
  {
    assert multiset([x] + dropped) == multiset{x} + multiset(dropped);
  }

  lemma {:induction false} ShedDropsWorst(q: Port, cap: real)
    requires Sorted(q.pifo)
    ensures var (r, dropped) := Shed(q, cap);
      && r.pifo <= q.pifo && Sorted(r.pifo)
      && (forall x, y :: x in dropped && y in r.pifo ==> !Less(x, y))
    decreases |q.pifo|
  {
    if q.pifoBytes as real > cap && q.pifo != [] {
      var n := |q.pifo| - 1;
      var q1 := q.(pifo := q.pifo[..n], pifoBytes := q.pifoBytes - q.pifo[n].pkt.length);
      ShedDropsWorst(q1, cap);
      LastIsWorst(q.pifo, Shed(q1, cap).0.pifo);
    }
  }

  lemma LastIsWorst(s: seq<Item>, r: seq<Item>)
    requires Sorted(s) && s != [] && r <= s[..|s| - 1]
    ensures forall y :: y in r ==> !Less(s[|s| - 1], y)
  {
    forall y | y in r
      ensures !Less(s[|s| - 1], y)
    {
      var i :| 0 <= i < |r| && r[i] == y;
      assert s[i] == y;
    }
  }

  /** When each single item fits, shedding never empties a PIFO. */
  lemma {:induction false} ShedLeavesOne(q: Port, cap: real)
    requires q.pifo != [] && q.pifoBytes == Bytes(q.pifo) && q.pifo[0].pkt.length as real <= cap
    ensures Shed(q, cap).0.pifo != []
    decreases |q.pifo|
  {
    if q.pifoBytes as real > cap {
      var n := |q.pifo| - 1;
      assert Bytes(q.pifo) == q.pifo[0].pkt.length + Bytes(q.pifo[1..]);
      if n == 0 {
        assert false;
      }
      assert q.pifo == q.pifo[..n] + [q.pifo[n]];
      BytesAppend(q.pifo[..n], [q.pifo[n]]);
      ShedLeavesOne(q.(pifo := q.pifo[..n], pifoBytes := q.pifoBytes - q.pifo[n].pkt.length), cap);
    }
  }

  /** Refilling a port whose items each fit in a PIFO. */
  lemma RefillKeeps(c: Config, q: Port)
    requires ValidConfig(c) && PortOk(c, q)
    ensures var (r, dropped) := Refill(c, q);
      && PortOk(c, r)
      && Contents(r) + multiset(dropped) == Contents(q)
      && (forall x, y :: x in dropped && y in r.pifo ==> !Less(x, y))
  {
    LoadKeeps(q, c.batch);
    ShedKeeps(Load(q, c.batch), c.pifoCap);
    ShedDropsWorst(Load(q, c.batch), c.pifoCap);
  }

  lemma RefillLeavesOne(c: Config, q: Port)
    requires ValidConfig(c) && PortOk(c, q)
    requires q.pifo != [] || q.fifo != []
    requires forall x :: x in Contents(q) ==> x.pkt.length as real <= c.pifoCap
    ensures Refill(c, q).0.pifo != []
  {
    LoadKeeps(q, c.batch);
    LoadTakes(q, c.batch);
    if q.fifo != [] {
      LoadGives(q, c.batch);
    }
    var r := Load(q, c.batch);
    assert r.pifo[0] in Contents(r);
    ShedLeavesOne(r, c.pifoCap);
  }

  lemma PopFrontKeeps(c: Config, q: Port)
    requires ValidConfig(c) && PortOk(c, q) && q.pifo != []
    ensures PortOk(c, PopFront(q))
    ensures Contents(PopFront(q)) + multiset{q.pifo[0]} == Contents(q)
    ensures forall y :: y in PopFront(q).pifo ==> !Less(y, q.pifo[0])
  {
    MultisetSlice(q.pifo);
    assert Bytes(q.pifo) == q.pifo[0].pkt.length + Bytes(q.pifo[1..]);
  }

  // ----- Steps -----

  /** What a departure does, whichever branch it takes. */
  ghost predicate Departure(c: Config, s: State, t: State, ev: seq<Event>, x: Item, dropped: seq<Item>)
    requires ValidConfig(c) && Shape(c, s) && Shape(c, t)
  {
    var p := s.port;
    var left := Depart(c, Forget(s, dropped).(ports := t.ports), p, x);
    && ev == EvictionEvents(s.delay, p, dropped) + [left.1]
    && t.shadow == left.0.shadow && t.delay == left.0.delay
    && t.ports == s.ports[p := t.ports[p]]
    && PortOk(c, t.ports[p])
    && Contents(t.ports[p]) + multiset(dropped) + multiset{x} == Contents(s.ports[p])
    && (forall d, y :: d in dropped && y in t.ports[p].pifo ==> !Less(d, y))
  }

  /** A visit to a port that holds something returns one of its items: the least of its PIFO, or
      the least after the refill when the PIFO was empty. */
  lemma DequeueDeparts(c: Config, s: State) returns (x: Item, dropped: seq<Item>)
    requires ValidConfig(c) && Shape(c, s) && PortOk(c, s.ports[s.port])
    requires forall y :: y in Contents(s.ports[s.port]) ==> y.pkt.length as real <= c.pifoCap
    requires s.ports[s.port].pifo != [] || s.ports[s.port].fifo != []
    ensures var (t, ev) := Dequeue(c, s); Departure(c, s, t, ev, x, dropped)
    ensures s.ports[s.port].pifo != [] ==> x == s.ports[s.port].pifo[0]
    ensures s.ports[s.port].pifo == [] ==>
      var r := Refill(c, s.ports[s.port]); r.0.pifo != [] && x == r.0.pifo[0] && dropped == r.1
  {
    var q := s.ports[s.port];
    if q.pifo != [] {
      x, dropped := q.pifo[0], Refill(c, PopFront(q)).1;
      ReadyDeparts(c, s);
    } else {
      RefillLeavesOne(c, q);
      x, dropped := Refill(c, q).0.pifo[0], Refill(c, q).1;
      WaitingDeparts(c, s);
    }
  }

  lemma ServeDeparts(c: Config, s: State, q: Port, dropped: seq<Item>, x: Item)
    requires ValidConfig(c) && Shape(c, s) && PortOk(c, q)
    requires Contents(q) + multiset(dropped) + multiset{x} == Contents(s.ports[s.port])
    requires forall d, y :: d in dropped && y in q.pifo ==> !Less(d, y)
    ensures Departure(c, s, Serve(c, s, q, dropped, x).0, Serve(c, s, q, dropped, x).1, x, dropped)
  {
  }

  lemma ReadyDeparts(c: Config, s: State)
    requires ValidConfig(c) && Shape(c, s) && PortOk(c, s.ports[s.port]) && s.ports[s.port].pifo != []
    ensures var q := s.ports[s.port];
      Departure(c, s, Dequeue(c, s).0, Dequeue(c, s).1, q.pifo[0], Refill(c, PopFront(q)).1)
  {
    var q := s.ports[s.port];
    PopFrontKeeps(c, q);
    RefillKeeps(c, PopFront(q));
    ServeDeparts(c, s, Refill(c, PopFront(q)).0, Refill(c, PopFront(q)).1, q.pifo[0]);
  }

  lemma WaitingDeparts(c: Config, s: State)
    requires ValidConfig(c) && Shape(c, s) && PortOk(c, s.ports[s.port])
    requires s.ports[s.port].pifo == [] && s.ports[s.port].fifo != []
    requires Refill(c, s.ports[s.port]).0.pifo != []
    ensures var r := Refill(c, s.ports[s.port]);
      Departure(c, s, Dequeue(c, s).0, Dequeue(c, s).1, r.0.pifo[0], r.1)
  {
    var q := s.ports[s.port];
    RefillKeeps(c, q);
    var r := Refill(c, q);
    PopFrontKeeps(c, r.0);
    Swap(Contents(PopFront(r.0)), multiset{r.0.pifo[0]}, multiset(r.1));
    ServeDeparts(c, s, PopFront(r.0), r.1, r.0.pifo[0]);
  }

  lemma DequeueKeepsAccounting(c: Config, s: State, log: seq<Event>)
    requires ValidConfig(c) && Shape(c, s) && AccountingInv(c, s, log)
    ensures var (t, ev) := Dequeue(c, s); AccountingInv(c, t, log + ev)
  {
    hide AccountingInv, Departure, Dequeue, PortOk;
    var q := s.ports[s.port];
    if q.pifo == [] && q.fifo == [] {
      IdleKeeps(c, s, log);
    } else {
      VisitedIsOk(c, s, log);
      var x, dropped := DequeueDeparts(c, s);
      DepartureKeeps(c, s, log, Dequeue(c, s).0, Dequeue(c, s).1, x, dropped);
    }
  }

  lemma IdleKeeps(c: Config, s: State, log: seq<Event>)
    requires ValidConfig(c) && Shape(c, s) && AccountingInv(c, s, log)
    requires s.ports[s.port].pifo == [] && s.ports[s.port].fifo == []
    ensures var (t, ev) := Dequeue(c, s); AccountingInv(c, t, log + ev)
  {
    hide PortOk, AcceptedOf, ReturnedOf, EvictedOf, Held, Sorted;
    LogAppend(log, [Idle(s.port)]);
    OneEvent(Idle(s.port));
  }

  lemma VisitedIsOk(c: Config, s: State, log: seq<Event>)
    requires ValidConfig(c) && Shape(c, s) && AccountingInv(c, s, log)
    ensures PortOk(c, s.ports[s.port])
    ensures forall y :: y in Contents(s.ports[s.port]) ==> y.pkt.length as real <= c.pifoCap
  {
    hide PortOk, Conserved, Sorted;
    HeldHas(s.ports, s.port);
    assert forall y :: y in Contents(s.ports[s.port]) ==> y in multiset(s.shadow);
  }

  lemma DepartureKeeps(c: Config, s: State, log: seq<Event>, t: State, ev: seq<Event>, x: Item, dropped: seq<Item>)
    requires ValidConfig(c) && Shape(c, s) && Shape(c, t) && AccountingInv(c, s, log)
    requires Departure(c, s, t, ev, x, dropped)
    ensures AccountingInv(c, t, log + ev)
  {
    hide PortOk, Mirrored, Conserved, Departure;
    DepartureMirrors(c, s, t, ev, x, dropped);
    DepartureConserves(c, s, t, log, ev, x, dropped);
    DeparturePorts(c, s, t, ev, x, dropped);
    forall y | y in t.shadow
      ensures y.pkt.length as real <= c.pifoCap
    {
      assert y in multiset(t.shadow) + multiset(dropped) + multiset{x};
    }
  }

  lemma DepartureConserves(c: Config, s: State, t: State, log: seq<Event>, ev: seq<Event>, x: Item, dropped: seq<Item>)
    requires ValidConfig(c) && Shape(c, s) && Shape(c, t) && Departure(c, s, t, ev, x, dropped)
    requires Conserved(s, log)
    requires multiset(t.shadow) + multiset(dropped) + multiset{x} == multiset(s.shadow)
    ensures Conserved(t, log + ev)
  {
    hide PortOk, EvictionEvents, RemoveAll, Remove, Charged, AcceptedOf, ReturnedOf, EvictedOf, BisectLeft, CountBelow;
    EventsOfDeparture(s, log, s.port, ev, x, dropped);
    Settle(ReturnedOf(log), EvictedOf(log), multiset(t.shadow), multiset(dropped), multiset{x});
  }

  lemma DeparturePorts(c: Config, s: State, t: State, ev: seq<Event>, x: Item, dropped: seq<Item>)
    requires ValidConfig(c) && Shape(c, s) && Shape(c, t) && Departure(c, s, t, ev, x, dropped)
    requires forall p :: 0 <= p < c.pifos ==> PortOk(c, s.ports[p])
    ensures forall p :: 0 <= p < c.pifos ==> PortOk(c, t.ports[p])
  {
    hide PortOk, EvictionEvents, Depart, Forget;
    forall p | 0 <= p < c.pifos
      ensures PortOk(c, t.ports[p])
    {
      assert PortOk(c, s.ports[p]);
    }
  }

  lemma DepartureMirrors(c: Config, s: State, t: State, ev: seq<Event>, x: Item, dropped: seq<Item>)
    requires ValidConfig(c) && Shape(c, s) && Shape(c, t) && Mirrored(s)
    requires Departure(c, s, t, ev, x, dropped)
    ensures Mirrored(t)
    ensures multiset(t.shadow) + multiset(dropped) + multiset{x} == multiset(s.shadow)
  {
    hide PortOk, EvictionEvents, RemoveAll, Remove, Charged, Sorted, Contents, BisectLeft, CountBelow, Held, Mirrored;
    MirrorsAfter(s, t, t.ports[s.port], x, dropped);
  }

  /** The port visited becomes q, having given up x and the dropped items, and so has the shadow list. */
  lemma MirrorsAfter(s: State, t: State, q: Port, x: Item, dropped: seq<Item>)
    requires Mirrored(s) && s.port < |s.ports| && t.ports == s.ports[s.port := q]
    requires t.shadow == Remove(RemoveAll(s.shadow, dropped), x)
    requires Contents(q) + multiset(dropped) + multiset{x} == Contents(s.ports[s.port])
    ensures Mirrored(t)
    ensures multiset(t.shadow) + multiset(dropped) + multiset{x} == multiset(s.shadow)
  {
    hide RemoveAll, Remove, Sorted, Contents, Held;
    var p := s.port;
    HeldHas(s.ports, p);
    ShadowAfter(s.shadow, dropped, x, Contents(q), Contents(s.ports[p]));
    RemoveAllIsDifference(s.shadow, dropped);
    RemoveKeepsSorted(RemoveAll(s.shadow, dropped), x);
    HeldUpdate(s.ports, p, q);
    Cancel(multiset(t.shadow), multiset(dropped) + multiset{x}, Held(t.ports), Contents(q), Contents(s.ports[p]),
           Held(s.ports));
  }

  lemma ShadowAfter(shadow: seq<Item>, dropped: seq<Item>, x: Item, left: multiset<Item>, was: multiset<Item>)
    requires left + multiset(dropped) + multiset{x} == was && was <= multiset(shadow)
    ensures multiset(Remove(RemoveAll(shadow, dropped), x)) + multiset(dropped) + multiset{x} == multiset(shadow)
  {
    RemoveAllIsDifference(shadow, dropped);
    RemoveIsDifference(RemoveAll(shadow, dropped), x);
    assert multiset(dropped) + multiset{x} <= multiset(shadow);
  }

  lemma Cancel(a: multiset<Item>, gone: multiset<Item>, b: multiset<Item>, left: multiset<Item>, was: multiset<Item>,
               whole: multiset<Item>)
    requires a + gone == whole && b + was == whole + left && left + gone == was
    ensures a == b
  {
    forall y
      ensures a[y] == b[y]
    {
      assert (b + was)[y] == (whole + left)[y];
      assert (a + gone)[y] == whole[y] && (left + gone)[y] == was[y];
    }
  }

  lemma Settle(r: multiset<Item>, e: multiset<Item>, h: multiset<Item>, d: multiset<Item>, x: multiset<Item>)
    ensures r + e + (h + d + x) == (r + x) + (e + d) + h
  {
  }

  lemma EventsOfDeparture(s: State, log: seq<Event>, p: nat, ev: seq<Event>, x: Item, dropped: seq<Item>)
    requires |ev| > 0 && ev == EvictionEvents(s.delay, p, dropped) + [ev[|ev| - 1]]
    requires ev[|ev| - 1].Returned? && ev[|ev| - 1].item == x
    ensures AcceptedOf(log + ev) == AcceptedOf(log)
    ensures ReturnedOf(log + ev) == ReturnedOf(log) + multiset{x}
    ensures EvictedOf(log + ev) == EvictedOf(log) + multiset(dropped)
  {
    LogAppend(log, ev);
    LogAppend(EvictionEvents(s.delay, p, dropped), [ev[|ev| - 1]]);
    EvictionLog(s.delay, p, dropped);
    OneEvent(ev[|ev| - 1]);
  }

  lemma AdmitKeepsAccounting(c: Config, s: State, log: seq<Event>, l: nat, i: nat, p: nat, x: Item)
    requires ValidConfig(c) && Shape(c, s) && AccountingInv(c, s, log)
    requires l < c.balancers && i < c.ranges && p < c.pifos
    requires (s.ports[p].fifoBytes + x.pkt.length) as real < c.fifoLimit
    requires x.pkt.length as real <= c.pifoCap
    ensures AccountingInv(c, Admit(c, s, l, i, p, x), log + [Accepted(l, i, p, x)])
  {
    hide AccountingInv, Insert;
    GrowthKeeps(c, s, Admit(c, s, l, i, p, x), log, l, i, p, x);
  }

  lemma GrowthKeeps(c: Config, s: State, t: State, log: seq<Event>, l: nat, i: nat, p: nat, x: Item)
    requires ValidConfig(c) && Shape(c, s) && Shape(c, t) && AccountingInv(c, s, log) && p < c.pifos
    requires (s.ports[p].fifoBytes + x.pkt.length) as real < c.fifoLimit
    requires x.pkt.length as real <= c.pifoCap
    requires t.shadow == Insert(s.shadow, x)
    requires var q := s.ports[p];
      t.ports == s.ports[p := q.(fifo := q.fifo + [x], fifoBytes := q.fifoBytes + x.pkt.length)]
    ensures AccountingInv(c, t, log + [Accepted(l, i, p, x)])
  {
    hide PortOk, Mirrored, Conserved, Insert;
    GrowthMirrors(c, s, t, p, x);
    GrowthOfPort(c, s.ports[p], x);
    GrowthConserves(s, t, log, l, i, p, x);
    forall y | y in t.shadow
      ensures y.pkt.length as real <= c.pifoCap
    {
      assert y in multiset(t.shadow);
    }
  }

  lemma GrowthOfPort(c: Config, q: Port, x: Item)
    requires ValidConfig(c) && PortOk(c, q) && (q.fifoBytes + x.pkt.length) as real < c.fifoLimit
    ensures PortOk(c, q.(fifo := q.fifo + [x], fifoBytes := q.fifoBytes + x.pkt.length))
  {
    hide Bytes, Sorted;
    BytesAppend(q.fifo, [x]);
    OneItem(x);
  }

  lemma GrowthConserves(s: State, t: State, log: seq<Event>, l: nat, i: nat, p: nat, x: Item)
    requires Conserved(s, log) && multiset(t.shadow) == multiset(s.shadow) + multiset{x}
    ensures Conserved(t, log + [Accepted(l, i, p, x)])
  {
    LogAppend(log, [Accepted(l, i, p, x)]);
    OneEvent(Accepted(l, i, p, x));
  }

  lemma GrowthMirrors(c: Config, s: State, t: State, p: nat, x: Item)
    requires ValidConfig(c) && Shape(c, s) && Mirrored(s) && p < c.pifos
    requires t.shadow == Insert(s.shadow, x)
    requires var q := s.ports[p];
      t.ports == s.ports[p := q.(fifo := q.fifo + [x], fifoBytes := q.fifoBytes + x.pkt.length)]
    ensures Mirrored(t) && multiset(t.shadow) == multiset(s.shadow) + multiset{x}
  {
    var q, r := s.ports[p], t.ports[p];
    InsertKeepsSorted(s.shadow, x);
    HeldUpdate(s.ports, p, r);
    assert multiset(r.fifo) == multiset(q.fifo) + multiset{x};
    OneMore(multiset(q.fifo), multiset(q.pifo), x, Held(s.ports), Held(t.ports));
  }

  lemma OneMore(f: multiset<Item>, g: multiset<Item>, x: Item, before: multiset<Item>, after: multiset<Item>)
    requires after + (f + g) == before + ((f + multiset{x}) + g)
    ensures after == before + multiset{x}
  {
    forall y
      ensures after[y] == (before + multiset{x})[y]
    {
      assert (after + (f + g))[y] == (before + ((f + multiset{x}) + g))[y];
    }
  }

  lemma EnqueueKeepsAccounting(c: Config, s: State, log: seq<Event>, x: Item)
    requires ValidConfig(c) && Shape(c, s) && AccountingInv(c, s, log)
    requires x.pkt.length as real <= c.pifoCap
    ensures var (t, ev) := Enqueue(c, s, x); AccountingInv(c, t, log + ev)
  {
    var i, borders := Locate(s.borders, x.rank).0, Locate(s.borders, x.rank).1;
    MovedKeeps(c, s, log, borders, Next(s.balancer, c.balancers));
    OfferKeepsAccounting(c, s.(borders := borders, balancer := Next(s.balancer, c.balancers)), log, s.balancer, i, x);
  }

  lemma OfferKeepsAccounting(c: Config, s: State, log: seq<Event>, l: nat, i: nat, x: Item)
    requires ValidConfig(c) && Shape(c, s) && AccountingInv(c, s, log)
    requires l < c.balancers && i < c.ranges && x.pkt.length as real <= c.pifoCap
    ensures var (t, ev) := Offer(c, s, l, i, x); AccountingInv(c, t, log + ev)
  {
    var p := ChoosePort(Column(c, s.counters, l, i));
    if (s.ports[p].fifoBytes + x.pkt.length) as real < c.fifoLimit {
      AcceptKeepsAccounting(c, s, log, l, i, p, x);
    } else {
      RejectKeepsAccounting(c, s, log, Rejected(l, i, p, x));
    }
  }

  lemma RejectKeepsAccounting(c: Config, s: State, log: seq<Event>, e: Event)
    requires ValidConfig(c) && Shape(c, s) && AccountingInv(c, s, log) && e.Rejected?
    ensures AccountingInv(c, s, log + [e])
  {
    LogAppend(log, [e]);
    OneEvent(e);
  }

  lemma MovedKeeps(c: Config, s: State, log: seq<Event>, borders: seq<real>, balancer: nat)
    requires ValidConfig(c) && Shape(c, s) && AccountingInv(c, s, log)
    requires |borders| == |s.borders| && balancer < c.balancers
    ensures AccountingInv(c, s.(borders := borders, balancer := balancer), log)
  {
  }

  lemma AcceptKeepsAccounting(c: Config, s: State, log: seq<Event>, l: nat, i: nat, p: nat, x: Item)
    requires ValidConfig(c) && Shape(c, s) && AccountingInv(c, s, log)
    requires l < c.balancers && i < c.ranges && p < c.pifos
    requires (s.ports[p].fifoBytes + x.pkt.length) as real < c.fifoLimit
    requires x.pkt.length as real <= c.pifoCap
    ensures AccountingInv(c, Counted(c, Admit(c, s, l, i, p, x)), log + [Accepted(l, i, p, x)])
  {
    AdmitKeepsAccounting(c, s, log, l, i, p, x);
    CountedKeepsAccounting(c, Admit(c, s, l, i, p, x), log + [Accepted(l, i, p, x)]);
  }

  lemma CountedKeepsAccounting(c: Config, s: State, log: seq<Event>)
    requires ValidConfig(c) && Shape(c, s) && AccountingInv(c, s, log)
    ensures AccountingInv(c, Counted(c, s), log)
  {
    var t := Counted(c, s);
    assert t.ports == s.ports && t.shadow == s.shadow;
  }

  lemma InitialAccounting(c: Config)
    requires ValidConfig(c)
    ensures AccountingInv(c, Initial(c), [])
  {
    EmptyHeld(Initial(c).ports);
  }

  lemma {:induction false} EmptyHeld(ports: seq<Port>)
    requires forall q :: q in ports ==> q.fifo == [] && q.pifo == []
    ensures Held(ports) == multiset{}
  {
    if ports != [] {
      EmptyHeld(ports[..|ports| - 1]);
      assert ports[|ports| - 1] in ports;
    }
  }

  /** Every packet offered to the scheduler fits in one PIFO. */
  ghost predicate AllFit(c: Config, ops: seq<Op>)
    requires ValidConfig(c)
  {
    forall k :: 0 <= k < |ops| && ops[k].Enq? ==> ops[k].item.pkt.length as real <= c.pifoCap
  }

  /** After any run: ports and counters agree and are within bounds, the shadow list mirrors the
      ports, and every accepted packet was returned, was evicted or is held. */
  lemma {:induction false} RunKeepsAccounting(c: Config, ops: seq<Op>)
    requires ValidConfig(c) && AllFit(c, ops)
    ensures AccountingInv(c, Run(c, ops).0, Run(c, ops).1)
  {
    if ops == [] {
      InitialAccounting(c);
    } else {
      var n := |ops| - 1;
      RunKeepsAccounting(c, ops[..n]);
      var (s, log) := Run(c, ops[..n]);
      match ops[n]
      case Enq(x) => EnqueueKeepsAccounting(c, s, log, x);
      case Deq => DequeueKeepsAccounting(c, s, log);
    }
  }

  /** In any reachable state a dequeue returns a packet exactly when the visited port holds one,
      and what it evicts is no better than anything left in that PIFO. */
  lemma DequeueServesVisitedPort(c: Config, ops: seq<Op>)
    requires ValidConfig(c) && AllFit(c, ops)
    ensures var s := Run(c, ops).0;
      var (t, ev) := Dequeue(c, s);
      var q := s.ports[s.port];
      && ((exists e :: e in ev && e.Returned?) <==> q.pifo != [] || q.fifo != [])
      && (forall e, y :: e in ev && e.Evicted? && y in t.ports[s.port].pifo ==> !Less(e.item, y))
  {
    RunKeepsAccounting(c, ops);
    DequeueServes(c, Run(c, ops).0, Run(c, ops).1);
  }

  lemma DequeueServes(c: Config, s: State, log: seq<Event>)
    requires ValidConfig(c) && Shape(c, s) && AccountingInv(c, s, log)
    ensures var (t, ev) := Dequeue(c, s);
      var q := s.ports[s.port];
      && ((exists e :: e in ev && e.Returned?) <==> q.pifo != [] || q.fifo != [])
      && (forall e, y :: e in ev && e.Evicted? && y in t.ports[s.port].pifo ==> !Less(e.item, y))
  {
    var q := s.ports[s.port];
    if q.pifo != [] || q.fifo != [] {
      HeldHas(s.ports, s.port);
      assert forall y :: y in Contents(q) ==> y in multiset(s.shadow);
      var x, dropped := DequeueDeparts(c, s);
      DepartureServes(c, s, Dequeue(c, s).0, Dequeue(c, s).1, x, dropped);
    }
  }

  lemma DepartureServes(c: Config, s: State, t: State, ev: seq<Event>, x: Item, dropped: seq<Item>)
    requires ValidConfig(c) && Shape(c, s) && Shape(c, t)
    requires Departure(c, s, t, ev, x, dropped)
    ensures exists e :: e in ev && e.Returned?
    ensures forall e, y :: e in ev && e.Evicted? && y in t.ports[s.port].pifo ==> !Less(e.item, y)
  {
    assert ev[|ev| - 1] in ev;
    forall e | e in ev && e.Evicted?
      ensures e.item in dropped
    {
      var k :| 0 <= k < |ev| && ev[k] == e;
      assert k < |dropped|;
      assert ev[k] == EvictionEvents(s.delay, s.port, dropped)[k];
    }
  }
}
