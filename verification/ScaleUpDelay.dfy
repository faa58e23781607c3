/** Two measures of disorder count the same. */
module ScaleUpDelay {
  import opened Elements
  import opened ScaleUpModel
  import opened ScaleUpAccounting
  import opened ScaleUpRoundRobin

  /* On departure of an item, rank_error counts the held items that are below it; in
     delay mode each held item counts the departures that overtook it. */

  /** How many items of s are below x. */
  function CountLess(s: seq<Item>, x: Item): nat {
    if s == [] then 0 else (if Less(s[0], x) then 1 else 0) + CountLess(s[1..], x)
  }

  /** How many items of s tie with x in rank and precede it by packet id. */
  function Ties(s: seq<Item>, x: Item): nat {
    if s == [] then 0 else
      (if s[0].rank == x.rank && s[0].pkt.pktid < x.pkt.pktid then 1 else 0) + Ties(s[1..], x)
  }

  lemma {:induction false} CountLessSplits(s: seq<Item>, x: Item)
    ensures CountLess(s, x) == CountBelow(s, x.rank) + Ties(s, x)
  {
    if s != [] {
      CountLessSplits(s[1..], x);
    }
  }

  lemma {:induction false} NoneLess(s: seq<Item>, x: Item)
    requires forall y :: y in s ==> !Less(y, x)
    ensures CountLess(s, x) == 0
  {
    if s != [] {
      NoneLess(s[1..], x);
    }
  }

  /** In a sorted list the insertion point counts the items below. */
  lemma {:induction false} BisectCounts(s: seq<Item>, x: Item)
    requires Sorted(s)
    ensures BisectLeft(s, x) == CountLess(s, x)
  {
    if s != [] {
      if Less(s[0], x) {
        BisectCounts(s[1..], x);
      } else {
        forall y | y in s
          ensures !Less(y, x)
        {
          var j :| 0 <= j < |s| && s[j] == y;
          if j > 0 {
            LessIsTotalOrder(x, s[0], y);
          }
        }
        NoneLess(s, x);
      }
    }
  }

  lemma {:induction false} CountLessRemove(s: seq<Item>, x: Item)
    ensures CountLess(Remove(s, x), x) == CountLess(s, x)
  {
    if s != [] && s[0] != x {
      CountLessRemove(s[1..], x);
      assert ([s[0]] + Remove(s[1..], x))[1..] == Remove(s[1..], x);
    }
  }

  /** The rank error of a departure is the number of items of smaller rank still held, plus the ties
      that a smaller packet id breaks. */
  lemma RankErrorCounts(c: Config, s: State, p: nat, x: Item)
    requires Sorted(s.shadow)
    ensures var (t, e) := Depart(c, s, p, x);
      e.rankError == e.smaller + Ties(t.shadow, x)
  {
    BisectCounts(s.shadow, x);
    CountLessRemove(s.shadow, x);
    CountLessSplits(Remove(s.shadow, x), x);
  }

  // ----- Delays -----

  /** The delays of the items of s. */
  function DelaySum(s: seq<Item>, delay: map<Item, nat>): nat {
    if s == [] then 0 else (if s[0] in delay then delay[s[0]] else 0) + DelaySum(s[1..], delay)
  }

  /** Items overtaken, over the departures of a log. */
  function Overtaken(): Event -> int {
    (e: Event) => if e.Returned? then e.smaller else 0
  }

  /** Delays of the items that have left, over a log. */
  function DelaysGone(): Event -> int {
    (e: Event) => if e.Returned? || e.Evicted? then e.delay else 0
  }

  ghost predicate DelayInv(s: State, log: seq<Event>) {
    Tally(log, Overtaken()) == Tally(log, DelaysGone()) + DelaySum(s.shadow, s.delay)
  }

  lemma {:induction false} DelaySumRemove(s: seq<Item>, x: Item, delay: map<Item, nat>)
    requires x in s
    ensures DelaySum(Remove(s, x), delay) + (if x in delay then delay[x] else 0) == DelaySum(s, delay)
  {
    if s[0] != x {
      DelaySumRemove(s[1..], x, delay);
      assert ([s[0]] + Remove(s[1..], x))[1..] == Remove(s[1..], x);
    }
  }

  lemma {:induction false} DelaySumSame(s: seq<Item>, a: map<Item, nat>, b: map<Item, nat>)
    requires forall x :: x in s ==> (if x in a then a[x] else 0) == (if x in b then b[x] else 0)
    ensures DelaySum(s, a) == DelaySum(s, b)
  {
    if s != [] {
      DelaySumSame(s[1..], a, b);
    }
  }

  /** Charging one to every item of smaller rank adds as many as there are. */
  lemma {:induction false} DelaySumCharged(s: seq<Item>, a: map<Item, nat>, b: map<Item, nat>, r: real)
    requires forall x :: x in s ==>
      x in b && b[x] == (if x in a then a[x] else 0) + (if x.rank < r then 1 else 0)
    ensures DelaySum(s, b) == DelaySum(s, a) + CountBelow(s, r)
  {
    if s != [] {
      DelaySumCharged(s[1..], a, b, r);
    }
  }

  lemma {:induction false} DelaySumAppend(s: seq<Item>, t: seq<Item>, delay: map<Item, nat>)
    ensures DelaySum(s + t, delay) == DelaySum(s, delay) + DelaySum(t, delay)
  {
    if s == [] {
      assert s + t == t;
    } else {
      assert (s + t)[1..] == s[1..] + t;
      DelaySumAppend(s[1..], t, delay);
    }
  }

  lemma InsertedDelay(s: seq<Item>, x: Item, delay: map<Item, nat>)
    requires x !in s
    ensures DelaySum(Insert(s, x), delay[x := 0]) == DelaySum(s, delay)
  {
    var k := BisectLeft(s, x);
    assert s == s[..k] + s[k..];
    DelaySumAppend(s[..k] + [x], s[k..], delay[x := 0]);
    DelaySumAppend(s[..k], [x], delay[x := 0]);
    DelaySumAppend(s[..k], s[k..], delay);
    DelaySumSame(s[..k], delay, delay[x := 0]);
    DelaySumSame(s[k..], delay, delay[x := 0]);
    assert [x][1..] == [];
  }

  /** A departure in delay mode. */
  lemma DepartBalances(c: Config, s: State, p: nat, x: Item)
    requires c.withDelay && x in s.shadow
    ensures var (t, e) := Depart(c, s, p, x);
      DelaySum(t.shadow, t.delay) + e.delay == DelaySum(s.shadow, s.delay) + e.smaller
  {
    var t := Depart(c, s, p, x).0;
    DelaySumRemove(s.shadow, x, s.delay);
    DelaySumCharged(t.shadow, s.delay, t.delay, x.rank);
  }

  lemma {:induction false} RemoveAllDelays(shadow: seq<Item>, dropped: seq<Item>, delay: map<Item, nat>)
    requires multiset(dropped) <= multiset(shadow)
    ensures DelaySum(RemoveAll(shadow, dropped), delay) + DelaySum(dropped, delay) == DelaySum(shadow, delay)
    decreases |dropped|
  {
    if dropped != [] {
      var x := dropped[0];
      MultisetSlice(dropped);
      assert x in multiset(dropped);
      DelaySumRemove(shadow, x, delay);
      RemoveIsDifference(shadow, x);
      RemoveAllDelays(Remove(shadow, x), dropped[1..], delay);
    }
  }

  lemma {:induction false} EvictionTally(delay: map<Item, nat>, p: nat, dropped: seq<Item>)
    ensures Tally(EvictionEvents(delay, p, dropped), DelaysGone()) == DelaySum(dropped, delay)
    ensures Tally(EvictionEvents(delay, p, dropped), Overtaken()) == 0
  {
    if dropped != [] {
      var n := |dropped| - 1;
      var ev := EvictionEvents(delay, p, dropped);
      EvictionTally(delay, p, dropped[..n]);
      assert ev[..n] == EvictionEvents(delay, p, dropped[..n]);
      assert dropped == dropped[..n] + [dropped[n]];
      DelaySumAppend(dropped[..n], [dropped[n]], delay);
      assert [dropped[n]][1..] == [];
    }
  }

  lemma ForgetKeepsDelays(s: State, dropped: seq<Item>)
    requires multiset(dropped) <= multiset(s.shadow)
    ensures var t := Forget(s, dropped);
      && DelaySum(t.shadow, t.delay) + DelaySum(dropped, s.delay) == DelaySum(s.shadow, s.delay)
  {
    RemoveAllDelays(s.shadow, dropped, s.delay);
  }

  /** A dequeue is an eviction of some items followed by the departure of one. */
  lemma DepartureBalances(c: Config, s: State, log: seq<Event>, ports: seq<Port>, p: nat, x: Item, dropped: seq<Item>)
    requires c.withDelay && DelayInv(s, log)
    requires multiset(dropped) + multiset{x} <= multiset(s.shadow)
    ensures var s1 := Forget(s, dropped).(ports := ports);
      var (t, e) := Depart(c, s1, p, x);
      DelayInv(t, log + (EvictionEvents(s.delay, p, dropped) + [e]))
  {
    var s1 := Forget(s, dropped).(ports := ports);
    ForgetKeepsDelays(s, dropped);
    RemoveAllIsDifference(s.shadow, dropped);
    assert x in multiset(s1.shadow);
    DepartBalances(c, s1, p, x);
    var e := Depart(c, s1, p, x).1;
    var evs := EvictionEvents(s.delay, p, dropped);
    EvictionTally(s.delay, p, dropped);
    TallyAppend(log, evs + [e], Overtaken());
    TallyAppend(log, evs + [e], DelaysGone());
    TallyOne(evs, e, Overtaken());
    TallyOne(evs, e, DelaysGone());
  }

  lemma DequeueKeepsDelays(c: Config, s: State, log: seq<Event>)
    requires ValidConfig(c) && Shape(c, s) && AccountingInv(c, s, log) && c.withDelay && DelayInv(s, log)
    ensures var (t, ev) := Dequeue(c, s); DelayInv(t, log + ev)
  {
    var p := s.port;
    var q := s.ports[p];
    HeldHas(s.ports, p);
    if q.pifo == [] && q.fifo == [] {
      TallyOne(log, Idle(p), Overtaken());
      TallyOne(log, Idle(p), DelaysGone());
    } else {
      assert forall y :: y in Contents(q) ==> y in multiset(s.shadow);
      var x, dropped := DequeueDeparts(c, s);
      var t, ev := Dequeue(c, s).0, Dequeue(c, s).1;
      Within(multiset(dropped), multiset{x}, Contents(t.ports[p]), Contents(q), multiset(s.shadow));
      DepartureBalances(c, s, log, t.ports, p, x, dropped);
    }
  }

  lemma Within(d: multiset<Item>, x: multiset<Item>, left: multiset<Item>, was: multiset<Item>, whole: multiset<Item>)
    requires left + d + x == was && was <= whole
    ensures d + x <= whole
  {
  }

  // ----- Runs -----

  ghost predicate DistinctIds(ops: seq<Op>) {
    forall i, j :: 0 <= i < j < |ops| && ops[i].Enq? && ops[j].Enq? ==>
      ops[i].item.pkt.pktid != ops[j].item.pkt.pktid
  }

  /** The items accepted in a run were offered in it. */
  lemma {:induction false} AcceptedWereOffered(c: Config, ops: seq<Op>)
    requires ValidConfig(c)
    ensures forall x :: x in AcceptedOf(Run(c, ops).1) ==> exists k :: 0 <= k < |ops| && ops[k] == Enq(x)
  {
    hide Step, AcceptedOf, Initial;
    NoneAccepted([]);
    if ops != [] {
      var n := |ops| - 1;
      AcceptedWereOffered(c, ops[..n]);
      var s, log := Run(c, ops[..n]).0, Run(c, ops[..n]).1;
      var ev := Step(c, s, ops[n]).1;
      LogAppend(log, ev);
      AcceptedInStep(c, s, ops[n]);
      forall x | x in AcceptedOf(Run(c, ops).1)
        ensures exists k :: 0 <= k < |ops| && ops[k] == Enq(x)
      {
        if x in AcceptedOf(ev) {
          assert ops[n] == Enq(x);
        } else {
          assert x in AcceptedOf(log);
          var k :| 0 <= k < n && ops[..n][k] == Enq(x);
          assert ops[k] == Enq(x);
        }
      }
    }
  }

  lemma AcceptedInStep(c: Config, s: State, op: Op)
    requires ValidConfig(c) && Shape(c, s)
    ensures forall x :: x in AcceptedOf(Step(c, s, op).1) ==> op == Enq(x)
  {
    match op
    case Enq(y) =>
      OneEvent(Enqueue(c, s, y).1[0]);
    case Deq =>
      DequeueIsQuiet(c, s);
      NoneAccepted(Dequeue(c, s).1);
  }

  lemma {:induction false} NoneAccepted(ev: seq<Event>)
    requires forall e :: e in ev ==> !e.Accepted?
    ensures AcceptedOf(ev) == multiset{}
  {
    if ev != [] {
      NoneAccepted(ev[..|ev| - 1]);
      assert ev[|ev| - 1] in ev;
    }
  }

  lemma OfferKeepsDelays(c: Config, s: State, log: seq<Event>, l: nat, i: nat, x: Item)
    requires ValidConfig(c) && Shape(c, s) && l < c.balancers && i < c.ranges
    requires DelayInv(s, log) && x !in s.shadow
    ensures var (t, ev) := Offer(c, s, l, i, x); DelayInv(t, log + ev)
  {
    var p := ChoosePort(Column(c, s.counters, l, i));
    InsertedDelay(s.shadow, x, s.delay);
    var ev := Offer(c, s, l, i, x).1;
    TallyOne(log, ev[0], Overtaken());
    TallyOne(log, ev[0], DelaysGone());
    var s1 := Admit(c, s, l, i, p, x);
    assert Counted(c, s1).shadow == s1.shadow && Counted(c, s1).delay == s1.delay;
  }

  lemma NewcomerIsNotHeld(c: Config, ops: seq<Op>)
    requires ValidConfig(c) && AllFit(c, ops) && DistinctIds(ops) && ops != [] && ops[|ops| - 1].Enq?
    ensures ops[|ops| - 1].item !in Run(c, ops[..|ops| - 1]).0.shadow
  {
    var n := |ops| - 1;
    RunKeepsAccounting(c, ops[..n]);
    AcceptedWereOffered(c, ops[..n]);
    var s, log := Run(c, ops[..n]).0, Run(c, ops[..n]).1;
    forall y | y in s.shadow
      ensures y != ops[n].item
    {
      assert y in multiset(s.shadow);
      assert y in AcceptedOf(log);
      var k :| 0 <= k < n && ops[..n][k] == Enq(y);
      assert ops[k] == Enq(y);
    }
  }

  /** In delay mode, after any run: the items overtaken, summed over all departures, are the delays
      of all items returned, evicted or still held. */
  lemma {:induction false} InversionsAreDelays(c: Config, ops: seq<Op>)
    requires ValidConfig(c) && AllFit(c, ops) && DistinctIds(ops) && c.withDelay
    ensures var (s, log) := Run(c, ops);
      Tally(log, Overtaken()) == Tally(log, DelaysGone()) + DelaySum(s.shadow, s.delay)
  {
    if ops != [] {
      var n := |ops| - 1;
      InversionsAreDelays(c, ops[..n]);
      RunKeepsAccounting(c, ops[..n]);
      var s, log := Run(c, ops[..n]).0, Run(c, ops[..n]).1;
      match ops[n] {
        case Deq =>
          DequeueKeepsDelays(c, s, log);
        case Enq(x) =>
          NewcomerIsNotHeld(c, ops);
          var i, b := Locate(s.borders, x.rank).0, Locate(s.borders, x.rank).1;
          OfferKeepsDelays(c, s.(borders := b, balancer := Next(s.balancer, c.balancers)), log, s.balancer, i, x);
      }
    }
  }

  // ----- Rank errors over runs -----

  function RankErrors(): Event -> int {
    (e: Event) => if e.Returned? then e.rankError else 0
  }

  /** For each item of the events that has been returned, how many held items tie with it in rank and precede it
      by packet id. */
  function TiesIn(held: seq<Item>, ev: seq<Event>): nat {
    if ev == [] then 0 else
      var e := ev[|ev| - 1];
      TiesIn(held, ev[..|ev| - 1]) + if e.Returned? then Ties(held, e.item) else 0
  }

  /** Ties that packet ids have broken, over the departures of a run. */
  function TiesOver(c: Config, ops: seq<Op>): nat
    requires ValidConfig(c)
  {
    if ops == [] then 0 else
      var n := |ops| - 1;
      var (t, ev) := Step(c, Run(c, ops[..n]).0, ops[n]);
      TiesOver(c, ops[..n]) + TiesIn(t.shadow, ev)
  }

  lemma {:induction false} EvictionsCountNothing(delay: map<Item, nat>, p: nat, dropped: seq<Item>, held: seq<Item>)
    ensures Tally(EvictionEvents(delay, p, dropped), RankErrors()) == 0
    ensures Tally(EvictionEvents(delay, p, dropped), Overtaken()) == 0
    ensures TiesIn(held, EvictionEvents(delay, p, dropped)) == 0
  {
    if dropped != [] {
      var n := |dropped| - 1;
      EvictionsCountNothing(delay, p, dropped[..n], held);
      assert EvictionEvents(delay, p, dropped)[..n] == EvictionEvents(delay, p, dropped[..n]);
    }
  }

  lemma StepErrors(c: Config, s: State, op: Op)
    requires ValidConfig(c) && Shape(c, s) && Sorted(s.shadow)
    ensures var (t, ev) := Step(c, s, op);
      Tally(ev, RankErrors()) == Tally(ev, Overtaken()) + TiesIn(t.shadow, ev)
  {
    hide FullPeriods, RangeFrom, ChoosePort, BisectLeft, CountBelow;
    match op
    case Enq(x) =>
      var e := Enqueue(c, s, x).1[0];
      OnlyEvent(e, Enqueue(c, s, x).0.shadow);
    case Deq =>
      DequeueErrors(c, s);
  }

  lemma OnlyEvent(e: Event, held: seq<Item>)
    ensures Tally([e], RankErrors()) == RankErrors()(e) && Tally([e], Overtaken()) == Overtaken()(e)
    ensures TiesIn(held, [e]) == if e.Returned? then Ties(held, e.item) else 0
  {
    assert [e][..0] == [];
  }

  lemma DequeueErrors(c: Config, s: State)
    requires ValidConfig(c) && Shape(c, s) && Sorted(s.shadow)
    ensures var (t, ev) := Dequeue(c, s);
      Tally(ev, RankErrors()) == Tally(ev, Overtaken()) + TiesIn(t.shadow, ev)
  {
    hide Refill, Load, Shed, TiesIn, Tally, Ties, Depart, BisectLeft, RemoveAll, EvictionEvents;
    var p := s.port;
    var q := s.ports[p];
    if q.pifo != [] {
      var (q1, dropped) := Refill(c, PopFront(q));
      ServeErrors(c, s, q1, dropped, q.pifo[0]);
    } else if q.fifo != [] {
      var (q1, dropped) := Refill(c, q);
      if q1.pifo != [] {
        ServeErrors(c, s, PopFront(q1), dropped, q1.pifo[0]);
      } else {
        EvictionsCountNothing(s.delay, p, dropped, Forget(s, dropped).shadow);
      }
    } else {
      OnlyEvent(Idle(p), s.shadow);
    }
  }

  lemma ServeErrors(c: Config, s: State, q: Port, dropped: seq<Item>, x: Item)
    requires ValidConfig(c) && Shape(c, s) && Sorted(s.shadow)
    ensures var (t, ev) := ScaleUpModel.Serve(c, s, q, dropped, x);
      Tally(ev, RankErrors()) == Tally(ev, Overtaken()) + TiesIn(t.shadow, ev)
  {
    hide Tally, Ties, BisectLeft, RemoveAll, EvictionEvents, CountBelow, Remove, Charged;
    var p := s.port;
    var s1 := Forget(s, dropped).(port := Next(p, c.pifos), ports := s.ports[p := q]);
    RemoveAllIsDifference(s.shadow, dropped);
    RankErrorCounts(c, s1, p, x);
    var (t, e) := Depart(c, s1, p, x);
    var evs := EvictionEvents(s.delay, p, dropped);
    EvictionsCountNothing(s.delay, p, dropped, t.shadow);
    TallyOne(evs, e, RankErrors());
    TallyOne(evs, e, Overtaken());
    assert (evs + [e])[..|evs + [e]| - 1] == evs;
  }

  /** After any run: the rank errors, summed over all departures, are the items overtaken and the ties that
      packet ids have broken. */
  lemma {:induction false} RankErrorsTally(c: Config, ops: seq<Op>)
    requires ValidConfig(c) && AllFit(c, ops)
    ensures var log := Run(c, ops).1;
      Tally(log, RankErrors()) == Tally(log, Overtaken()) + TiesOver(c, ops)
  {
    hide Step, TiesIn;
    if ops != [] {
      var n := |ops| - 1;
      RankErrorsTally(c, ops[..n]);
      RunKeepsAccounting(c, ops[..n]);
      var s, log := Run(c, ops[..n]).0, Run(c, ops[..n]).1;
      StepErrors(c, s, ops[n]);
      TallyAppend(log, Step(c, s, ops[n]).1, RankErrors());
      TallyAppend(log, Step(c, s, ops[n]).1, Overtaken());
    }
  }

  ghost predicate DistinctRanks(ops: seq<Op>) {
    forall i, j :: 0 <= i < j < |ops| && ops[i].Enq? && ops[j].Enq? ==> ops[i].item.rank != ops[j].item.rank
  }

  lemma {:induction false} NoTies(held: seq<Item>, x: Item)
    requires forall y :: y in held && y.rank == x.rank ==> y == x
    ensures Ties(held, x) == 0
  {
    if held != [] {
      NoTies(held[1..], x);
    }
  }

  lemma {:induction false} NoTiesIn(held: seq<Item>, ev: seq<Event>)
    requires forall e, y :: e in ev && e.Returned? && y in held && y.rank == e.item.rank ==> y == e.item
    ensures TiesIn(held, ev) == 0
  {
    if ev != [] {
      var e := ev[|ev| - 1];
      NoTiesIn(held, ev[..|ev| - 1]);
      if e.Returned? {
        NoTies(held, e.item);
      }
    }
  }

  /** What has been accepted in a run of distinct ranks is told apart by its rank. */
  lemma RanksTellApart(c: Config, ops: seq<Op>, x: Item, y: Item)
    requires ValidConfig(c) && DistinctRanks(ops) && x in AcceptedOf(Run(c, ops).1) && y in AcceptedOf(Run(c, ops).1)
    requires x.rank == y.rank
    ensures x == y
  {
    hide Run, AcceptedOf;
    AcceptedWereOffered(c, ops);
    var i :| 0 <= i < |ops| && ops[i] == Enq(x);
    var j :| 0 <= j < |ops| && ops[j] == Enq(y);
  }

  lemma {:induction false} DistinctRanksTieNever(c: Config, ops: seq<Op>)
    requires ValidConfig(c) && AllFit(c, ops) && DistinctRanks(ops)
    ensures TiesOver(c, ops) == 0
  {
    hide Step, TiesIn, AcceptedOf, AccountingInv;
    if ops != [] {
      var n := |ops| - 1;
      DistinctRanksTieNever(c, ops[..n]);
      var s := Run(c, ops[..n]).0;
      var t, ev := Step(c, s, ops[n]).0, Step(c, s, ops[n]).1;
      forall e, y | e in ev && e.Returned? && y in t.shadow && y.rank == e.item.rank
        ensures y == e.item
      {
        HeldOrGone(c, ops, e, y);
        RanksTellApart(c, ops, e.item, y);
      }
      NoTiesIn(t.shadow, ev);
    }
  }

  /** What is held, and what has been returned, has been accepted. */
  lemma HeldOrGone(c: Config, ops: seq<Op>, e: Event, y: Item)
    requires ValidConfig(c) && AllFit(c, ops) && ops != []
    requires e in Step(c, Run(c, ops[..|ops| - 1]).0, ops[|ops| - 1]).1 && e.Returned? && y in Run(c, ops).0.shadow
    ensures e.item in AcceptedOf(Run(c, ops).1) && y in AcceptedOf(Run(c, ops).1)
  {
    hide Step, AcceptedOf, ReturnedOf;
    RunKeepsAccounting(c, ops);
    var log := Run(c, ops).1;
    assert e in log;
    ReturnedHas(log, e);
    assert y in multiset(Run(c, ops).0.shadow);
  }

  lemma {:induction false} ReturnedHas(log: seq<Event>, e: Event)
    requires e in log && e.Returned?
    ensures e.item in ReturnedOf(log)
  {
    if e != log[|log| - 1] {
      ReturnedHas(log[..|log| - 1], e);
    }
  }

  /** In delay mode, over any run of distinct ranks, the rank errors of all departures add up to the delays of all
      items returned, evicted or still held. */
  lemma RankErrorsAreDelays(c: Config, ops: seq<Op>)
    requires ValidConfig(c) && AllFit(c, ops) && DistinctIds(ops) && DistinctRanks(ops) && c.withDelay
    ensures var (s, log) := Run(c, ops);
      Tally(log, RankErrors()) == Tally(log, DelaysGone()) + DelaySum(s.shadow, s.delay)
  {
    RankErrorsTally(c, ops);
    DistinctRanksTieNever(c, ops);
    InversionsAreDelays(c, ops);
  }

  // ----- What a delay counts -----

  /** How many items of greater rank have been returned since x was last accepted. */
  function Passed(log: seq<Event>, x: Item): nat {
    if log == [] then 0 else
      var e := log[|log| - 1];
      if e.Accepted? && e.item == x then 0
      else Passed(log[..|log| - 1], x) + if e.Returned? && x.rank < e.item.rank then 1 else 0
  }

  /** The delay of x after a log. */
  function DelayAfter(c: Config, log: seq<Event>, x: Item): nat {
    if c.withDelay then Passed(log, x) else 0
  }

  ghost predicate HeldDelays(c: Config, s: State, log: seq<Event>) {
    forall x :: x in s.shadow ==> DelayOf(s.delay, x) == DelayAfter(c, log, x)
  }

  /** Every item that left had the delay it should have. */
  ghost predicate GoneDelays(c: Config, log: seq<Event>) {
    forall k :: 0 <= k < |log| && (log[k].Returned? || log[k].Evicted?) ==>
      log[k].delay == DelayAfter(c, log[..k], log[k].item)
  }

  lemma PassedOne(log: seq<Event>, e: Event, x: Item)
    ensures Passed(log + [e], x) == if e.Accepted? && e.item == x then 0
      else Passed(log, x) + if e.Returned? && x.rank < e.item.rank then 1 else 0
  {
    assert (log + [e])[..|log + [e]| - 1] == log;
  }

  lemma GoneOne(c: Config, log: seq<Event>, e: Event)
    requires GoneDelays(c, log)
    requires e.Returned? || e.Evicted? ==> e.delay == DelayAfter(c, log, e.item)
    ensures GoneDelays(c, log + [e])
  {
    hide DelayAfter;
    var all := log + [e];
    forall k | 0 <= k < |all| && (all[k].Returned? || all[k].Evicted?)
      ensures all[k].delay == DelayAfter(c, all[..k], all[k].item)
    {
      assert all[..k] == log[..k];
      assert k == |log| ==> log[..k] == log;
    }
  }

  lemma {:induction false} EvictionsPassNone(c: Config, log: seq<Event>, s: State, p: nat, dropped: seq<Item>)
    requires HeldDelays(c, s, log) && GoneDelays(c, log) && forall x :: x in dropped ==> x in s.shadow
    ensures var ev := EvictionEvents(s.delay, p, dropped);
      HeldDelays(c, s, log + ev) && GoneDelays(c, log + ev)
  {
    hide DelayOf, GoneDelays, Passed;
    var ev := EvictionEvents(s.delay, p, dropped);
    if dropped == [] {
      assert log + ev == log;
    } else {
      var n := |dropped| - 1;
      var ev1 := EvictionEvents(s.delay, p, dropped[..n]);
      assert ev == ev1 + [ev[n]];
      EvictionsPassNone(c, log, s, p, dropped[..n]);
      assert log + ev == log + ev1 + [ev[n]];
      forall x
        ensures Passed(log + ev, x) == Passed(log + ev1, x)
      {
        PassedOne(log + ev1, ev[n], x);
      }
      GoneOne(c, log + ev1, ev[n]);
    }
  }

  /** The item that leaves passes those of smaller rank. */
  lemma DepartPasses(c: Config, s: State, log: seq<Event>, p: nat, x: Item)
    requires HeldDelays(c, s, log) && GoneDelays(c, log) && x in s.shadow
    ensures var (t, e) := Depart(c, s, p, x);
      HeldDelays(c, t, log + [e]) && GoneDelays(c, log + [e])
  {
    hide GoneDelays, Passed, BisectLeft, CountBelow, Remove;
    var (t, e) := Depart(c, s, p, x);
    GoneOne(c, log, e);
    StillHeld(s.shadow, x);
    forall y | y in t.shadow
      ensures DelayOf(t.delay, y) == DelayAfter(c, log + [e], y)
    {
      PassedOne(log, e, y);
      assert DelayOf(s.delay, y) == DelayAfter(c, log, y);
    }
  }

  lemma StillHeld(s: seq<Item>, x: Item)
    ensures forall y :: y in Remove(s, x) ==> y in s
  {
    RemoveIsDifference(s, x);
    forall y | y in Remove(s, x)
      ensures y in s
    {
      assert y in multiset(Remove(s, x));
    }
  }

  lemma ForgetHolds(c: Config, s: State, log: seq<Event>, dropped: seq<Item>)
    requires HeldDelays(c, s, log)
    ensures HeldDelays(c, Forget(s, dropped), log)
  {
    RemoveAllIsDifference(s.shadow, dropped);
    forall y | y in RemoveAll(s.shadow, dropped)
      ensures y in s.shadow
    {
      assert y in multiset(RemoveAll(s.shadow, dropped));
    }
  }

  lemma DepartureDelays(c: Config, s: State, log: seq<Event>, t: State, ev: seq<Event>, x: Item, dropped: seq<Item>)
    requires ValidConfig(c) && Shape(c, s) && Shape(c, t) && Departure(c, s, t, ev, x, dropped)
    requires HeldDelays(c, s, log) && GoneDelays(c, log)
    requires multiset(dropped) + multiset{x} <= multiset(s.shadow)
    ensures HeldDelays(c, t, log + ev) && GoneDelays(c, log + ev)
  {
    hide PortOk, Contents, GoneDelays, Passed, Remove, RemoveAll, BisectLeft, CountBelow, Charged;
    var p := s.port;
    var evs := EvictionEvents(s.delay, p, dropped);
    DroppedAreHeld(s.shadow, dropped, x);
    EvictionsPassNone(c, log, s, p, dropped);
    ForgetHolds(c, s, log + evs, dropped);
    var s1 := Forget(s, dropped).(ports := t.ports);
    DepartPasses(c, s1, log + evs, p, x);
    assert log + ev == log + evs + [Depart(c, s1, p, x).1];
  }

  lemma DroppedAreHeld(shadow: seq<Item>, dropped: seq<Item>, x: Item)
    requires multiset(dropped) + multiset{x} <= multiset(shadow)
    ensures forall y :: y in dropped ==> y in shadow
    ensures x in RemoveAll(shadow, dropped)
  {
    RemoveAllIsDifference(shadow, dropped);
    assert x in multiset(RemoveAll(shadow, dropped));
    forall y | y in dropped
      ensures y in shadow
    {
      assert y in multiset(dropped) && y in multiset(shadow);
    }
  }

  lemma DequeueDelays(c: Config, s: State, log: seq<Event>)
    requires ValidConfig(c) && Shape(c, s) && AccountingInv(c, s, log)
    requires HeldDelays(c, s, log) && GoneDelays(c, log)
    ensures var (t, ev) := Dequeue(c, s); HeldDelays(c, t, log + ev) && GoneDelays(c, log + ev)
  {
    hide Departure, PortOk, Passed, GoneDelays, HeldDelays;
    var q := s.ports[s.port];
    if q.pifo == [] && q.fifo == [] {
      IdleDelays(c, s, log);
    } else {
      VisitedIsOk(c, s, log);
      var x, dropped := DequeueDeparts(c, s);
      var t, ev := Dequeue(c, s).0, Dequeue(c, s).1;
      DepartureMirrors(c, s, t, ev, x, dropped);
      assert multiset(dropped) + multiset{x} <= multiset(s.shadow);
      DepartureDelays(c, s, log, t, ev, x, dropped);
    }
  }

  lemma IdleDelays(c: Config, s: State, log: seq<Event>)
    requires ValidConfig(c) && Shape(c, s) && HeldDelays(c, s, log) && GoneDelays(c, log)
    requires s.ports[s.port].pifo == [] && s.ports[s.port].fifo == []
    ensures var (t, ev) := Dequeue(c, s); HeldDelays(c, t, log + ev) && GoneDelays(c, log + ev)
  {
    hide GoneDelays, Passed;
    var e := Idle(s.port);
    GoneOne(c, log, e);
    forall x
      ensures Passed(log + [e], x) == Passed(log, x)
    {
      PassedOne(log, e, x);
    }
  }

  lemma EnqueueMirrors(c: Config, s: State, x: Item)
    requires ValidConfig(c) && Shape(c, s)
    ensures var (t, ev) := Enqueue(c, s, x);
      && |ev| == 1 && (ev[0].Accepted? || ev[0].Rejected?) && ev[0].item == x
      && if ev[0].Accepted? then t.shadow == Insert(s.shadow, x) && t.delay == s.delay[x := 0]
         else t.shadow == s.shadow && t.delay == s.delay
  {
    hide Locate, Next, ChoosePort, Bump, Counted, Insert, Column;
    var (i, b) := Locate(s.borders, x.rank);
    var s1 := s.(borders := b, balancer := Next(s.balancer, c.balancers));
    CountingMirrors(c, Admit(c, s1, s.balancer, i, ChoosePort(Column(c, s.counters, s.balancer, i)), x));
  }

  lemma CountingMirrors(c: Config, s: State)
    requires ValidConfig(c) && Shape(c, s)
    ensures Counted(c, s).shadow == s.shadow && Counted(c, s).delay == s.delay
  {
  }

  lemma EnqueueDelays(c: Config, s: State, log: seq<Event>, x: Item)
    requires ValidConfig(c) && Shape(c, s) && HeldDelays(c, s, log) && GoneDelays(c, log)
    ensures var (t, ev) := Enqueue(c, s, x); HeldDelays(c, t, log + ev) && GoneDelays(c, log + ev)
  {
    hide GoneDelays, Passed, Insert, Enqueue;
    EnqueueMirrors(c, s, x);
    var (t, ev) := Enqueue(c, s, x);
    var e := ev[0];
    assert ev == [e];
    GoneOne(c, log, e);
    InsertIsSum(s.shadow, x);
    forall y | y in t.shadow
      ensures DelayOf(t.delay, y) == DelayAfter(c, log + [e], y)
    {
      PassedOne(log, e, y);
      assert y in multiset(t.shadow);
      if y in s.shadow {
        assert DelayOf(s.delay, y) == DelayAfter(c, log, y);
      }
    }
  }

  /** After any run, the delay of every item held, and the one of every item returned or evicted when it left, is in
      delay mode the number of items of greater rank returned since it was accepted, and zero otherwise. */
  lemma {:induction false} DelaysCount(c: Config, ops: seq<Op>)
    requires ValidConfig(c) && AllFit(c, ops)
    ensures HeldDelays(c, Run(c, ops).0, Run(c, ops).1) && GoneDelays(c, Run(c, ops).1)
  {
    hide Enqueue, Dequeue, HeldDelays, AccountingInv;
    if ops == [] {
      StartDelays(c);
    } else {
      var n := |ops| - 1;
      DelaysCount(c, ops[..n]);
      RunKeepsAccounting(c, ops[..n]);
      var s, log := Run(c, ops[..n]).0, Run(c, ops[..n]).1;
      match ops[n]
      case Enq(x) => EnqueueDelays(c, s, log, x);
      case Deq => DequeueDelays(c, s, log);
    }
  }

  lemma StartDelays(c: Config)
    requires ValidConfig(c)
    ensures HeldDelays(c, Initial(c), []) && GoneDelays(c, [])
  {
  }
}
