/** What becomes of an arrival, in every reachable state. */
module ScaleUpArrival {
  import opened Elements
  import opened ScaleUpModel
  import opened ScaleUpBorders
  import opened ScaleUpRoundRobin
  import opened ScaleUpAccounting
  import opened ScaleUpAdjust

  // ----- Turns -----

  /** Arrivals take the balancers in turn, departures the ports. */
  ghost predicate InTurn(c: Config, ops: seq<Op>, s: State)
    requires ValidConfig(c)
  {
    && s.balancer == |Arrivals(ops)| % c.balancers
    && s.port == (|ops| - |Arrivals(ops)|) % c.pifos
  }

  lemma {:induction false} RunKeepsTurns(c: Config, ops: seq<Op>)
    requires ValidConfig(c)
    ensures InTurn(c, ops, Run(c, ops).0) && |Arrivals(ops)| <= |ops|
  {
    hide Step, Next;
    if ops != [] {
      var n := |ops| - 1;
      RunKeepsTurns(c, ops[..n]);
      var s := Run(c, ops[..n]).0;
      StepTurns(c, s, ops[n]);
      if ops[n].Enq? {
        NextIsModular(s.balancer, c.balancers);
        ModStep(|Arrivals(ops[..n])|, c.balancers);
      } else {
        NextIsModular(s.port, c.pifos);
        ModStep(n - |Arrivals(ops[..n])|, c.pifos);
      }
    }
  }

  /** What an accepted arrival leaves alone, once it is counted. */
  lemma AcceptedKeeps(c: Config, s: State, x: Item)
    requires ValidConfig(c) && Shape(c, s)
    ensures var (i, b) := Locate(s.borders, x.rank);
      var p := ChoosePort(Column(c, s.counters, s.balancer, i));
      var t := Admit(c, s.(borders := b, balancer := Next(s.balancer, c.balancers)), s.balancer, i, p, x);
      var u := Counted(c, t);
      u.balancer == t.balancer && u.port == t.port && u.ports == t.ports
  {
    hide Locate, Next, Counted, ChoosePort, Bump, Column;
    var (i, b) := Locate(s.borders, x.rank);
    var p := ChoosePort(Column(c, s.counters, s.balancer, i));
    CountedStep(c, Admit(c, s.(borders := b, balancer := Next(s.balancer, c.balancers)), s.balancer, i, p, x));
  }

  lemma StepTurns(c: Config, s: State, op: Op)
    requires ValidConfig(c) && Shape(c, s)
    ensures var t := Step(c, s, op).0;
      if op.Enq? then t.balancer == Next(s.balancer, c.balancers) && t.port == s.port
      else t.balancer == s.balancer && t.port == Next(s.port, c.pifos)
  {
    hide Refill, Remove, RemoveAll, Charged, Locate, Next, Counted, ChoosePort;
    match op
    case Enq(x) =>
      AcceptedKeeps(c, s, x);
    case Deq =>
  }

  // ----- Weights -----

  /** The byte counters of a port are the sizes of its lists, and its PIFO is in order. */
  ghost predicate Weighed(q: Port) {
    q.fifoBytes == Bytes(q.fifo) && q.pifoBytes == Bytes(q.pifo) && Sorted(q.pifo)
  }

  ghost predicate AllWeighed(s: State) {
    forall p :: 0 <= p < |s.ports| ==> Weighed(s.ports[p])
  }

  lemma RefillWeighs(c: Config, q: Port)
    requires ValidConfig(c) && Weighed(q)
    ensures Weighed(Refill(c, q).0)
  {
    hide Bytes, Load, Shed;
    LoadKeeps(q, c.batch);
    ShedKeeps(Load(q, c.batch), c.pifoCap);
  }

  lemma PopWeighs(q: Port)
    requires Weighed(q) && q.pifo != []
    ensures Weighed(PopFront(q))
  {
  }

  lemma DequeueWeighs(c: Config, s: State)
    requires ValidConfig(c) && Shape(c, s) && AllWeighed(s)
    ensures AllWeighed(Dequeue(c, s).0)
  {
    hide Weighed, Refill, Next;
    var q := s.ports[s.port];
    if q.pifo != [] {
      PopWeighs(q);
      RefillWeighs(c, PopFront(q));
    } else if q.fifo != [] {
      RefillWeighs(c, q);
      if Refill(c, q).0.pifo != [] {
        PopWeighs(Refill(c, q).0);
      }
    }
  }

  lemma AppendWeighs(q: Port, x: Item)
    requires Weighed(q)
    ensures Weighed(q.(fifo := q.fifo + [x], fifoBytes := q.fifoBytes + x.pkt.length))
  {
    hide Bytes, Sorted;
    BytesAppend(q.fifo, [x]);
    OneItem(x);
  }

  lemma EnqueueWeighs(c: Config, s: State, x: Item)
    requires ValidConfig(c) && Shape(c, s) && AllWeighed(s)
    ensures AllWeighed(Enqueue(c, s, x).0)
  {
    hide Weighed, Locate, Next, ChoosePort, Counted, Bump;
    var i := Locate(s.borders, x.rank).0;
    AcceptedKeeps(c, s, x);
    AppendWeighs(s.ports[ChoosePort(Column(c, s.counters, s.balancer, i))], x);
  }

  lemma {:induction false} RunKeepsWeights(c: Config, ops: seq<Op>)
    requires ValidConfig(c)
    ensures AllWeighed(Run(c, ops).0)
  {
    hide AllWeighed, Enqueue, Dequeue;
    if ops == [] {
      InitialWeighs(c);
    } else {
      var n := |ops| - 1;
      RunKeepsWeights(c, ops[..n]);
      var s := Run(c, ops[..n]).0;
      match ops[n]
      case Enq(x) => EnqueueWeighs(c, s, x);
      case Deq => DequeueWeighs(c, s);
    }
  }

  lemma InitialWeighs(c: Config)
    requires ValidConfig(c)
    ensures AllWeighed(Initial(c))
  {
  }

  // ----- Acceptance -----

  /** A rank stays in the range it belongs to; the last border moves to a rank that is not below it. */
  lemma LocateIs(b: seq<real>, rank: real, i: nat)
    requires Ordered(b) && rank >= 0.0 && Belongs(b, rank, i)
    ensures Locate(b, rank) == (i, if rank < b[i + 1] then b else b[i + 1 := rank])
  {
    LocateFinds(b, rank);
    BelongsToOne(b, rank, i);
    RangeFromFinds(b, rank, 0);
  }

  lemma EnqueueIs(c: Config, s: State, x: Item, i: nat, b: seq<real>, p: nat)
    requires ValidConfig(c) && Shape(c, s) && Locate(s.borders, x.rank) == (i, b)
    requires p == ChoosePort(Column(c, s.counters, s.balancer, i))
    ensures var q := s.ports[p];
      var moved := s.(borders := b, balancer := Next(s.balancer, c.balancers));
      if (q.fifoBytes + x.pkt.length) as real < c.fifoLimit then
        var t := moved.(adjusts := s.adjusts + 1, counters := Bump(s.counters, s.balancer, p, i),
          ports := s.ports[p := q.(fifo := q.fifo + [x], fifoBytes := q.fifoBytes + x.pkt.length)],
          shadow := Insert(s.shadow, x), delay := s.delay[x := 0]);
        Step(c, s, Enq(x)) == (if (s.adjusts + 1) % c.period == 0 then Adjust(c, t) else t,
                               [Accepted(s.balancer, i, p, x)])
      else
        Step(c, s, Enq(x)) == (moved, [Rejected(s.balancer, i, p, x)])
  {
    hide Locate, Next, ChoosePort, Column, Adjust, Insert, Bump;
  }

  /** The state once x, of range i and seen by balancer l, has been put at the end of the FIFO at port p as the n-th
      packet accepted. */
  function Taken(c: Config, s: State, l: nat, i: nat, p: nat, n: nat, x: Item): (t: State)
    requires ValidConfig(c) && Shape(c, s) && l < c.balancers && i < c.ranges && p < c.pifos
    ensures Shape(c, t)
  {
    var q := s.ports[p];
    s.(adjusts := n, counters := Bump(s.counters, l, p, i),
       ports := s.ports[p := q.(fifo := q.fifo + [x], fifoBytes := Bytes(q.fifo) + x.pkt.length)],
       shadow := Insert(s.shadow, x), delay := s.delay[x := 0])
  }

  /** After any run, an arrival goes to the balancer whose turn it is and, of the ports, to the one where round robin
      stands for this balancer and the range of the rank.  It is accepted exactly if the bytes in the FIFO there and
      its own are below the limit; it is then the last one of that FIFO and has no delay.  After each period of
      accepted packets the ranges are adjusted. */
  lemma ArrivalIs(c: Config, ops: seq<Op>, x: Item, i: nat)
    requires ValidConfig(c) && RanksNonNegative(ops) && x.rank >= 0.0
    requires Belongs(Run(c, ops).0.borders, x.rank, i)
    ensures i < c.ranges
    ensures var (s, log) := Run(c, ops);
      var l, n := |Arrivals(ops)| % c.balancers, AcceptedCount(log) + 1;
      var p: nat := Pointer(c, log, l, i);
      var moved := s.(borders := if x.rank < s.borders[i + 1] then s.borders else s.borders[i + 1 := x.rank],
                      balancer := (l + 1) % c.balancers);
      if (Bytes(s.ports[p].fifo) + x.pkt.length) as real < c.fifoLimit then
        var t := Taken(c, moved, l, i, p, n, x);
        Step(c, s, Enq(x)) == (if n % c.period == 0 then Adjust(c, t) else t, [Accepted(l, i, p, x)])
      else
        Step(c, s, Enq(x)) == (moved, [Rejected(l, i, p, x)])
  {
    hide Run, Step, Adjust, Bytes, Insert, Bump, Pointer, ChoosePort, Column, AcceptedCount, Arrivals, Locate, Next,
         Ordered, RanksNonNegative;
    var s, log := Run(c, ops).0, Run(c, ops).1;
    Foundations(c, ops);
    LocateIs(s.borders, x.rank, i);
    var l := |Arrivals(ops)| % c.balancers;
    var p := ChoosePort(Column(c, s.counters, l, i));
    NextIsModular(s.balancer, c.balancers);
    EnqueueIs(c, s, x, i, Locate(s.borders, x.rank).1, p);
  }

  lemma Foundations(c: Config, ops: seq<Op>)
    requires ValidConfig(c) && RanksNonNegative(ops)
    ensures var (s, log) := Run(c, ops);
      && Shape(c, s) && Ordered(s.borders) && |s.borders| == c.ranges + 1
      && s.balancer == |Arrivals(ops)| % c.balancers && s.adjusts == AcceptedCount(log)
      && (forall p :: 0 <= p < c.pifos ==> s.ports[p].fifoBytes == Bytes(s.ports[p].fifo))
      && forall l, i :: 0 <= l < c.balancers && 0 <= i < c.ranges ==>
        ChoosePort(Column(c, s.counters, l, i)) == Pointer(c, log, l, i)
  {
    hide Run, Bytes, Sorted, Pointer, ChoosePort, AcceptedCount, Arrivals;
    RunKeepsOrder(c, ops);
    RunKeepsTurns(c, ops);
    RunKeepsWeights(c, ops);
    RunKeepsCounts(c, ops);
    LeastCounterIsRoundRobin(c, ops);
  }
}
