/** The loop that feeds packets to Scale-up PIFO and collects what leaves it.

Each turn offers the next packet, or asks for one, as the congestion ratio says.
A request may come back empty although packets are held, because departures visit
one port at a time.  The loop ends all the same: a turn uses up an input, takes a
packet out, or brings the port pointer nearer to a port that holds one.
*/
module Driver {
  import opened Elements
  import opened ScaleUpModel
  import opened ScaleUpAccounting
  import opened ScaleUpSchedulers

  datatype Mode = PktMode | BitMode | UnsupportedMode

  /** Whether the next input goes in before the next output comes out. */
  predicate ShouldEnqueue(mode: Mode, inputCount: nat, inputBytes: nat, outputCount: nat, outputBytes: nat, ratio: real)
  {
    if mode == PktMode then inputCount as real < (outputCount + 1) as real * ratio
    else inputBytes as real < outputBytes as real * ratio + 1500.0
  }

  // ----- Progress -----

  predicate Busy(q: Port) {
    q.pifo != [] || q.fifo != []
  }

  /** How many ports, at most n, are visited from k on before a busy one. */
  function Distance(ports: seq<Port>, k: nat, n: nat): nat
    requires k < |ports|
    decreases n
  {
    if n == 0 || Busy(ports[k]) then 0 else 1 + Distance(ports, Next(k, |ports|), n - 1)
  }

  lemma {:induction false} DistanceStable(ports: seq<Port>, k: nat, n: nat)
    requires k < |ports|
    ensures Distance(ports, k, n) <= n
    ensures Distance(ports, k, n) < n ==> Distance(ports, k, n + 1) == Distance(ports, k, n)
    decreases n
  {
    if n > 0 && !Busy(ports[k]) {
      DistanceStable(ports, Next(k, |ports|), n - 1);
    }
  }

  /** The port reached from k after j visits. */
  function After(k: nat, j: nat, n: nat): (r: nat)
    requires k < n
    ensures r < n
    decreases j
  {
    if j == 0 then k else After(Next(k, n), j - 1, n)
  }

  lemma {:induction false} AfterIsShift(k: nat, j: nat, n: nat)
    requires k < n && j <= n
    ensures After(k, j, n) == if k + j < n then k + j else k + j - n
    decreases j
  {
    if j > 0 {
      AfterIsShift(Next(k, n), j - 1, n);
    }
  }

  lemma {:induction false} BusyBounds(ports: seq<Port>, k: nat, j: nat, n: nat)
    requires k < |ports| && j < n && Busy(ports[After(k, j, |ports|)])
    ensures Distance(ports, k, n) <= j
    decreases n
  {
    if j > 0 && !Busy(ports[k]) {
      BusyBounds(ports, Next(k, |ports|), j - 1, n - 1);
    }
  }

  /** Some busy port is met within one round, starting anywhere. */
  lemma BusyIsMet(ports: seq<Port>, k: nat, p: nat)
    requires k < |ports| && p < |ports| && Busy(ports[p])
    ensures Distance(ports, k, |ports|) < |ports|
  {
    var n := |ports|;
    var j := if p >= k then p - k else p + n - k;
    AfterIsShift(k, j, n);
    BusyBounds(ports, k, j, n);
  }

  /** Passing an idle port brings the next busy one closer. */
  lemma IdleStepApproaches(ports: seq<Port>, k: nat, p: nat)
    requires k < |ports| && p < |ports| && Busy(ports[p]) && !Busy(ports[k])
    ensures Distance(ports, Next(k, |ports|), |ports|) < Distance(ports, k, |ports|)
  {
    var n := |ports|;
    BusyIsMet(ports, k, p);
    DistanceStable(ports, Next(k, n), n - 1);
  }

  lemma ListSize(s: seq<Item>, t: seq<Item>, d: multiset<Item>, x: Item)
    requires multiset(t) + d + multiset{x} == multiset(s)
    ensures |t| < |s|
  {
    assert |multiset(s)| == |s| && |multiset(t)| == |t|;
  }

  /** A dequeue from a scheduler that holds something takes something out, or moves on towards it. */
  lemma DequeueProgresses(c: Config, s: State, log: seq<Event>, t: State, ev: seq<Event>)
    requires ValidConfig(c) && Shape(c, s) && Shape(c, t) && AccountingInv(c, s, log) && !IsEmpty(s)
    requires (t, ev) == Dequeue(c, s)
    ensures |t.shadow| < |s.shadow| ||
      (t.shadow == s.shadow && Distance(t.ports, t.port, c.pifos) < Distance(s.ports, s.port, c.pifos))
  {
    hide Dequeue, AccountingInv, Distance, IsEmpty, Contents, PortOk;
    if Busy(s.ports[s.port]) {
      VisitedIsOk(c, s, log);
      var x, dropped := DequeueDeparts(c, s);
      TakesOneOut(c, s, log, t, ev, x, dropped);
    } else {
      SomeIsBusy(s);
      var p :| 0 <= p < |s.ports| && Busy(s.ports[p]);
      IdleStepApproaches(s.ports, s.port, p);
      IdleStep(c, s);
    }
  }

  lemma TakesOneOut(c: Config, s: State, log: seq<Event>, t: State, ev: seq<Event>, x: Item, dropped: seq<Item>)
    requires ValidConfig(c) && Shape(c, s) && Shape(c, t) && AccountingInv(c, s, log)
    requires Departure(c, s, t, ev, x, dropped)
    ensures |t.shadow| < |s.shadow|
  {
    hide Departure, PortOk, Conserved, Held;
    DepartureMirrors(c, s, t, ev, x, dropped);
    ListSize(s.shadow, t.shadow, multiset(dropped), x);
  }

  lemma SomeIsBusy(s: State)
    requires !IsEmpty(s)
    ensures exists p :: 0 <= p < |s.ports| && Busy(s.ports[p])
  {
    var p :| 0 <= p < |s.ports| && !(s.ports[p].pifo == [] && s.ports[p].fifo == []);
    assert Busy(s.ports[p]);
  }

  lemma IdleStep(c: Config, s: State)
    requires ValidConfig(c) && Shape(c, s) && !Busy(s.ports[s.port])
    ensures Dequeue(c, s).0 == s.(port := Next(s.port, c.pifos))
  {
  }

  lemma EmptyHoldsNothing(c: Config, s: State, log: seq<Event>)
    requires ValidConfig(c) && Shape(c, s) && AccountingInv(c, s, log) && IsEmpty(s)
    ensures AcceptedOf(log) == ReturnedOf(log) + EvictedOf(log)
  {
    EmptyHeld(s.ports);
  }

  // ----- Runs -----

  /** The calls ops on a fresh scheduler lead to s and log. */
  ghost predicate Reached(c: Config, ops: seq<Op>, s: State, log: seq<Event>)
    requires ValidConfig(c)
  {
    AllFit(c, ops) && s == Run(c, ops).0 && log == Run(c, ops).1
  }

  lemma EnqueueReaches(c: Config, ops: seq<Op>, s: State, log: seq<Event>, t: State, ev: seq<Event>, x: Item)
    requires ValidConfig(c) && Reached(c, ops, s, log) && x.pkt.length as real <= c.pifoCap
    requires (t, ev) == Enqueue(c, s, x)
    ensures Reached(c, ops + [Enq(x)], t, log + ev)
    ensures Arrivals(ops + [Enq(x)]) == Arrivals(ops) + [x]
  {
    assert (ops + [Enq(x)])[..|ops + [Enq(x)]| - 1] == ops;
  }

  lemma DequeueReaches(c: Config, ops: seq<Op>, s: State, log: seq<Event>, t: State, ev: seq<Event>)
    requires ValidConfig(c) && Reached(c, ops, s, log) && (t, ev) == Dequeue(c, s)
    ensures Reached(c, ops + [Deq], t, log + ev)
    ensures Arrivals(ops + [Deq]) == Arrivals(ops)
  {
    assert (ops + [Deq])[..|ops + [Deq]| - 1] == ops;
  }

  lemma ReachedBalances(c: Config, ops: seq<Op>, s: State, log: seq<Event>)
    requires ValidConfig(c) && Reached(c, ops, s, log)
    ensures Shape(c, s) && AccountingInv(c, s, log)
  {
    RunKeepsAccounting(c, ops);
  }

  /** What the calls ops on a fresh scheduler give out, in order. */
  function Output(c: Config, ops: seq<Op>): seq<Served>
    requires ValidConfig(c)
  {
    if ops == [] then [] else
      var r := ServedBy(Step(c, Run(c, ops[..|ops| - 1]).0, ops[|ops| - 1]).1);
      Output(c, ops[..|ops| - 1]) + if r.Sent? then [r] else []
  }

  function BytesServed(out: seq<Served>): nat {
    if out == [] then 0 else
      var r := out[|out| - 1];
      BytesServed(out[..|out| - 1]) + if r.Sent? then r.item.pkt.length else 0
  }

  lemma OutputSnoc(c: Config, ops: seq<Op>, s: State, log: seq<Event>, op: Op)
    requires ValidConfig(c) && Reached(c, ops, s, log)
    ensures var r := ServedBy(Step(c, s, op).1);
      Output(c, ops + [op]) == Output(c, ops) + if r.Sent? then [r] else []
  {
    assert (ops + [op])[..|ops + [op]| - 1] == ops;
  }

  /** What the loop does next after the calls ops: the next input, or a dequeue. */
  function NextOp(c: Config, input: seq<Item>, mode: Mode, ratio: real, ops: seq<Op>): Op
    requires ValidConfig(c)
  {
    var offered, out := Arrivals(ops), Output(c, ops);
    if |offered| < |input| && (IsEmpty(Run(c, ops).0) ||
        ShouldEnqueue(mode, |offered|, Bytes(offered), |out|, BytesServed(out), ratio))
    then Enq(input[|offered|])
    else Deq
  }

  /** Every call of ops is the one the loop makes after those before it. */
  predicate Follows(c: Config, input: seq<Item>, mode: Mode, ratio: real, ops: seq<Op>)
    requires ValidConfig(c)
  {
    ops == [] ||
    (Follows(c, input, mode, ratio, ops[..|ops| - 1]) &&
     ops[|ops| - 1] == NextOp(c, input, mode, ratio, ops[..|ops| - 1]))
  }

  lemma FollowsOn(c: Config, input: seq<Item>, mode: Mode, ratio: real, ops: seq<Op>, op: Op)
    requires ValidConfig(c) && Follows(c, input, mode, ratio, ops) && op == NextOp(c, input, mode, ratio, ops)
    ensures Follows(c, input, mode, ratio, ops + [op])
  {
    assert (ops + [op])[..|ops + [op]| - 1] == ops;
  }

  /** The call after the first n, where input is left, is an offer exactly if nothing is held or the ratio asks for
      more. */
  lemma {:induction false} FollowsAt(c: Config, input: seq<Item>, mode: Mode, ratio: real, ops: seq<Op>, n: nat)
    requires ValidConfig(c) && Follows(c, input, mode, ratio, ops) && n < |ops|
    requires mode != UnsupportedMode || input == []
    ensures var offered, out := Arrivals(ops[..n]), Output(c, ops[..n]);
      && (|offered| < |input| ==> (ops[n].Enq? <==>
        || IsEmpty(Run(c, ops[..n]).0)
        || (mode == PktMode && |offered| as real < (|out| + 1) as real * ratio)
        || (mode == BitMode && Bytes(offered) as real < BytesServed(out) as real * ratio + 1500.0)))
      && (|offered| >= |input| ==> ops[n] == Deq)
  {
    hide IsEmpty, Output, BytesServed, Bytes, Arrivals, Run;
    var m := |ops| - 1;
    if n < m {
      FollowsAt(c, input, mode, ratio, ops[..m], n);
      assert ops[..m][..n] == ops[..n];
    }
  }

  /** The items of what was served. */
  function ItemsServed(out: seq<Served>): multiset<Item> {
    if out == [] then multiset{} else
      var r := out[|out| - 1];
      ItemsServed(out[..|out| - 1]) + if r.Sent? then multiset{r.item} else multiset{}
  }

  lemma ServedOne(out: seq<Served>, r: Served)
    requires r.Sent?
    ensures ItemsServed(out + [r]) == ItemsServed(out) + multiset{r.item}
    ensures BytesServed(out + [r]) == BytesServed(out) + r.item.pkt.length
  {
    assert (out + [r])[..|out + [r]| - 1] == out;
  }

  lemma {:induction false} NoneReturned(ev: seq<Event>)
    requires forall e :: e in ev ==> !e.Returned?
    ensures ReturnedOf(ev) == multiset{}
  {
    if ev != [] {
      NoneReturned(ev[..|ev| - 1]);
      assert ev[|ev| - 1] in ev;
    }
  }

  /** What a dequeue serves is what its events return. */
  lemma DequeueReturns(c: Config, s: State, ev: seq<Event>)
    requires ValidConfig(c) && Shape(c, s) && ev == Dequeue(c, s).1
    ensures ReturnedOf(ev) == if ServedBy(ev).Sent? then multiset{ServedBy(ev).item} else multiset{}
  {
    var n := |ev| - 1;
    if ev != [] {
      assert forall e :: e in ev[..n] ==> !e.Returned?;
      NoneReturned(ev[..n]);
    }
  }

  lemma EnqueueReturnsNothing(c: Config, ops: seq<Op>, s: State, log: seq<Event>, ev: seq<Event>, x: Item)
    requires ValidConfig(c) && Shape(c, s) && Reached(c, ops, s, log) && ev == Enqueue(c, s, x).1
    ensures ReturnedOf(ev) == multiset{}
    ensures Output(c, ops + [Enq(x)]) == Output(c, ops)
  {
    NoneReturned(ev);
    OutputSnoc(c, ops, s, log, Enq(x));
    assert Step(c, s, Enq(x)).1 == ev;
  }

  lemma BytesSnoc(items: seq<Item>, x: Item)
    ensures Bytes(items + [x]) == Bytes(items) + x.pkt.length
  {
    BytesAppend(items, [x]);
    assert [x][1..] == [];
  }

  ghost function Ids(items: seq<Item>): set<nat> {
    set k | 0 <= k < |items| :: items[k].pkt.pktid
  }

  /** The scheduler has been offered the first inputs and stands in state s after the calls ops. */
  ghost predicate Serving(scheduler: DynamicIntervalRRPIFOScheduler, input: seq<Item>, next: nat,
      ops: seq<Op>, s: State, log: seq<Event>)
    requires ValidConfig(scheduler.c) && next <= |input|
    reads scheduler, scheduler.queue
  {
    && scheduler.Valid(s)
    && Reached(scheduler.c, ops, s, log) && Arrivals(ops) == input[..next]
    && scheduler.seen == Ids(input[..next])
  }

  lemma StartsServing(scheduler: DynamicIntervalRRPIFOScheduler, input: seq<Item>, mode: Mode, ratio: real)
    requires ValidConfig(scheduler.c)
    requires scheduler.Valid(Initial(scheduler.c)) && scheduler.seen == {}
    ensures Serving(scheduler, input, 0, [], Initial(scheduler.c), [])
    ensures Follows(scheduler.c, input, mode, ratio, [])
    ensures ItemsServed([]) == ReturnedOf([]) && Output(scheduler.c, []) == []
    ensures Bytes(Arrivals([])) == 0 == BytesServed([])
    ensures |Initial(scheduler.c).ports| == scheduler.c.pifos && Initial(scheduler.c).port < scheduler.c.pifos
  {
    assert input[..0] == [];
    assert Ids([]) == {};
  }

  /** The decision the loop takes is the one NextOp describes. */
  lemma Decided(scheduler: DynamicIntervalRRPIFOScheduler, input: seq<Item>, next: nat,
      ops: seq<Op>, s: State, log: seq<Event>, mode: Mode, ratio: real, inputBytes: nat, out: seq<Served>)
    requires ValidConfig(scheduler.c) && next <= |input| && Serving(scheduler, input, next, ops, s, log)
    requires out == Output(scheduler.c, ops) && inputBytes == Bytes(Arrivals(ops))
    ensures NextOp(scheduler.c, input, mode, ratio, ops)
         == if next < |input| &&
               (IsEmpty(s) || ShouldEnqueue(mode, next, inputBytes, |out|, BytesServed(out), ratio))
            then Enq(input[next]) else Deq
  {
    hide ShouldEnqueue, IsEmpty, Output, BytesServed, Bytes, Arrivals, Run;
    assert |Arrivals(ops)| == next;
  }

  method OfferNext(scheduler: DynamicIntervalRRPIFOScheduler, input: seq<Item>, next: nat,
      ghost ops: seq<Op>, ghost s: State, ghost log: seq<Event>)
    returns (ghost t: State, ghost ev: seq<Event>)
    requires ValidConfig(scheduler.c) && next < |input| && Serving(scheduler, input, next, ops, s, log)
    requires input[next].pkt.length as real <= scheduler.c.pifoCap
    requires forall i, j :: 0 <= i < j < |input| ==> input[i].pkt.pktid != input[j].pkt.pktid
    modifies scheduler
    ensures Serving(scheduler, input, next + 1, ops + [Enq(input[next])], t, log + ev)
    ensures ReturnedOf(log + ev) == ReturnedOf(log)
    ensures Output(scheduler.c, ops + [Enq(input[next])]) == Output(scheduler.c, ops)
    ensures Bytes(Arrivals(ops + [Enq(input[next])])) == Bytes(Arrivals(ops)) + input[next].pkt.length
    ensures |t.ports| == scheduler.c.pifos && t.port < scheduler.c.pifos
    ensures forall e :: e in scheduler.queue ==> e in old(scheduler.queue) || fresh(e)
  {
    var x := input[next];
    NotSeen(input, next);
    t, ev := scheduler.Enqueue(x.pkt, x.rank, s);
    EnqueueReaches(scheduler.c, ops, s, log, t, ev, x);
    EnqueueReturnsNothing(scheduler.c, ops, s, log, ev, x);
    LogAppend(log, ev);
    BytesSnoc(Arrivals(ops), x);
    assert input[..next + 1] == input[..next] + [x];
  }

  method ServeNext(scheduler: DynamicIntervalRRPIFOScheduler, ghost input: seq<Item>, ghost next: nat,
      ghost ops: seq<Op>, ghost s: State, ghost log: seq<Event>)
    returns (r: Served, ghost t: State, ghost ev: seq<Event>)
    requires ValidConfig(scheduler.c) && next <= |input| && Serving(scheduler, input, next, ops, s, log)
    requires !IsEmpty(s)
    modifies scheduler, scheduler.queue
    ensures Serving(scheduler, input, next, ops + [Deq], t, log + ev)
    ensures ReturnedOf(log + ev) == ReturnedOf(log) + if r.Sent? then multiset{r.item} else multiset{}
    ensures Output(scheduler.c, ops + [Deq]) == Output(scheduler.c, ops) + if r.Sent? then [r] else []
    ensures Arrivals(ops + [Deq]) == Arrivals(ops)
    ensures |t.ports| == |s.ports| == scheduler.c.pifos && t.port < scheduler.c.pifos && s.port < scheduler.c.pifos
    ensures |t.shadow| < |s.shadow| ||
      (t.shadow == s.shadow &&
       Distance(t.ports, t.port, |t.ports|) < Distance(s.ports, s.port, |s.ports|))
    ensures forall e :: e in scheduler.queue ==> e in old(scheduler.queue)
  {
    ReachedBalances(scheduler.c, ops, s, log);
    BalancedIsRemovable(scheduler.c, s, log);
    r, t, ev := scheduler.Dequeue(s);
    DequeueReaches(scheduler.c, ops, s, log, t, ev);
    OutputSnoc(scheduler.c, ops, s, log, Deq);
    DequeueReturns(scheduler.c, s, ev);
    DequeueProgresses(scheduler.c, s, log, t, ev);
    LogAppend(log, ev);
  }

  lemma Finished(scheduler: DynamicIntervalRRPIFOScheduler, input: seq<Item>, next: nat,
      ops: seq<Op>, s: State, log: seq<Event>)
    requires ValidConfig(scheduler.c) && next == |input| && Serving(scheduler, input, next, ops, s, log)
    requires IsEmpty(s)
    ensures (s, log) == Run(scheduler.c, ops) && scheduler.Valid(s) && Arrivals(ops) == input
    ensures AcceptedOf(log) == ReturnedOf(log) + EvictedOf(log)
  {
    ReachedBalances(scheduler.c, ops, s, log);
    EmptyHoldsNothing(scheduler.c, s, log);
    assert input[..next] == input;
  }

  method CheckEmpty(scheduler: DynamicIntervalRRPIFOScheduler, ghost s: State) returns (empty: bool)
    requires scheduler.Valid(s)
    ensures empty <==> IsEmpty(s)
  {
    empty := scheduler.IsEmpty();
  }

  /** Feed all input to a fresh scheduler and drain it.  The loop ends, every input is offered in order, and the output
      is what the calls give out: every accepted packet that was not evicted, exactly once.  As long as input is left,
      the next item of it is offered exactly if nothing is held or not enough has been offered: counting packets, fewer
      than the ratio times one more than came out; counting bytes, fewer than the ratio times those that came out,
      and 1500. */
  method ProcessScheduler(scheduler: DynamicIntervalRRPIFOScheduler, input: seq<Item>, ratio: real, mode: Mode)
    returns (ok: bool, output: seq<Served>, ghost ops: seq<Op>, ghost s: State, ghost log: seq<Event>)
    requires ValidConfig(scheduler.c)
    requires scheduler.Valid(Initial(scheduler.c)) && scheduler.seen == {} && scheduler.queue == []
    requires forall x :: x in input ==> x.pkt.length as real <= scheduler.c.pifoCap
    requires forall i, j :: 0 <= i < j < |input| ==> input[i].pkt.pktid != input[j].pkt.pktid
    modifies scheduler
    ensures ok <==> mode != UnsupportedMode || input == []
    ensures ok ==> (s, log) == Run(scheduler.c, ops) && scheduler.Valid(s)
    ensures ok ==> Arrivals(ops) == input && IsEmpty(s)
    ensures ok ==> output == Output(scheduler.c, ops)
    ensures ok ==> forall n :: 0 <= n < |ops| ==>
      var offered, out := Arrivals(ops[..n]), Output(scheduler.c, ops[..n]);
      && (|offered| < |input| ==> (ops[n].Enq? <==>
        || IsEmpty(Run(scheduler.c, ops[..n]).0)
        || (mode == PktMode && |offered| as real < (|out| + 1) as real * ratio)
        || (mode == BitMode && Bytes(offered) as real < BytesServed(out) as real * ratio + 1500.0)))
      && (|offered| >= |input| ==> ops[n] == Deq)
    ensures ok ==> ItemsServed(output) + EvictedOf(log) == AcceptedOf(log)
    ensures ok ==> forall r :: r in output ==> r.Sent?
  {
    hide *;
    ghost var c := scheduler.c;
    output, ops, s, log := [], [], Initial(c), [];
    if mode == UnsupportedMode && input != [] {
      return false, output, ops, s, log;
    }
    ok := true;
    var inputCount: nat, outputCount: nat, inputBytes: nat, outputBytes: nat := 0, 0, 0, 0;
    StartsServing(scheduler, input, mode, ratio);
    var empty := CheckEmpty(scheduler, s);
    while inputCount < |input| || !empty
      invariant inputCount <= |input| && outputCount == |output|
      invariant inputCount < |input| ==> mode != UnsupportedMode
      invariant Serving(scheduler, input, inputCount, ops, s, log)
      invariant Follows(c, input, mode, ratio, ops) && output == Output(c, ops)
      invariant inputBytes == Bytes(Arrivals(ops)) && outputBytes == BytesServed(output)
      invariant forall e :: e in scheduler.queue ==> fresh(e)
      invariant ItemsServed(output) == ReturnedOf(log)
      invariant forall r :: r in output ==> r.Sent?
      invariant empty <==> IsEmpty(s)
      invariant |s.ports| == c.pifos && s.port < |s.ports|
      decreases |input| - inputCount, |s.shadow|, Distance(s.ports, s.port, |s.ports|)
    {
      var shouldInput := false;
      if inputCount < |input| {
        shouldInput := ShouldEnqueue(mode, inputCount, inputBytes, outputCount, outputBytes, ratio);
      }
      if empty && !shouldInput {
        shouldInput := true;
      }
      Decided(scheduler, input, inputCount, ops, s, log, mode, ratio, inputBytes, output);
      if shouldInput && inputCount < |input| {
        var x := input[inputCount];
        FollowsOn(c, input, mode, ratio, ops, Enq(x));
        ghost var t, ev := OfferNext(scheduler, input, inputCount, ops, s, log);
        ops, s, log := ops + [Enq(x)], t, log + ev;
        inputCount, inputBytes := inputCount + 1, inputBytes + x.pkt.length;
      } else {
        FollowsOn(c, input, mode, ratio, ops, Deq);
        var r;
        ghost var t, ev;
        assert forall k :: 0 <= k < |scheduler.queue| ==> scheduler.queue[k] in scheduler.queue;
        r, t, ev := ServeNext(scheduler, input, inputCount, ops, s, log);
        ops, s, log := ops + [Deq], t, log + ev;
        if r.Sent? {
          ServedOne(output, r);
          output := output + [r];
          outputCount, outputBytes := outputCount + 1, outputBytes + r.item.pkt.length;
        }
      }
      empty := CheckEmpty(scheduler, s);
    }
    Finished(scheduler, input, inputCount, ops, s, log);
    forall n: nat | n < |ops| {
      FollowsAt(c, input, mode, ratio, ops, n);
    }
  }

  lemma NotSeen(input: seq<Item>, next: nat)
    requires next < |input|
    requires forall i, j :: 0 <= i < j < |input| ==> input[i].pkt.pktid != input[j].pkt.pktid
    ensures input[next].pkt.pktid !in Ids(input[..next])
    ensures Ids(input[..next + 1]) == Ids(input[..next]) + {input[next].pkt.pktid}
  {
  }
}
