/** The Scale-up PIFO scheduler on values. */
module ScaleUpModel {
  import opened Elements

  /* One logical PIFO is spread over several physical ones.  The rank of an arriving
     packet selects a range; a counter kept per load balancer, physical PIFO and
     range selects the PIFO, in front of which stands a bounded FIFO.  Departures
     visit the PIFOs cyclically.  Every step reports what happened as events, so that
     properties of whole runs can be stated about the log of a run. */

  /** fifoLimit and pifoCap bound the bytes of one FIFO and of one physical PIFO. */
  datatype Config = Config(
    balancers: nat, pifos: nat, ranges: nat, batch: nat, period: nat,
    totalLength: real, fifoLimit: real, pifoCap: real, withDelay: bool, alwaysAttenuate: bool)

  predicate ValidConfig(c: Config) {
    && c.balancers >= 1 && c.pifos >= 1 && c.ranges >= 1 && c.batch >= 1 && c.period >= 1
    && c.totalLength > 0.0 && c.fifoLimit > 0.0 && c.pifoCap >= 0.0
  }

  /** The configuration for given sizes: the FIFOs share room for one full-size packet per range,
      balancer and PIFO, but at least for two each; the PIFOs share the given buffer. */
  function Configure(balancers: nat, pifos: nat, ranges: nat, batch: nat, period: nat,
      totalLength: real, pifoBuffer: real, withDelay: bool, alwaysAttenuate: bool): (c: Config)
    requires balancers >= 1 && pifos >= 1 && ranges >= 1 && batch >= 1 && period >= 1
    requires totalLength > 0.0 && pifoBuffer >= 0.0
    ensures ValidConfig(c)
  {
    var whole := ranges * balancers * pifos * 1500;
    var least := pifos * 3000;
    var room := if whole >= least then whole else least;
    Config(balancers, pifos, ranges, batch, period, totalLength,
           room as real / pifos as real, pifoBuffer / pifos as real, withDelay, alwaysAttenuate)
  }

  /** All FIFOs together have exactly the greater of the two rooms, and all PIFOs together the given buffer; the rest
      is as given. */
  lemma ConfiguredLimits(balancers: nat, pifos: nat, ranges: nat, batch: nat, period: nat,
      totalLength: real, pifoBuffer: real, withDelay: bool, alwaysAttenuate: bool)
    requires balancers >= 1 && pifos >= 1 && ranges >= 1 && batch >= 1 && period >= 1
    requires totalLength > 0.0 && pifoBuffer >= 0.0
    ensures var c := Configure(balancers, pifos, ranges, batch, period, totalLength, pifoBuffer, withDelay,
                               alwaysAttenuate);
      var room := c.fifoLimit * pifos as real;
      var packets, least := (ranges * balancers * pifos * 1500) as real, (pifos * 3000) as real;
      && room >= packets && room >= least && (room == packets || room == least)
      && c.pifoCap * pifos as real == pifoBuffer
      && c == Config(balancers, pifos, ranges, batch, period, totalLength, c.fifoLimit, c.pifoCap, withDelay,
                     alwaysAttenuate)
  {
    var whole, least := ranges * balancers * pifos * 1500, pifos * 3000;
    QuotientTimes(pifoBuffer, pifos as real);
    QuotientTimes((if whole >= least then whole else least) as real, pifos as real);
  }

  lemma QuotientTimes(x: real, y: real)
    requires y > 0.0
    ensures x / y * y == x
  {
  }

  /** A physical PIFO and the FIFO in front of it, with their byte counters. */
  datatype Port = Port(fifo: seq<Item>, pifo: seq<Item>, fifoBytes: int, pifoBytes: int)

  /** Counters are indexed by load balancer, then by PIFO, then by range. */
  type Counters = seq<seq<seq<int>>>

  datatype State = State(
    borders: seq<real>, hotness: seq<real>, counters: Counters,
    balancer: nat, port: nat, adjusts: nat, ports: seq<Port>,
    shadow: seq<Item>, delay: map<Item, nat>)

  datatype Event =
    | Accepted(balancer: nat, range: nat, port: nat, item: Item)
    | Rejected(balancer: nat, range: nat, port: nat, item: Item)
    | Evicted(port: nat, item: Item, delay: nat)
      // smaller: how many items of strictly smaller rank are still held
    | Returned(port: nat, item: Item, rankError: nat, smaller: nat, delay: nat)
    | Idle(port: nat)

  ghost predicate CountersShape(c: Config, counters: Counters) {
    && |counters| == c.balancers
    && (forall l :: 0 <= l < c.balancers ==> |counters[l]| == c.pifos)
    && (forall l, p :: 0 <= l < c.balancers && 0 <= p < c.pifos ==> |counters[l][p]| == c.ranges)
  }

  ghost predicate Shape(c: Config, s: State) {
    && |s.borders| == c.ranges + 1
    && |s.hotness| == c.ranges
    && CountersShape(c, s.counters)
    && s.balancer < c.balancers
    && s.port < c.pifos
    && |s.ports| == c.pifos
  }

  // ----- Construction -----

  function InitialBorders(c: Config): (b: seq<real>)
    requires ValidConfig(c)
    ensures |b| == c.ranges + 1
  {
    seq(c.ranges, i => i as real * (c.totalLength / c.ranges as real)) + [c.totalLength]
  }

  /** Range i starts with its first (i modulo the number of PIFOs) counters at 1. */
  function InitialCount(c: Config, p: nat, i: nat): int
    requires c.pifos >= 1
  {
    if p < i % c.pifos then 1 else 0
  }

  function InitialCounters(c: Config): (counters: Counters)
    requires ValidConfig(c)
    ensures CountersShape(c, counters)
    ensures forall l, p, i :: 0 <= l < c.balancers && 0 <= p < c.pifos && 0 <= i < c.ranges ==>
      counters[l][p][i] == InitialCount(c, p, i)
  {
    seq(c.balancers, _ => seq(c.pifos, p requires 0 <= p =>
      seq(c.ranges, i requires 0 <= i => InitialCount(c, p, i))))
  }

  function Initial(c: Config): (s: State)
    requires ValidConfig(c)
    ensures Shape(c, s)
  {
    State(InitialBorders(c), seq(c.ranges, _ => 0.0), InitialCounters(c), 0, 0, 0,
          seq(c.pifos, _ => Port([], [], 0, 0)), [], map[])
  }

  /** The next of n places visited cyclically: (k + 1) modulo n. */
  function Next(k: nat, n: nat): (r: nat)
    requires k < n
    ensures r < n
  {
    if k + 1 == n then 0 else k + 1
  }

  lemma NextIsModular(k: nat, n: nat)
    requires k < n
    ensures Next(k, n) == (k + 1) % n
  {
  }

  // ----- Arrival -----

  /** The first range, from i on, whose half-open interval holds the rank; the last one when none does. */
  function RangeFrom(borders: seq<real>, rank: real, i: nat): (r: nat)
    requires i < |borders|
    ensures r < |borders|
    decreases |borders| - i
  {
    if i + 1 == |borders| then i
    else if borders[i] <= rank < borders[i + 1] then i
    else RangeFrom(borders, rank, i + 1)
  }

  /** The range of a rank, and the borders, whose last one moves to a rank that lies in no range. */
  function Locate(borders: seq<real>, rank: real): (r: (nat, seq<real>))
    requires |borders| >= 2
    ensures r.0 < |borders| - 1 && |r.1| == |borders|
  {
    var n := |borders| - 1;
    var i := RangeFrom(borders, rank, 0);
    if i < n then (i, borders) else (n - 1, borders[n := rank])
  }

  /** The counters of one load balancer and range, one per PIFO. */
  function Column(c: Config, counters: Counters, l: nat, i: nat): (col: seq<int>)
    requires CountersShape(c, counters) && l < c.balancers && i < c.ranges
    ensures |col| == c.pifos
    ensures forall p :: 0 <= p < c.pifos ==> col[p] == counters[l][p][i]
  {
    seq(c.pifos, p requires 0 <= p < c.pifos => counters[l][p][i])
  }

  /** The first port among the least counters. */
  function ChoosePort(col: seq<int>): (best: nat)
    requires col != []
    ensures best < |col|
    ensures forall p :: 0 <= p < |col| ==> col[best] <= col[p]
    ensures forall p :: 0 <= p < best ==> col[best] < col[p]
  {
    if |col| == 1 then 0 else
      var b := ChoosePort(col[..|col| - 1]);
      if col[|col| - 1] < col[b] then |col| - 1 else b
  }

  function Bump(counters: Counters, l: nat, p: nat, i: nat): Counters
    requires l < |counters| && p < |counters[l]| && i < |counters[l][p]|
  {
    counters[l := counters[l][p := counters[l][p][i := counters[l][p][i] + 1]]]
  }

  function Enqueue(c: Config, s: State, x: Item): (r: (State, seq<Event>))
    requires ValidConfig(c) && Shape(c, s)
    ensures Shape(c, r.0)
  {
    var (i, borders) := Locate(s.borders, x.rank);
    Offer(c, s.(borders := borders, balancer := Next(s.balancer, c.balancers)), s.balancer, i, x)
  }

  /** Put an item of range i, seen by balancer l, on the port of least counter if its FIFO has room. */
  function Offer(c: Config, s: State, l: nat, i: nat, x: Item): (r: (State, seq<Event>))
    requires ValidConfig(c) && Shape(c, s) && l < c.balancers && i < c.ranges
    ensures Shape(c, r.0)
  {
    var p := ChoosePort(Column(c, s.counters, l, i));
    if (s.ports[p].fifoBytes + x.pkt.length) as real < c.fifoLimit then
      (Counted(c, Admit(c, s, l, i, p, x)), [Accepted(l, i, p, x)])
    else
      (s, [Rejected(l, i, p, x)])
  }

  function Admit(c: Config, s: State, l: nat, i: nat, p: nat, x: Item): (t: State)
    requires ValidConfig(c) && Shape(c, s) && l < c.balancers && i < c.ranges && p < c.pifos
    ensures Shape(c, t)
  {
    var q := s.ports[p];
    s.(ports := s.ports[p := q.(fifo := q.fifo + [x], fifoBytes := q.fifoBytes + x.pkt.length)],
       counters := Bump(s.counters, l, p, i),
       shadow := Insert(s.shadow, x),
       delay := s.delay[x := 0])
  }

  /** Count an accepted packet and adjust the ranges when a period is full. */
  function Counted(c: Config, s: State): (t: State)
    requires ValidConfig(c) && Shape(c, s)
    ensures Shape(c, t)
  {
    var s1 := s.(adjusts := s.adjusts + 1);
    if FullPeriods(s1.adjusts, c.period) then Adjust(c, s1) else s1
  }

  /** k is a whole number of periods: k modulo n is zero. */
  predicate FullPeriods(k: nat, n: nat)
    requires n > 0
  {
    k % n == 0
  }

  // ----- Range adjustment -----

  function SumReals(s: seq<real>): real {
    if s == [] then 0.0 else SumReals(s[..|s| - 1]) + s[|s| - 1]
  }

  function SumInts(s: seq<int>): int {
    if s == [] then 0 else SumInts(s[..|s| - 1]) + s[|s| - 1]
  }

  /** The first index of the least entry. */
  function ArgMin(s: seq<real>): (k: nat)
    requires s != []
    ensures k < |s|
    ensures forall j :: 0 <= j < |s| ==> s[k] <= s[j]
    ensures forall j :: 0 <= j < k ==> s[k] < s[j]
  {
    if |s| == 1 then 0 else
      var b := ArgMin(s[..|s| - 1]);
      if s[|s| - 1] < s[b] then |s| - 1 else b
  }

  /** The first index of the greatest entry. */
  function ArgMax(s: seq<real>): (k: nat)
    requires s != []
    ensures k < |s|
    ensures forall j :: 0 <= j < |s| ==> s[j] <= s[k]
    ensures forall j :: 0 <= j < k ==> s[j] < s[k]
  {
    if |s| == 1 then 0 else
      var b := ArgMax(s[..|s| - 1]);
      if s[b] < s[|s| - 1] then |s| - 1 else b
  }

  /** What the counters of range i add up to, over the first n load balancers. */
  function RangeTotal(c: Config, counters: Counters, i: nat, n: nat): int
    requires CountersShape(c, counters) && i < c.ranges && n <= c.balancers
  {
    if n == 0 then 0 else RangeTotal(c, counters, i, n - 1) + SumInts(Column(c, counters, n - 1, i))
  }

  /** The counters less the least of their column. */
  function Lowered(c: Config, counters: Counters): (r: Counters)
    requires ValidConfig(c) && CountersShape(c, counters)
    ensures CountersShape(c, r)
    ensures forall l, p, i :: 0 <= l < c.balancers && 0 <= p < c.pifos && 0 <= i < c.ranges ==>
      var col := Column(c, counters, l, i);
      r[l][p][i] == counters[l][p][i] - col[ChoosePort(col)]
  {
    seq(c.balancers, l requires 0 <= l < c.balancers =>
      seq(c.pifos, p requires 0 <= p < c.pifos =>
        seq(c.ranges, i requires 0 <= i < c.ranges =>
          var col := Column(c, counters, l, i);
          counters[l][p][i] - col[ChoosePort(col)])))
  }

  /** Aged hotness of the ranges plus what was counted since. */
  function Heated(c: Config, hotness: seq<real>, counters: Counters): (h: seq<real>)
    requires ValidConfig(c) && CountersShape(c, counters) && |hotness| == c.ranges
    ensures |h| == c.ranges
  {
    var decay := c.alwaysAttenuate || SumReals(hotness) > c.pifoCap / 1480.0;
    seq(c.ranges, i requires 0 <= i < c.ranges =>
      (if decay then hotness[i] * 0.5 else hotness[i]) + RangeTotal(c, counters, i, c.balancers) as real)
  }

  /** The hotness is uneven enough to move borders. */
  predicate Uneven(hotness: seq<real>)
    requires hotness != []
  {
    var mean := SumReals(hotness) / |hotness| as real;
    var most := hotness[ArgMax(hotness)];
    var least := hotness[ArgMin(hotness)];
    (most > 100.0 && most > 2.0 * mean) || least < 0.5 * mean
  }

  /** The lower one of the two adjacent ranges to merge: the coldest and its colder neighbour. */
  function MergeStart(hotness: seq<real>): (a: nat)
    requires |hotness| >= 2
    ensures a + 1 < |hotness|
  {
    var k := ArgMin(hotness);
    if k == 0 then 0
    else if k == |hotness| - 1 || hotness[k - 1] <= hotness[k + 1] then k - 1
    else k
  }

  function Merge(borders: seq<real>, hotness: seq<real>, a: nat): (r: (seq<real>, seq<real>))
    requires |borders| == |hotness| + 1 && a + 1 < |hotness|
    ensures |r.0| == |borders| - 1 && |r.1| == |hotness| - 1
  {
    (borders[..a + 1] + borders[a + 2..],
     hotness[..a] + [hotness[a] + hotness[a + 1]] + hotness[a + 2..])
  }

  function Split(borders: seq<real>, hotness: seq<real>, b: nat): (r: (seq<real>, seq<real>))
    requires |borders| == |hotness| + 1 && b < |hotness|
    ensures |r.0| == |borders| + 1 && |r.1| == |hotness| + 1
  {
    var mid := (borders[b] + borders[b + 1]) / 2.0;
    (borders[..b + 1] + [mid] + borders[b + 1..],
     hotness[..b] + [hotness[b] / 2.0, hotness[b] / 2.0] + hotness[b + 1..])
  }

  /** Merge the coldest range into a neighbour and halve the hottest one. */
  function Rebalance(borders: seq<real>, hotness: seq<real>): (r: (seq<real>, seq<real>))
    requires |borders| == |hotness| + 1 && |hotness| >= 2
    ensures |r.0| == |borders| && |r.1| == |hotness|
  {
    var (bs, hs) := Merge(borders, hotness, MergeStart(hotness));
    Split(bs, hs, ArgMax(hs))
  }

  /** The counters have been read into the hotness. */
  function Warmed(c: Config, s: State): (t: State)
    requires ValidConfig(c) && Shape(c, s)
    ensures Shape(c, t)
  {
    s.(counters := Lowered(c, s.counters), hotness := Heated(c, s.hotness, s.counters))
  }

  /** The borders have been moved if the hotness asks for it. */
  function Rearranged(c: Config, s: State): (t: State)
    requires ValidConfig(c) && Shape(c, s) && c.ranges >= 2
    ensures Shape(c, t)
  {
    if SumReals(s.hotness) == 0.0 || !Uneven(s.hotness) then s else
      var (bs, hs) := Rebalance(s.borders, s.hotness);
      s.(borders := bs, hotness := hs)
  }

  function Adjust(c: Config, s: State): (t: State)
    requires ValidConfig(c) && Shape(c, s)
    ensures Shape(c, t)
  {
    if c.ranges < 2 then s else Rearranged(c, Warmed(c, s))
  }

  // ----- Departure -----

  /** Move up to n items from the FIFO into the PIFO. */
  function Load(q: Port, n: nat): (r: Port)
    decreases n
  {
    if n == 0 || q.fifo == [] then q else Load(LoadOne(q), n - 1)
  }

  /** Move one item from the FIFO into the PIFO. */
  function LoadOne(q: Port): Port
    requires q.fifo != []
  {
    var x := q.fifo[0];
    Port(q.fifo[1..], Insert(q.pifo, x), q.fifoBytes - x.pkt.length, q.pifoBytes + x.pkt.length)
  }

  /** Drop the worst items of the PIFO until it is within its cap; the dropped ones, worst first. */
  function Shed(q: Port, cap: real): (r: (Port, seq<Item>))
    decreases |q.pifo|
  {
    if q.pifoBytes as real <= cap || q.pifo == [] then (q, []) else
      var n := |q.pifo| - 1;
      var x := q.pifo[n];
      var (r, dropped) := Shed(q.(pifo := q.pifo[..n], pifoBytes := q.pifoBytes - x.pkt.length), cap);
      (r, [x] + dropped)
  }

  function Refill(c: Config, q: Port): (r: (Port, seq<Item>))
    requires ValidConfig(c)
  {
    Shed(Load(q, c.batch), c.pifoCap)
  }

  function PopFront(q: Port): Port
    requires q.pifo != []
  {
    q.(pifo := q.pifo[1..], pifoBytes := q.pifoBytes - q.pifo[0].pkt.length)
  }

  function DelayOf(delay: map<Item, nat>, x: Item): nat {
    if x in delay then delay[x] else 0
  }

  function EvictionEvents(delay: map<Item, nat>, p: nat, dropped: seq<Item>): (ev: seq<Event>)
    ensures |ev| == |dropped|
  {
    seq(|dropped|, k requires 0 <= k < |dropped| => Evicted(p, dropped[k], DelayOf(delay, dropped[k])))
  }

  /** The delays of the items of a list; those of rank below r have been charged one more. */
  function Charged(delay: map<Item, nat>, items: seq<Item>, charge: bool, r: real): map<Item, nat> {
    map y | y in items :: DelayOf(delay, y) + (if charge && y.rank < r then 1 else 0)
  }

  /** Take x out of the shadow list and, in delay mode, charge the items it overtook. */
  function Depart(c: Config, s: State, p: nat, x: Item): (r: (State, Event)) {
    var shadow := Remove(s.shadow, x);
    (s.(shadow := shadow, delay := Charged(s.delay, shadow, c.withDelay, x.rank)),
     Returned(p, x, BisectLeft(s.shadow, x), CountBelow(shadow, x.rank), DelayOf(s.delay, x)))
  }

  /** Take evicted items out of the shadow list. */
  function Forget(s: State, dropped: seq<Item>): (t: State) {
    s.(shadow := RemoveAll(s.shadow, dropped))
  }

  /** The visited port becomes q, having evicted some items and given up x. */
  function Serve(c: Config, s: State, q: Port, dropped: seq<Item>, x: Item): (r: (State, seq<Event>))
    requires ValidConfig(c) && Shape(c, s)
    ensures Shape(c, r.0)
  {
    var p := s.port;
    var s1 := Forget(s, dropped).(port := Next(p, c.pifos), ports := s.ports[p := q]);
    var (t, e) := Depart(c, s1, p, x);
    (t, EvictionEvents(s.delay, p, dropped) + [e])
  }

  function Dequeue(c: Config, s: State): (r: (State, seq<Event>))
    requires ValidConfig(c) && Shape(c, s)
    ensures Shape(c, r.0)
  {
    var p := s.port;
    var q := s.ports[p];
    if q.pifo != [] then
      var (q1, dropped) := Refill(c, PopFront(q));
      Serve(c, s, q1, dropped, q.pifo[0])
    else if q.fifo != [] then
      var (q1, dropped) := Refill(c, q);
      if q1.pifo != [] then
        Serve(c, s, PopFront(q1), dropped, q1.pifo[0])
      else
        (Forget(s, dropped).(port := Next(p, c.pifos), ports := s.ports[p := q1]),
         EvictionEvents(s.delay, p, dropped))
    else
      (s.(port := Next(p, c.pifos)), [Idle(p)])
  }

  predicate IsEmpty(s: State) {
    forall p :: 0 <= p < |s.ports| ==> s.ports[p].pifo == [] && s.ports[p].fifo == []
  }

  // ----- Runs -----

  datatype Op = Enq(item: Item) | Deq

  /** The items offered by a sequence of calls. */
  function Arrivals(ops: seq<Op>): seq<Item> {
    if ops == [] then [] else
      Arrivals(ops[..|ops| - 1]) + (if ops[|ops| - 1].Enq? then [ops[|ops| - 1].item] else [])
  }

  function Step(c: Config, s: State, op: Op): (r: (State, seq<Event>))
    requires ValidConfig(c) && Shape(c, s)
    ensures Shape(c, r.0)
  {
    match op
    case Enq(x) => Enqueue(c, s, x)
    case Deq => Dequeue(c, s)
  }

  /** The state and the log after the operations ops on a fresh scheduler. */
  function Run(c: Config, ops: seq<Op>): (r: (State, seq<Event>))
    requires ValidConfig(c)
    ensures Shape(c, r.0)
  {
    if ops == [] then (Initial(c), []) else
      var (s, log) := Run(c, ops[..|ops| - 1]);
      var (t, ev) := Step(c, s, ops[|ops| - 1]);
      (t, log + ev)
  }
}
