/** When ranges are adjusted, and how. */
module ScaleUpAdjust {
  import opened Elements
  import opened ScaleUpModel
  import opened ScaleUpRoundRobin

  // ----- Which borders move -----

  /** Range k is the first of the coldest ones. */
  ghost predicate Coldest(h: seq<real>, k: nat) {
    k < |h| && (forall j :: 0 <= j < |h| ==> h[k] <= h[j]) && forall j :: 0 <= j < k ==> h[k] < h[j]
  }

  /** Range k is the first of the hottest ones. */
  ghost predicate Hottest(h: seq<real>, k: nat) {
    k < |h| && (forall j :: 0 <= j < |h| ==> h[j] <= h[k]) && forall j :: 0 <= j < k ==> h[j] < h[k]
  }

  /** Of the one or two ranges beside k, j is the colder one, the left one when they are as cold. */
  ghost predicate ColderNeighbour(h: seq<real>, k: nat, j: nat) {
    && j < |h| && (j + 1 == k || j == k + 1)
    && (j + 1 == k && k + 1 < |h| ==> h[j] <= h[k + 1])
    && (j == k + 1 && k > 0 ==> h[j] < h[k - 1])
  }

  /** The coldest range k and its colder neighbour j become one range, and the border between them goes; of the
      ranges that leaves, the hottest one, m, is halved, and its middle becomes a border. */
  lemma RebalanceIs(b: seq<real>, h: seq<real>) returns (k: nat, j: nat, m: nat)
    requires |b| == |h| + 1 && |h| >= 2
    ensures Coldest(h, k) && ColderNeighbour(h, k, j)
    ensures var low, high := if j < k then j else k, if j < k then k else j;
      var b1, h1 := b[..high] + b[high + 1..], h[..low] + [h[k] + h[j]] + h[high + 1..];
      && Hottest(h1, m)
      && Rebalance(b, h).0 == b1[..m + 1] + [(b1[m] + b1[m + 1]) / 2.0] + b1[m + 1..]
      && Rebalance(b, h).1 == h1[..m] + [h1[m] / 2.0, h1[m] / 2.0] + h1[m + 1..]
  {
    hide MergeStart, ArgMin, ArgMax, Split;
    k, j := MergedPair(h);
    var a := MergeStart(h);
    var b1, h1 := Merge(b, h, a).0, Merge(b, h, a).1;
    m := ArgMax(h1);
    SplitIs(b1, h1, m);
    MergeIs(b, h, k, j);
  }

  lemma MergedPair(h: seq<real>) returns (k: nat, j: nat)
    requires |h| >= 2
    ensures Coldest(h, k) && ColderNeighbour(h, k, j)
    ensures MergeStart(h) == if j < k then j else k
  {
    k := ArgMin(h);
    j := if MergeStart(h) == k then k + 1 else k - 1;
  }

  lemma MergeIs(b: seq<real>, h: seq<real>, k: nat, j: nat)
    requires |b| == |h| + 1 && |h| >= 2 && k < |h| && j < |h| && (j + 1 == k || j == k + 1)
    ensures var low, high := if j < k then j else k, if j < k then k else j;
      Merge(b, h, low) == (b[..high] + b[high + 1..], h[..low] + [h[k] + h[j]] + h[high + 1..])
  {
  }

  lemma SplitIs(b: seq<real>, h: seq<real>, m: nat)
    requires |b| == |h| + 1 && m < |h|
    ensures Split(b, h, m) ==
      (b[..m + 1] + [(b[m] + b[m + 1]) / 2.0] + b[m + 1..], h[..m] + [h[m] / 2.0, h[m] / 2.0] + h[m + 1..])
  {
  }

  /** An adjustment of two or more ranges takes the least counter of each balancer and range off its counters.  The
      hotness h of each range grows by what the counters were, after it was halved if there was too much of it in all.
      Borders move exactly if some range is hot and the hottest one has more than 100 and more than twice the mean,
      or the coldest one has less than half the mean. */
  lemma AdjustIs(c: Config, s: State) returns (h: seq<real>, k: nat, j: nat, m: nat, most: nat)
    requires ValidConfig(c) && Shape(c, s) && c.ranges >= 2
    ensures var t := Adjust(c, s);
      && t == s.(borders := t.borders, hotness := t.hotness, counters := t.counters)
      && (forall l, i :: 0 <= l < c.balancers && 0 <= i < c.ranges ==>
        TakenOff(Column(c, s.counters, l, i), Column(c, t.counters, l, i)))
    ensures |h| == c.ranges
    ensures var halved := c.alwaysAttenuate || SumReals(s.hotness) > c.pifoCap / 1480.0;
      forall i :: 0 <= i < c.ranges ==>
        h[i] == (if halved then s.hotness[i] / 2.0 else s.hotness[i]) +
                RangeTotal(c, s.counters, i, c.balancers) as real
    ensures Hottest(h, most) && Coldest(h, k) && ColderNeighbour(h, k, j)
    ensures var t, mean := Adjust(c, s), SumReals(h) / c.ranges as real;
      if SumReals(h) != 0.0 && ((h[most] > 100.0 && h[most] > 2.0 * mean) || h[k] < mean / 2.0) then
        var low, high := if j < k then j else k, if j < k then k else j;
        var b1, h1 := s.borders[..high] + s.borders[high + 1..], h[..low] + [h[k] + h[j]] + h[high + 1..];
        && Hottest(h1, m)
        && t.borders == b1[..m + 1] + [(b1[m] + b1[m + 1]) / 2.0] + b1[m + 1..]
        && t.hotness == h1[..m] + [h1[m] / 2.0, h1[m] / 2.0] + h1[m + 1..]
      else
        t.borders == s.borders && t.hotness == h
  {
    hide MergeStart, ArgMin, ArgMax, Merge, Split, RangeTotal, SumReals, Rebalance;
    h := Heated(c, s.hotness, s.counters);
    k, j, m := RebalanceIs(s.borders, h);
    most := ArgMax(h);
    UnevenIs(h, k, most);
    LoweredColumns(c, s.counters);
  }

  lemma UnevenIs(h: seq<real>, k: nat, most: nat)
    requires Coldest(h, k) && Hottest(h, most)
    ensures var mean := SumReals(h) / |h| as real;
      Uneven(h) <==> (h[most] > 100.0 && h[most] > 2.0 * mean) || h[k] < mean / 2.0
  {
    hide SumReals, ArgMin, ArgMax;
  }

  /** low is col less its least entry. */
  ghost predicate TakenOff(col: seq<int>, low: seq<int>) {
    && |low| == |col|
    && (exists p :: 0 <= p < |low| && low[p] == 0)
    && (forall p :: 0 <= p < |low| ==> low[p] >= 0)
    && forall p, q :: 0 <= p < |low| && 0 <= q < |low| ==> low[p] - low[q] == col[p] - col[q]
  }

  lemma LoweredColumns(c: Config, counters: Counters)
    requires ValidConfig(c) && CountersShape(c, counters)
    ensures forall l, i :: 0 <= l < c.balancers && 0 <= i < c.ranges ==>
      TakenOff(Column(c, counters, l, i), Column(c, Lowered(c, counters), l, i))
  {
    forall l, i | 0 <= l < c.balancers && 0 <= i < c.ranges
      ensures TakenOff(Column(c, counters, l, i), Column(c, Lowered(c, counters), l, i))
    {
      var col, low := Column(c, counters, l, i), Column(c, Lowered(c, counters), l, i);
      assert low[ChoosePort(col)] == 0;
    }
  }

  /** A single range is never adjusted. */
  lemma OneRangeStays(c: Config, s: State)
    requires ValidConfig(c) && Shape(c, s) && c.ranges == 1
    ensures Adjust(c, s) == s
  {
  }

  // ----- What the counters say -----

  /** How many packets have been accepted. */
  function AcceptedCount(log: seq<Event>): nat {
    if log == [] then 0 else AcceptedCount(log[..|log| - 1]) + if log[|log| - 1].Accepted? then 1 else 0
  }

  lemma OneMoreEvent(log: seq<Event>, e: Event)
    ensures AcceptedCount(log + [e]) == AcceptedCount(log) + if e.Accepted? then 1 else 0
  {
    assert (log + [e])[..|log + [e]| - 1] == log;
  }

  /** The log up to the last adjustment, which comes after each period of accepted packets. */
  ghost function UntilAdjust(c: Config, log: seq<Event>): seq<Event>
    requires c.period > 0
  {
    if log == [] || (log[|log| - 1].Accepted? && AcceptedCount(log) % c.period == 0) then log
    else UntilAdjust(c, log[..|log| - 1])
  }

  /** The packets of balancer l and range i accepted since the last adjustment, and those by which round robin
      had then gone beyond the first PIFO. */
  ghost function Recent(c: Config, log: seq<Event>, l: nat, i: nat): int
    requires c.period > 0 && c.pifos > 0
  {
    var before := UntilAdjust(c, log);
    Pointer(c, before, l, i) + Tally(log, HitRange(l, i)) - Tally(before, HitRange(l, i))
  }

  ghost predicate CountsInv(c: Config, s: State, log: seq<Event>)
    requires ValidConfig(c) && Shape(c, s)
  {
    && s.adjusts == AcceptedCount(log)
    && (c.ranges >= 2 ==> forall l, i :: 0 <= l < c.balancers && 0 <= i < c.ranges ==>
      SumInts(Column(c, s.counters, l, i)) == Recent(c, log, l, i))
  }

  lemma {:induction false} SumOfStairs(col: seq<int>, t: int)
    requires 0 <= t && forall p :: 0 <= p < |col| ==> col[p] == if p < t then 1 else 0
    ensures SumInts(col) == if t < |col| then t else |col|
  {
    if col != [] {
      SumOfStairs(col[..|col| - 1], t);
    }
  }

  lemma {:induction false} SumBumped(col: seq<int>, p: nat)
    requires p < |col|
    ensures SumInts(col[p := col[p] + 1]) == SumInts(col) + 1
  {
    var n := |col| - 1;
    if p < n {
      assert col[p := col[p] + 1][..n] == col[..n][p := col[p] + 1];
      SumBumped(col[..n], p);
    } else {
      assert col[p := col[p] + 1][..n] == col[..n];
    }
  }

  lemma {:induction false} QuietAdjust(c: Config, log: seq<Event>, ev: seq<Event>)
    requires c.period > 0 && c.pifos > 0 && forall e :: e in ev ==> !e.Accepted?
    ensures UntilAdjust(c, log + ev) == UntilAdjust(c, log) && AcceptedCount(log + ev) == AcceptedCount(log)
    ensures forall l, i :: Tally(log + ev, HitRange(l, i)) == Tally(log, HitRange(l, i))
  {
    if ev == [] {
      assert log + ev == log;
    } else {
      var n := |ev| - 1;
      assert (log + ev)[..|log + ev| - 1] == log + ev[..n];
      QuietAdjust(c, log, ev[..n]);
      assert ev[n] in ev;
    }
  }

  lemma QuietCounts(c: Config, s: State, log: seq<Event>, t: State, ev: seq<Event>)
    requires ValidConfig(c) && Shape(c, s) && Shape(c, t) && CountsInv(c, s, log)
    requires t.counters == s.counters && t.adjusts == s.adjusts && forall e :: e in ev ==> !e.Accepted?
    ensures CountsInv(c, t, log + ev)
  {
    hide Tally, SumInts, UntilAdjust;
    QuietAdjust(c, log, ev);
    forall l, i | 0 <= l < c.balancers && 0 <= i < c.ranges
      ensures Recent(c, log + ev, l, i) == Recent(c, log, l, i)
    {
      assert Tally(log + ev, HitRange(l, i)) == Tally(log, HitRange(l, i));
    }
  }

  /** A column just lowered adds up to where round robin stands. */
  lemma LoweredSum(col: seq<int>, low: seq<int>, t: int)
    requires Stair(low, t) && TakenOff(col, low)
    ensures SumInts(low) == t
  {
    var p :| 0 <= p < |low| && low[p] == 0;
    assert low[|low| - 1] == 0;
    SumOfStairs(low, t);
  }

  lemma CountedStep(c: Config, s: State)
    requires ValidConfig(c) && Shape(c, s)
    ensures var t := Counted(c, s);
      t == s.(adjusts := s.adjusts + 1, borders := t.borders, hotness := t.hotness,
        counters := if c.ranges >= 2 && (s.adjusts + 1) % c.period == 0 then Lowered(c, s.counters) else s.counters)
  {
    hide Lowered, Heated, Rebalance, Uneven, SumReals;
  }

  lemma AcceptCounts(c: Config, s: State, log: seq<Event>, l: nat, i: nat, x: Item)
    requires ValidConfig(c) && Shape(c, s) && CountsInv(c, s, log) && RoundRobinInv(c, s, log)
    requires l < c.balancers && i < c.ranges
    ensures var p := ChoosePort(Column(c, s.counters, l, i));
      CountsInv(c, Counted(c, Admit(c, s, l, i, p, x)), log + [Accepted(l, i, p, x)])
  {
    hide Tally, SumInts, RoundRobinInv, Counted, Recent, Bump;
    var p := ChoosePort(Column(c, s.counters, l, i));
    var s1, e := Admit(c, s, l, i, p, x), Accepted(l, i, p, x);
    var t, log1 := Counted(c, s1), log + [e];
    OneMoreEvent(log, e);
    CountedStep(c, s1);
    if c.ranges >= 2 {
      forall l', i' | 0 <= l' < c.balancers && 0 <= i' < c.ranges
        ensures SumInts(Column(c, t.counters, l', i')) == Recent(c, log1, l', i')
      {
        AcceptCount(c, s, log, l, i, x, l', i');
      }
    }
  }

  lemma AcceptCount(c: Config, s: State, log: seq<Event>, l: nat, i: nat, x: Item, l': nat, i': nat)
    requires ValidConfig(c) && Shape(c, s) && CountsInv(c, s, log) && RoundRobinInv(c, s, log) && c.ranges >= 2
    requires l < c.balancers && i < c.ranges && l' < c.balancers && i' < c.ranges
    ensures var p := ChoosePort(Column(c, s.counters, l, i));
      SumInts(Column(c, Counted(c, Admit(c, s, l, i, p, x)).counters, l', i'))
        == Recent(c, log + [Accepted(l, i, p, x)], l', i')
  {
    hide Tally, SumInts, RoundRobinInv, Lowered, Counted, Pointer, Bump, ChoosePort, UntilAdjust;
    var p := ChoosePort(Column(c, s.counters, l, i));
    var s1, e := Admit(c, s, l, i, p, x), Accepted(l, i, p, x);
    OneMoreEvent(log, e);
    UntilNext(c, log, e);
    CountedStep(c, s1);
    if (s1.adjusts + 1) % c.period == 0 {
      AdmitKeeps(c, s, log, l, i, x);
      FullCount(c, s1, log + [e], l', i');
    } else {
      TallyOne(log, e, HitRange(l', i'));
      BumpedColumn(c, s.counters, l, p, i, l', i');
      SumBumped(Column(c, s.counters, l, i), p);
    }
  }

  lemma UntilNext(c: Config, log: seq<Event>, e: Event)
    requires c.period > 0 && e.Accepted?
    ensures UntilAdjust(c, log + [e]) ==
      if (AcceptedCount(log) + 1) % c.period == 0 then log + [e] else UntilAdjust(c, log)
  {
    OneMoreEvent(log, e);
    assert (log + [e])[..|log + [e]| - 1] == log;
  }

  /** Right after an adjustment a column adds up to where round robin stands. */
  lemma FullCount(c: Config, s: State, log: seq<Event>, l: nat, i: nat)
    requires ValidConfig(c) && Shape(c, s) && RoundRobinInv(c, s, log) && c.ranges >= 2
    requires l < c.balancers && i < c.ranges && (s.adjusts + 1) % c.period == 0
    ensures SumInts(Column(c, Counted(c, s).counters, l, i)) == Pointer(c, log, l, i)
  {
    hide Tally, SumInts, Counted, Pointer, Lowered, FollowsPointer, EvenDrops, InBounds;
    var t := Counted(c, s);
    CountedKeeps(c, s, log);
    CountedStep(c, s);
    LoweredColumns(c, s.counters);
    StairIn(c, t, log, l, i);
    LoweredSum(Column(c, s.counters, l, i), Column(c, t.counters, l, i), Pointer(c, log, l, i));
  }

  lemma StepCounts(c: Config, s: State, log: seq<Event>, op: Op)
    requires ValidConfig(c) && Shape(c, s) && CountsInv(c, s, log) && RoundRobinInv(c, s, log)
    ensures var (t, ev) := Step(c, s, op); CountsInv(c, t, log + ev)
  {
    hide CountsInv, RoundRobinInv, Dequeue, Counted, Admit;
    match op
    case Deq =>
      DequeueIsQuiet(c, s);
      DequeueCountsNothing(c, s);
      QuietCounts(c, s, log, Dequeue(c, s).0, Dequeue(c, s).1);
    case Enq(x) =>
      var i, borders := Locate(s.borders, x.rank).0, Locate(s.borders, x.rank).1;
      var l, s1 := s.balancer, s.(borders := borders, balancer := Next(s.balancer, c.balancers));
      QuietCounts(c, s, log, s1, []);
      QuietKeeps(c, s, log, s1, []);
      assert log + [] == log;
      var p := ChoosePort(Column(c, s1.counters, l, i));
      if (s1.ports[p].fifoBytes + x.pkt.length) as real < c.fifoLimit {
        AcceptCounts(c, s1, log, l, i, x);
      } else {
        QuietCounts(c, s1, log, s1, [Rejected(l, i, p, x)]);
      }
  }

  lemma DequeueCountsNothing(c: Config, s: State)
    requires ValidConfig(c) && Shape(c, s)
    ensures Dequeue(c, s).0.adjusts == s.adjusts
  {
    hide Refill, Remove, RemoveAll, Charged;
  }

  lemma InitialCounts(c: Config)
    requires ValidConfig(c)
    ensures CountsInv(c, Initial(c), [])
  {
    hide SumInts;
    forall l, i | 0 <= l < c.balancers && 0 <= i < c.ranges
      ensures SumInts(Column(c, Initial(c).counters, l, i)) == Recent(c, [], l, i)
    {
      SumOfStairs(Column(c, Initial(c).counters, l, i), i % c.pifos);
    }
  }

  lemma {:induction false} RunKeepsCounts(c: Config, ops: seq<Op>)
    requires ValidConfig(c)
    ensures CountsInv(c, Run(c, ops).0, Run(c, ops).1)
  {
    hide CountsInv, Step;
    if ops == [] {
      InitialCounts(c);
    } else {
      var n := |ops| - 1;
      RunKeepsCounts(c, ops[..n]);
      RunKeepsRoundRobin(c, ops[..n]);
      StepCounts(c, Run(c, ops[..n]).0, Run(c, ops[..n]).1, ops[n]);
    }
  }

  /** The sum of Recent over the first n balancers. */
  ghost function RecentInRange(c: Config, log: seq<Event>, i: nat, n: nat): int
    requires c.period > 0 && c.pifos > 0
  {
    if n == 0 then 0 else RecentInRange(c, log, i, n - 1) + Recent(c, log, n - 1, i)
  }

  lemma {:induction false} RangeTotalIs(c: Config, s: State, log: seq<Event>, i: nat, n: nat)
    requires ValidConfig(c) && Shape(c, s) && CountsInv(c, s, log) && c.ranges >= 2
    requires i < c.ranges && n <= c.balancers
    ensures RangeTotal(c, s.counters, i, n) == RecentInRange(c, log, i, n)
  {
    hide SumInts, Recent;
    if n > 0 {
      RangeTotalIs(c, s, log, i, n - 1);
    }
  }

  /** In every run, what an adjustment would count for a range is the number of its packets accepted since the last
      one and, for each balancer, those by which round robin had then gone beyond the first PIFO. */
  lemma CountsSinceAdjust(c: Config, ops: seq<Op>, i: nat)
    requires ValidConfig(c) && c.ranges >= 2 && i < c.ranges
    ensures var (s, log) := Run(c, ops);
      && RangeTotal(c, s.counters, i, c.balancers) == RecentInRange(c, log, i, c.balancers)
      && s.adjusts == AcceptedCount(log)
  {
    RunKeepsCounts(c, ops);
    RangeTotalIs(c, Run(c, ops).0, Run(c, ops).1, i, c.balancers);
  }
}
