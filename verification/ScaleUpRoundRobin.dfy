/** Choosing the least counter is round robin. */
module ScaleUpRoundRobin {
  import opened Elements
  import opened ScaleUpModel

  /* For each load balancer and range the counters always form a staircase, so the
     first least counter is a pointer that starts at the range's index and moves on by
     one with every accepted packet.  Neither rejected packets nor departures nor
     range adjustments move it.  Hence the load of the PIFOs is balanced. */

  /** The sum of f over a log. */
  function Tally(log: seq<Event>, f: Event -> int): int {
    if log == [] then 0 else Tally(log[..|log| - 1], f) + f(log[|log| - 1])
  }

  lemma {:induction false} TallyAppend(a: seq<Event>, b: seq<Event>, f: Event -> int)
    ensures Tally(a + b, f) == Tally(a, f) + Tally(b, f)
  {
    if b == [] {
      assert a + b == a;
    } else {
      assert (a + b)[..|a + b| - 1] == a + b[..|b| - 1];
      TallyAppend(a, b[..|b| - 1], f);
    }
  }

  lemma {:induction false} TallyZero(log: seq<Event>, f: Event -> int)
    requires forall e :: e in log ==> f(e) == 0
    ensures Tally(log, f) == 0
  {
    if log != [] {
      TallyZero(log[..|log| - 1], f);
    }
  }

  /** One for a packet of range i that balancer l put on port p. */
  function Hit(l: nat, i: nat, p: nat): Event -> int {
    (e: Event) => if e.Accepted? && e.balancer == l && e.range == i && e.port == p then 1 else 0
  }

  /** One for a packet of range i that balancer l put on some port. */
  function HitRange(l: nat, i: nat): Event -> int {
    (e: Event) => if e.Accepted? && e.balancer == l && e.range == i then 1 else 0
  }

  /** One for a packet of a range below r on port p. */
  function HitBelow(p: nat, r: nat): Event -> int {
    (e: Event) => if e.Accepted? && e.range < r && e.port == p then 1 else 0
  }

  /** One for a packet accepted on port p. */
  function HitPort(p: nat): Event -> int {
    (e: Event) => if e.Accepted? && e.port == p then 1 else 0
  }

  // ----- Staircases -----

  /** The first t counters are one above the others. */
  ghost predicate Stair(col: seq<int>, t: int) {
    && 0 <= t < |col|
    && forall p :: 0 <= p < |col| ==> col[p] == col[|col| - 1] + (if p < t then 1 else 0)
  }

  lemma StairChoice(col: seq<int>, t: int)
    requires Stair(col, t)
    ensures ChoosePort(col) == t
  {
    var b := ChoosePort(col);
    assert col[t] == col[|col| - 1];
    if t < b {
      assert false;
    }
  }

  lemma StairBump(col: seq<int>, t: int)
    requires Stair(col, t)
    ensures Stair(col[t := col[t] + 1], (t + 1) % |col|)
  {
    if t + 1 == |col| {
      assert (t + 1) % |col| == 0;
    } else {
      assert (t + 1) % |col| == t + 1;
    }
  }

  lemma StairLowered(col: seq<int>, t: int, low: seq<int>, d: int)
    requires Stair(col, t) && |low| == |col|
    requires forall p :: 0 <= p < |col| ==> low[p] == col[p] - d
    ensures Stair(low, t)
  {
  }

  lemma ModStep(x: int, k: int)
    requires k > 0
    ensures (x + 1) % k == (x % k + 1) % k
  {
    var q, m := x / k, x % k;
    assert x == q * k + m;
    if m + 1 < k {
      ModUnique(x + 1, q, m + 1, k);
      ModUnique(m + 1, 0, m + 1, k);
    } else {
      assert (q + 1) * k == q * k + k;
      ModUnique(x + 1, q + 1, 0, k);
      ModUnique(m + 1, 1, 0, k);
    }
  }

  lemma ModUnique(x: int, q: int, m: int, k: int)
    requires k > 0 && 0 <= m < k && x == q * k + m
    ensures x % k == m
  {
    var q2, m2 := x / k, x % k;
    assert x == q2 * k + m2;
    if q2 > q {
      assert (q2 - q) * k == q2 * k - q * k;
      MulAtLeast(q2 - q, k);
    } else if q2 < q {
      assert (q - q2) * k == q * k - q2 * k;
      MulAtLeast(q - q2, k);
    }
  }

  lemma {:induction false} MulAtLeast(a: int, k: int)
    requires a >= 1 && k >= 1
    ensures a * k >= k
  {
    if a > 1 {
      MulAtLeast(a - 1, k);
      assert a * k == (a - 1) * k + k;
    }
  }

  // ----- The invariant -----

  /** Where round robin stands for balancer l and range i after a log. */
  ghost function Pointer(c: Config, log: seq<Event>, l: nat, i: nat): int
    requires c.pifos >= 1
  {
    (i + Tally(log, HitRange(l, i))) % c.pifos
  }

  ghost predicate InBounds(c: Config, log: seq<Event>) {
    forall e :: e in log && e.Accepted? ==> e.balancer < c.balancers && e.range < c.ranges && e.port < c.pifos
  }

  ghost predicate FollowsPointer(c: Config, log: seq<Event>)
    requires c.pifos >= 1
  {
    forall k :: 0 <= k < |log| && log[k].Accepted? ==>
      log[k].port == Pointer(c, log[..k], log[k].balancer, log[k].range)
  }

  ghost predicate Staircases(c: Config, s: State, log: seq<Event>)
    requires ValidConfig(c) && Shape(c, s)
  {
    forall l, i :: 0 <= l < c.balancers && 0 <= i < c.ranges ==>
      Stair(Column(c, s.counters, l, i), Pointer(c, log, l, i))
  }

  /** How far a counter has been lowered since the start. */
  ghost function Drop(c: Config, s: State, log: seq<Event>, l: nat, p: nat, i: nat): int
    requires ValidConfig(c) && Shape(c, s) && l < c.balancers && p < c.pifos && i < c.ranges
  {
    Tally(log, Hit(l, i, p)) + InitialCount(c, p, i) - s.counters[l][p][i]
  }

  /** The counters of a column have been lowered by the same amount. */
  ghost predicate EvenDrops(c: Config, s: State, log: seq<Event>)
    requires ValidConfig(c) && Shape(c, s)
  {
    forall l, p, i :: 0 <= l < c.balancers && 0 <= p < c.pifos && 0 <= i < c.ranges ==>
      Drop(c, s, log, l, p, i) == Drop(c, s, log, l, c.pifos - 1, i)
  }

  ghost predicate RoundRobinInv(c: Config, s: State, log: seq<Event>)
    requires ValidConfig(c) && Shape(c, s)
  {
    InBounds(c, log) && FollowsPointer(c, log) && Staircases(c, s, log) && EvenDrops(c, s, log)
  }

  lemma InitialRoundRobin(c: Config)
    requires ValidConfig(c)
    ensures RoundRobinInv(c, Initial(c), [])
  {
    var s := Initial(c);
    forall l, i | 0 <= l < c.balancers && 0 <= i < c.ranges
      ensures Stair(Column(c, s.counters, l, i), Pointer(c, [], l, i))
    {
      assert i + 0 == i;
    }
  }

  /** Events other than acceptances, and states that keep the counters, keep the invariant. */
  lemma QuietKeeps(c: Config, s: State, log: seq<Event>, t: State, ev: seq<Event>)
    requires ValidConfig(c) && Shape(c, s) && Shape(c, t) && RoundRobinInv(c, s, log)
    requires t.counters == s.counters
    requires forall e :: e in ev ==> !e.Accepted?
    ensures RoundRobinInv(c, t, log + ev)
  {
    forall l: nat, i: nat
      ensures Tally(log + ev, HitRange(l, i)) == Tally(log, HitRange(l, i))
    {
      TallyAppend(log, ev, HitRange(l, i));
      TallyZero(ev, HitRange(l, i));
    }
    forall l: nat, p: nat, i: nat
      ensures Tally(log + ev, Hit(l, i, p)) == Tally(log, Hit(l, i, p))
    {
      TallyAppend(log, ev, Hit(l, i, p));
      TallyZero(ev, Hit(l, i, p));
    }
    AppendFollows(c, log, ev);
    assert Staircases(c, t, log + ev) by {
      forall l, i | 0 <= l < c.balancers && 0 <= i < c.ranges
        ensures Stair(Column(c, t.counters, l, i), Pointer(c, log + ev, l, i))
      {
        assert Stair(Column(c, s.counters, l, i), Pointer(c, log, l, i));
        assert Pointer(c, log + ev, l, i) == Pointer(c, log, l, i);
      }
    }
    assert EvenDrops(c, t, log + ev) by {
      forall l, p, i | 0 <= l < c.balancers && 0 <= p < c.pifos && 0 <= i < c.ranges
        ensures Drop(c, t, log + ev, l, p, i) == Drop(c, t, log + ev, l, c.pifos - 1, i)
      {
        assert Drop(c, s, log, l, p, i) == Drop(c, s, log, l, c.pifos - 1, i);
      }
    }
  }

  lemma AppendFollows(c: Config, log: seq<Event>, ev: seq<Event>)
    requires c.pifos >= 1 && FollowsPointer(c, log)
    requires forall k :: 0 <= k < |ev| && ev[k].Accepted? ==>
      ev[k].port == Pointer(c, log + ev[..k], ev[k].balancer, ev[k].range)
    ensures FollowsPointer(c, log + ev)
  {
    var all := log + ev;
    forall k | 0 <= k < |all| && all[k].Accepted?
      ensures all[k].port == Pointer(c, all[..k], all[k].balancer, all[k].range)
    {
      if k < |log| {
        assert all[..k] == log[..k];
      } else {
        assert all[..k] == log + ev[..k - |log|];
        assert all[k] == ev[k - |log|];
      }
    }
  }

  /** An accepted packet goes where the pointer stands and moves it by one. */
  lemma AdmitKeeps(c: Config, s: State, log: seq<Event>, l: nat, i: nat, x: Item)
    requires ValidConfig(c) && Shape(c, s) && RoundRobinInv(c, s, log)
    requires l < c.balancers && i < c.ranges
    ensures var p := ChoosePort(Column(c, s.counters, l, i));
      RoundRobinInv(c, Admit(c, s, l, i, p, x), log + [Accepted(l, i, p, x)])
  {
    var p := ChoosePort(Column(c, s.counters, l, i));
    FollowsAfterAdmit(c, s, log, l, i, x);
    StairsAfterAdmit(c, s, log, l, i, x);
    DropsAfterAdmit(c, s, log, l, i, x);
    assert InBounds(c, log + [Accepted(l, i, p, x)]);
  }

  lemma FollowsAfterAdmit(c: Config, s: State, log: seq<Event>, l: nat, i: nat, x: Item)
    requires ValidConfig(c) && Shape(c, s) && Staircases(c, s, log) && FollowsPointer(c, log)
    requires l < c.balancers && i < c.ranges
    ensures FollowsPointer(c, log + [Accepted(l, i, ChoosePort(Column(c, s.counters, l, i)), x)])
  {
    var col := Column(c, s.counters, l, i);
    StairChoice(col, Pointer(c, log, l, i));
    var e := Accepted(l, i, ChoosePort(col), x);
    assert log + [e][..0] == log;
    AppendFollows(c, log, [e]);
  }

  lemma StairsAfterAdmit(c: Config, s: State, log: seq<Event>, l: nat, i: nat, x: Item)
    requires ValidConfig(c) && Shape(c, s) && Staircases(c, s, log)
    requires l < c.balancers && i < c.ranges
    ensures var p := ChoosePort(Column(c, s.counters, l, i));
      Staircases(c, Admit(c, s, l, i, p, x), log + [Accepted(l, i, p, x)])
  {
    var p := ChoosePort(Column(c, s.counters, l, i));
    var t := Admit(c, s, l, i, p, x);
    forall l', i' | 0 <= l' < c.balancers && 0 <= i' < c.ranges
      ensures Stair(Column(c, t.counters, l', i'), Pointer(c, log + [Accepted(l, i, p, x)], l', i'))
    {
      StairAfterAdmit(c, s, log, l, i, x, l', i');
    }
  }

  lemma DropsAfterAdmit(c: Config, s: State, log: seq<Event>, l: nat, i: nat, x: Item)
    requires ValidConfig(c) && Shape(c, s) && EvenDrops(c, s, log)
    requires l < c.balancers && i < c.ranges
    ensures var p := ChoosePort(Column(c, s.counters, l, i));
      EvenDrops(c, Admit(c, s, l, i, p, x), log + [Accepted(l, i, p, x)])
  {
    var p := ChoosePort(Column(c, s.counters, l, i));
    var e := Accepted(l, i, p, x);
    var t := Admit(c, s, l, i, p, x);
    forall l', p', i' | 0 <= l' < c.balancers && 0 <= p' < c.pifos && 0 <= i' < c.ranges
      ensures Drop(c, t, log + [e], l', p', i') == Drop(c, t, log + [e], l', c.pifos - 1, i')
    {
      DropAfterAdmit(c, s, log, l, i, x, l', p', i');
      DropAfterAdmit(c, s, log, l, i, x, l', c.pifos - 1, i');
      assert Drop(c, s, log, l', p', i') == Drop(c, s, log, l', c.pifos - 1, i');
    }
  }

  lemma StairAfterAdmit(c: Config, s: State, log: seq<Event>, l: nat, i: nat, x: Item, l': nat, i': nat)
    requires ValidConfig(c) && Shape(c, s) && Staircases(c, s, log)
    requires l < c.balancers && i < c.ranges && l' < c.balancers && i' < c.ranges
    ensures var p := ChoosePort(Column(c, s.counters, l, i));
      Stair(Column(c, Admit(c, s, l, i, p, x).counters, l', i'),
            Pointer(c, log + [Accepted(l, i, p, x)], l', i'))
  {
    StairIn(c, s, log, l', i');
    hide *;
    var col := Column(c, s.counters, l, i);
    var p := ChoosePort(col);
    PointerMoves(c, log, l, i, p, x, l', i');
    AdmitBumps(c, s, l, i, p, x);
    BumpedColumn(c, s.counters, l, p, i, l', i');
    if l' == l && i' == i {
      StairChoice(col, Pointer(c, log, l, i));
      StairBump(col, p);
    }
  }

  lemma StairIn(c: Config, s: State, log: seq<Event>, l: nat, i: nat)
    requires ValidConfig(c) && Shape(c, s) && Staircases(c, s, log) && l < c.balancers && i < c.ranges
    ensures Stair(Column(c, s.counters, l, i), Pointer(c, log, l, i))
  {
  }

  lemma AdmitBumps(c: Config, s: State, l: nat, i: nat, p: nat, x: Item)
    requires ValidConfig(c) && Shape(c, s) && l < c.balancers && i < c.ranges && p < c.pifos
    ensures Admit(c, s, l, i, p, x).counters == Bump(s.counters, l, p, i)
  {
  }

  /** A packet accepted for a balancer and range moves their pointer, and no other. */
  lemma PointerMoves(c: Config, log: seq<Event>, l: nat, i: nat, p: nat, x: Item, l': nat, i': nat)
    requires c.pifos > 0
    ensures Pointer(c, log + [Accepted(l, i, p, x)], l', i') ==
      if l' == l && i' == i then (Pointer(c, log, l, i) + 1) % c.pifos else Pointer(c, log, l', i')
  {
    hide Tally;
    TallyOne(log, Accepted(l, i, p, x), HitRange(l', i'));
    ModStep(i' + Tally(log, HitRange(l', i')), c.pifos);
  }

  lemma BumpedColumn(c: Config, counters: Counters, l: nat, p: nat, i: nat, l': nat, i': nat)
    requires CountersShape(c, counters) && l < c.balancers && i < c.ranges && p < c.pifos
    requires l' < c.balancers && i' < c.ranges
    ensures CountersShape(c, Bump(counters, l, p, i))
    ensures var col := Column(c, counters, l', i');
      Column(c, Bump(counters, l, p, i), l', i') == if l' == l && i' == i then col[p := col[p] + 1] else col
  {
  }

  lemma TallyOne(log: seq<Event>, e: Event, f: Event -> int)
    ensures Tally(log + [e], f) == Tally(log, f) + f(e)
  {
    assert (log + [e])[..|log + [e]| - 1] == log;
  }

  lemma DropAfterAdmit(c: Config, s: State, log: seq<Event>, l: nat, i: nat, x: Item, l': nat, p': nat, i': nat)
    requires ValidConfig(c) && Shape(c, s) && l < c.balancers && i < c.ranges
    requires l' < c.balancers && p' < c.pifos && i' < c.ranges
    ensures var p := ChoosePort(Column(c, s.counters, l, i));
      Drop(c, Admit(c, s, l, i, p, x), log + [Accepted(l, i, p, x)], l', p', i') == Drop(c, s, log, l', p', i')
  {
    var p := ChoosePort(Column(c, s.counters, l, i));
    TallyOne(log, Accepted(l, i, p, x), Hit(l', i', p'));
  }

  /** Lowering whole columns, and moving borders, keeps the pointers. */
  lemma AdjustKeeps(c: Config, s: State, log: seq<Event>)
    requires ValidConfig(c) && Shape(c, s) && RoundRobinInv(c, s, log)
    ensures RoundRobinInv(c, Adjust(c, s), log)
  {
    var t := Adjust(c, s);
    if c.ranges >= 2 {
      assert t.counters == Lowered(c, s.counters);
      forall l, i | 0 <= l < c.balancers && 0 <= i < c.ranges
        ensures Stair(Column(c, t.counters, l, i), Pointer(c, log, l, i))
      {
        var col := Column(c, s.counters, l, i);
        assert Stair(col, Pointer(c, log, l, i));
        StairLowered(col, Pointer(c, log, l, i), Column(c, t.counters, l, i), col[ChoosePort(col)]);
      }
      forall l, p, i | 0 <= l < c.balancers && 0 <= p < c.pifos && 0 <= i < c.ranges
        ensures Drop(c, t, log, l, p, i) == Drop(c, t, log, l, c.pifos - 1, i)
      {
        assert Drop(c, s, log, l, p, i) == Drop(c, s, log, l, c.pifos - 1, i);
      }
    }
  }

  lemma DequeueIsQuiet(c: Config, s: State)
    requires ValidConfig(c) && Shape(c, s)
    ensures Dequeue(c, s).0.counters == s.counters
    ensures forall e :: e in Dequeue(c, s).1 ==> !e.Accepted?
  {
  }

  lemma EnqueueKeepsRoundRobin(c: Config, s: State, log: seq<Event>, x: Item)
    requires ValidConfig(c) && Shape(c, s) && RoundRobinInv(c, s, log)
    ensures var (t, ev) := Enqueue(c, s, x); RoundRobinInv(c, t, log + ev)
  {
    var i, borders := Locate(s.borders, x.rank).0, Locate(s.borders, x.rank).1;
    var s1 := s.(borders := borders, balancer := Next(s.balancer, c.balancers));
    QuietKeeps(c, s, log, s1, []);
    assert log + [] == log;
    OfferKeeps(c, s1, log, s.balancer, i, x);
  }

  lemma OfferKeeps(c: Config, s: State, log: seq<Event>, l: nat, i: nat, x: Item)
    requires ValidConfig(c) && Shape(c, s) && RoundRobinInv(c, s, log)
    requires l < c.balancers && i < c.ranges
    ensures var (t, ev) := Offer(c, s, l, i, x); RoundRobinInv(c, t, log + ev)
  {
    var p := ChoosePort(Column(c, s.counters, l, i));
    if (s.ports[p].fifoBytes + x.pkt.length) as real < c.fifoLimit {
      AcceptKeeps(c, s, log, l, i, x);
    } else {
      QuietKeeps(c, s, log, s, [Rejected(l, i, p, x)]);
    }
  }

  lemma AcceptKeeps(c: Config, s: State, log: seq<Event>, l: nat, i: nat, x: Item)
    requires ValidConfig(c) && Shape(c, s) && RoundRobinInv(c, s, log)
    requires l < c.balancers && i < c.ranges
    ensures var p := ChoosePort(Column(c, s.counters, l, i));
      RoundRobinInv(c, Counted(c, Admit(c, s, l, i, p, x)), log + [Accepted(l, i, p, x)])
  {
    var p := ChoosePort(Column(c, s.counters, l, i));
    AdmitKeeps(c, s, log, l, i, x);
    CountedKeeps(c, Admit(c, s, l, i, p, x), log + [Accepted(l, i, p, x)]);
  }

  lemma CountedKeeps(c: Config, s: State, log: seq<Event>)
    requires ValidConfig(c) && Shape(c, s) && RoundRobinInv(c, s, log)
    ensures RoundRobinInv(c, Counted(c, s), log)
  {
    var s1 := s.(adjusts := s.adjusts + 1);
    QuietKeeps(c, s, log, s1, []);
    assert log + [] == log;
    AdjustKeeps(c, s1, log);
  }

  lemma StepKeepsRoundRobin(c: Config, s: State, log: seq<Event>, op: Op)
    requires ValidConfig(c) && Shape(c, s) && RoundRobinInv(c, s, log)
    ensures var (t, ev) := Step(c, s, op); RoundRobinInv(c, t, log + ev)
  {
    match op
    case Deq =>
      DequeueIsQuiet(c, s);
      var (t, ev) := Dequeue(c, s);
      QuietKeeps(c, s, log, t, ev);
    case Enq(x) =>
      EnqueueKeepsRoundRobin(c, s, log, x);
  }

  lemma {:induction false} RunKeepsRoundRobin(c: Config, ops: seq<Op>)
    requires ValidConfig(c)
    ensures var (s, log) := Run(c, ops); RoundRobinInv(c, s, log)
  {
    if ops == [] {
      InitialRoundRobin(c);
    } else {
      RunKeepsRoundRobin(c, ops[..|ops| - 1]);
      var (s, log) := Run(c, ops[..|ops| - 1]);
      StepKeepsRoundRobin(c, s, log, ops[|ops| - 1]);
    }
  }

  // ----- Main results -----

  /** In any run, the packet accepted for (l, i) after n others went to port (i + n) modulo the
      number of PIFOs, and the least counter is where the next one will go. */
  lemma LeastCounterIsRoundRobin(c: Config, ops: seq<Op>)
    requires ValidConfig(c)
    ensures FollowsPointer(c, Run(c, ops).1)
    ensures forall l, i :: 0 <= l < c.balancers && 0 <= i < c.ranges ==>
      ChoosePort(Column(c, Run(c, ops).0.counters, l, i)) == Pointer(c, Run(c, ops).1, l, i)
  {
    RunKeepsRoundRobin(c, ops);
    var s, log := Run(c, ops).0, Run(c, ops).1;
    forall l, i | 0 <= l < c.balancers && 0 <= i < c.ranges
      ensures ChoosePort(Column(c, s.counters, l, i)) == Pointer(c, log, l, i)
    {
      StairChoice(Column(c, s.counters, l, i), Pointer(c, log, l, i));
    }
  }

  /** What the first n balancers put on port p from range i. */
  ghost function RowHits(log: seq<Event>, p: nat, i: nat, n: nat): int {
    if n == 0 then 0 else RowHits(log, p, i, n - 1) + Tally(log, Hit(n - 1, i, p))
  }

  /** What all balancers put on port p from the first r ranges. */
  ghost function GridHits(c: Config, log: seq<Event>, p: nat, r: nat): int {
    if r == 0 then 0 else GridHits(c, log, p, r - 1) + RowHits(log, p, r - 1, c.balancers)
  }

  lemma {:induction false} RowGrows(log: seq<Event>, e: Event, p: nat, i: nat, n: nat)
    ensures RowHits(log + [e], p, i, n) == RowHits(log, p, i, n) +
      (if e.Accepted? && e.port == p && e.range == i && e.balancer < n then 1 else 0)
  {
    if n > 0 {
      RowGrows(log, e, p, i, n - 1);
      TallyOne(log, e, Hit(n - 1, i, p));
    }
  }

  lemma {:induction false} GridGrows(c: Config, log: seq<Event>, e: Event, p: nat, r: nat)
    requires e.Accepted? ==> e.balancer < c.balancers
    ensures GridHits(c, log + [e], p, r) == GridHits(c, log, p, r) + HitBelow(p, r)(e)
  {
    if r > 0 {
      GridGrows(c, log, e, p, r - 1);
      RowGrows(log, e, p, r - 1, c.balancers);
    }
  }

  lemma {:induction false} RowEmpty(p: nat, i: nat, n: nat)
    ensures RowHits([], p, i, n) == 0
  {
    if n > 0 {
      RowEmpty(p, i, n - 1);
    }
  }

  lemma {:induction false} GridEmpty(c: Config, p: nat, r: nat)
    ensures GridHits(c, [], p, r) == 0
  {
    if r > 0 {
      GridEmpty(c, p, r - 1);
      RowEmpty(p, r - 1, c.balancers);
    }
  }

  /** Counting by port and range bound is counting cell by cell. */
  lemma {:induction false} GridIsTally(c: Config, log: seq<Event>, p: nat, r: nat)
    requires InBounds(c, log)
    ensures Tally(log, HitBelow(p, r)) == GridHits(c, log, p, r)
  {
    if log == [] {
      GridEmpty(c, p, r);
    } else {
      var init, e := log[..|log| - 1], log[|log| - 1];
      assert log == init + [e];
      assert InBounds(c, init);
      GridIsTally(c, init, p, r);
      GridGrows(c, init, e, p, r);
    }
  }

  /** One cell: two ports differ by at most one packet. */
  lemma CellBalance(c: Config, s: State, log: seq<Event>, l: nat, i: nat, p: nat, q: nat)
    requires ValidConfig(c) && Shape(c, s) && RoundRobinInv(c, s, log)
    requires l < c.balancers && i < c.ranges && p < c.pifos && q < c.pifos
    ensures Tally(log, Hit(l, i, p)) - Tally(log, Hit(l, i, q)) <= 1
  {
    var k := c.pifos - 1;
    var col := Column(c, s.counters, l, i);
    assert Stair(col, Pointer(c, log, l, i));
    assert Drop(c, s, log, l, p, i) == Drop(c, s, log, l, k, i);
    assert Drop(c, s, log, l, q, i) == Drop(c, s, log, l, k, i);
    assert col[p] == s.counters[l][p][i] && col[q] == s.counters[l][q][i];
  }

  lemma {:induction false} RowBalance(c: Config, s: State, log: seq<Event>, p: nat, q: nat, i: nat, n: nat)
    requires ValidConfig(c) && Shape(c, s) && RoundRobinInv(c, s, log)
    requires n <= c.balancers && i < c.ranges && p < c.pifos && q < c.pifos
    ensures RowHits(log, p, i, n) - RowHits(log, q, i, n) <= n
  {
    if n > 0 {
      RowBalance(c, s, log, p, q, i, n - 1);
      CellBalance(c, s, log, n - 1, i, p, q);
    }
  }

  lemma {:induction false} GridBalance(c: Config, s: State, log: seq<Event>, p: nat, q: nat, r: nat)
    requires ValidConfig(c) && Shape(c, s) && RoundRobinInv(c, s, log)
    requires r <= c.ranges && p < c.pifos && q < c.pifos
    ensures GridHits(c, log, p, r) - GridHits(c, log, q, r) <= c.balancers * r
  {
    if r > 0 {
      GridBalance(c, s, log, p, q, r - 1);
      RowBalance(c, s, log, p, q, r - 1, c.balancers);
      assert c.balancers * (r - 1) + c.balancers == c.balancers * r;
    }
  }

  /** In any run, of the packets in ranges below r, two ports have accepted numbers that differ by
      at most balancers * r. */
  lemma LoadBelowIsBalanced(c: Config, ops: seq<Op>, p: nat, q: nat, r: nat)
    requires ValidConfig(c) && p < c.pifos && q < c.pifos && r <= c.ranges
    ensures var log := Run(c, ops).1;
      -(c.balancers * r) <= Tally(log, HitBelow(p, r)) - Tally(log, HitBelow(q, r)) <= c.balancers * r
  {
    RunKeepsRoundRobin(c, ops);
    var (s, log) := Run(c, ops);
    GridIsTally(c, log, p, r);
    GridIsTally(c, log, q, r);
    GridBalance(c, s, log, p, q, r);
    GridBalance(c, s, log, q, p, r);
  }

  lemma {:induction false} BelowAllIsPort(c: Config, log: seq<Event>, p: nat)
    requires InBounds(c, log)
    ensures Tally(log, HitBelow(p, c.ranges)) == Tally(log, HitPort(p))
  {
    if log != [] {
      BelowAllIsPort(c, log[..|log| - 1], p);
    }
  }

  /** In any run, two physical PIFOs have accepted numbers of packets that differ by at most
      balancers * ranges. */
  lemma LoadIsBalanced(c: Config, ops: seq<Op>, p: nat, q: nat)
    requires ValidConfig(c) && p < c.pifos && q < c.pifos
    ensures var log := Run(c, ops).1;
      -(c.balancers * c.ranges) <= Tally(log, HitPort(p)) - Tally(log, HitPort(q)) <= c.balancers * c.ranges
  {
    RunKeepsRoundRobin(c, ops);
    var log := Run(c, ops).1;
    LoadBelowIsBalanced(c, ops, p, q, c.ranges);
    BelowAllIsPort(c, log, p);
    BelowAllIsPort(c, log, q);
  }
}
