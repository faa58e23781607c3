/** Ranges always partition the ranks, however often their borders are moved. */
module ScaleUpBorders {
  import opened Elements
  import opened ScaleUpModel

  /** Borders rise strictly from zero. */
  ghost predicate Ordered(b: seq<real>) {
    |b| >= 2 && b[0] == 0.0 && forall i, j :: 0 <= i < j < |b| ==> b[i] < b[j]
  }

  /** The rank belongs to range i: the last range also takes everything above it. */
  ghost predicate Belongs(b: seq<real>, rank: real, i: nat) {
    i + 1 < |b| && b[i] <= rank && (rank < b[i + 1] || i + 2 == |b|)
  }

  lemma BelongsToOne(b: seq<real>, rank: real, i: nat)
    requires Ordered(b) && Belongs(b, rank, i)
    ensures forall j :: Belongs(b, rank, j) ==> j == i
  {
    forall j: nat | j + 1 < |b| && j != i
      ensures !Belongs(b, rank, j)
    {
      if i < j {
        assert b[i + 1] <= b[j];
      } else {
        assert b[j + 1] <= b[i];
      }
    }
  }

  lemma {:induction false} RangeFromFinds(b: seq<real>, rank: real, i: nat)
    requires Ordered(b) && i < |b| && b[i] <= rank
    ensures var r := RangeFrom(b, rank, i);
      if r + 1 < |b| then b[r] <= rank < b[r + 1] else b[|b| - 1] <= rank
    decreases |b| - i
  {
    if i + 1 < |b| && !(b[i] <= rank < b[i + 1]) {
      RangeFromFinds(b, rank, i + 1);
    }
  }

  /** Looking up a non-negative rank yields its one range, under the old and under the new borders. */
  lemma LocateFinds(b: seq<real>, rank: real)
    requires Ordered(b) && rank >= 0.0
    ensures var (i, b') := Locate(b, rank);
      Ordered(b') && Belongs(b, rank, i) && Belongs(b', rank, i) && b'[..|b| - 1] == b[..|b| - 1]
  {
    RangeFromFinds(b, rank, 0);
    var r := RangeFrom(b, rank, 0);
    if r + 1 == |b| {
      var b' := b[|b| - 1 := rank];
      assert forall i, j :: 0 <= i < j < |b| ==> b'[i] < b'[j];
    }
  }

  lemma InitialIsOrdered(c: Config)
    requires ValidConfig(c)
    ensures Ordered(InitialBorders(c))
  {
    var n := c.ranges;
    var w := c.totalLength / n as real;
    var b := InitialBorders(c);
    assert w > 0.0;
    assert n as real * w == c.totalLength;
    forall i, j | 0 <= i < j < |b|
      ensures b[i] < b[j]
    {
      assert b[i] == i as real * w;
      assert b[j] == j as real * w;
      assert (j - i) as real * w > 0.0;
      assert j as real * w - i as real * w == (j - i) as real * w;
    }
  }

  /** At the start all ranges are as wide, and together they have the given length. */
  lemma InitialIsEven(c: Config, i: nat)
    requires ValidConfig(c) && i <= c.ranges
    ensures InitialBorders(c)[i] * c.ranges as real == i as real * c.totalLength
  {
    var n, w := c.ranges as real, c.totalLength / c.ranges as real;
    QuotientTimes(c.totalLength, n);
    if i < c.ranges {
      assert InitialBorders(c)[i] == i as real * w;
      assert i as real * w * n == i as real * (w * n);
    }
  }

  /** Dropping an inner border. */
  lemma MergeKeepsOrder(b: seq<real>, h: seq<real>, a: nat)
    requires Ordered(b) && |b| == |h| + 1 && a + 1 < |h|
    ensures var (b', h') := Merge(b, h, a); Ordered(b') && b'[|b'| - 1] == b[|b| - 1]
  {
  }

  /** Adding the middle of a range as a border. */
  lemma SplitKeepsOrder(b: seq<real>, h: seq<real>, k: nat)
    requires Ordered(b) && |b| == |h| + 1 && k < |h|
    ensures var (b', h') := Split(b, h, k); Ordered(b') && b'[|b'| - 1] == b[|b| - 1]
  {
    var mid := (b[k] + b[k + 1]) / 2.0;
    assert b[k] < mid < b[k + 1];
    var b' := b[..k + 1] + [mid] + b[k + 1..];
    forall i, j | 0 <= i < j < |b'|
      ensures b'[i] < b'[j]
    {
      if i == k + 1 {
        assert b'[j] == b[j - 1] >= b[k + 1];
      } else if j == k + 1 {
        assert b'[i] == b[i] <= b[k];
      }
    }
  }

  lemma {:induction false} SumRealsAppend(s: seq<real>, t: seq<real>)
    ensures SumReals(s + t) == SumReals(s) + SumReals(t)
  {
    if t == [] {
      assert s + t == s;
    } else {
      assert (s + t)[..|s + t| - 1] == s + t[..|t| - 1];
      SumRealsAppend(s, t[..|t| - 1]);
    }
  }

  lemma MergeKeepsTotal(b: seq<real>, h: seq<real>, a: nat)
    requires |b| == |h| + 1 && a + 1 < |h|
    ensures SumReals(Merge(b, h, a).1) == SumReals(h)
  {
    assert h == h[..a] + [h[a], h[a + 1]] + h[a + 2..];
    SumAround(h[..a], [h[a], h[a + 1]], h[a + 2..]);
    SumOfTwo(h[a], h[a + 1]);
    SumAround(h[..a], [h[a] + h[a + 1]], h[a + 2..]);
    SumOfOne(h[a] + h[a + 1]);
  }

  lemma SumOfOne(x: real)
    ensures SumReals([x]) == x
  {
    assert [x][..0] == [];
  }

  lemma SplitKeepsTotal(b: seq<real>, h: seq<real>, k: nat)
    requires |b| == |h| + 1 && k < |h|
    ensures SumReals(Split(b, h, k).1) == SumReals(h)
  {
    HalvesKeepTotal(h, k, h[k] / 2.0);
  }

  lemma HalvesKeepTotal(h: seq<real>, k: nat, x: real)
    requires k < |h| && x + x == h[k]
    ensures SumReals(h[..k] + [x, x] + h[k + 1..]) == SumReals(h)
  {
    assert h == h[..k] + [h[k]] + h[k + 1..];
    SumAround(h[..k], [h[k]], h[k + 1..]);
    SumOfOne(h[k]);
    SumAround(h[..k], [x, x], h[k + 1..]);
    SumOfTwo(x, x);
  }

  lemma SumAround(a: seq<real>, m: seq<real>, z: seq<real>)
    ensures SumReals(a + m + z) == SumReals(a) + SumReals(m) + SumReals(z)
  {
    SumRealsAppend(a + m, z);
    SumRealsAppend(a, m);
  }

  lemma SumOfTwo(x: real, y: real)
    ensures SumReals([x, y]) == x + y
  {
    assert [x, y][..1] == [x];
    SumOfOne(x);
  }

  /** Moving borders keeps them ordered, keeps both ends, the number of ranges and the total hotness. */
  lemma RebalanceKeeps(b: seq<real>, h: seq<real>)
    requires Ordered(b) && |b| == |h| + 1 && |h| >= 2
    ensures var (b', h') := Rebalance(b, h);
      && Ordered(b') && b'[|b'| - 1] == b[|b| - 1]
      && |b'| == |b| && |h'| == |h|
      && SumReals(h') == SumReals(h)
  {
    var a := MergeStart(h);
    MergeKeepsOrder(b, h, a);
    MergeKeepsTotal(b, h, a);
    var m := Merge(b, h, a);
    SplitKeepsOrder(m.0, m.1, ArgMax(m.1));
    SplitKeepsTotal(m.0, m.1, ArgMax(m.1));
  }

  lemma AdjustKeepsOrder(c: Config, s: State)
    requires ValidConfig(c) && Shape(c, s) && Ordered(s.borders)
    ensures Ordered(Adjust(c, s).borders)
    ensures c.ranges >= 2 ==> SumReals(Adjust(c, s).hotness) == SumReals(Heated(c, s.hotness, s.counters))
  {
    if c.ranges >= 2 {
      RebalanceKeeps(s.borders, Heated(c, s.hotness, s.counters));
    }
  }

  ghost predicate RanksNonNegative(ops: seq<Op>) {
    forall k :: 0 <= k < |ops| && ops[k].Enq? ==> ops[k].item.rank >= 0.0
  }

  lemma OfferKeepsOrder(c: Config, s: State, l: nat, i: nat, x: Item)
    requires ValidConfig(c) && Shape(c, s) && l < c.balancers && i < c.ranges && Ordered(s.borders)
    ensures Ordered(Offer(c, s, l, i, x).0.borders)
  {
    var p := ChoosePort(Column(c, s.counters, l, i));
    var s1 := Admit(c, s, l, i, p, x);
    AdjustKeepsOrder(c, s1.(adjusts := s1.adjusts + 1));
  }

  /** After any run over non-negative ranks the borders still rise strictly from zero, so that each
      non-negative rank belongs to exactly one range, the one an arrival is counted under. */
  lemma {:induction false} RunKeepsOrder(c: Config, ops: seq<Op>)
    requires ValidConfig(c) && RanksNonNegative(ops)
    ensures Ordered(Run(c, ops).0.borders) && |Run(c, ops).0.borders| == c.ranges + 1
    ensures forall rank: real, i :: rank >= 0.0 ==>
      (Belongs(Run(c, ops).0.borders, rank, i) <==> i == Locate(Run(c, ops).0.borders, rank).0)
  {
    if ops == [] {
      InitialIsOrdered(c);
    } else {
      var n := |ops| - 1;
      RunKeepsOrder(c, ops[..n]);
      var s := Run(c, ops[..n]).0;
      match ops[n] {
        case Deq =>
          assert Dequeue(c, s).0.borders == s.borders;
        case Enq(x) =>
          LocateFinds(s.borders, x.rank);
          var i, b := Locate(s.borders, x.rank).0, Locate(s.borders, x.rank).1;
          OfferKeepsOrder(c, s.(borders := b, balancer := Next(s.balancer, c.balancers)), s.balancer, i, x);
      }
    }
    var b := Run(c, ops).0.borders;
    forall rank: real, i | rank >= 0.0
      ensures Belongs(b, rank, i) <==> i == Locate(b, rank).0
    {
      LocateFinds(b, rank);
      BelongsToOne(b, rank, Locate(b, rank).0);
    }
  }
}
