/** The Gearbox scheduler: levels of FIFOs over coarser and coarser granules of time. */
module Gearbox {
  import opened Elements
  import opened GearboxSlots

  type Level = seq<seq<Item>>

  datatype Served = Nothing | Sent(item: Item, rankError: nat)

  /** A level has fifos FIFOs, each for granularity ticks. */
  datatype Gear = Gear(granularity: nat, fifos: nat)

  predicate GearsOk(gears: seq<Gear>) {
    gears != [] && forall l :: 0 <= l < |gears| ==> gears[l].granularity > 0 && gears[l].fifos > 0
  }

  function Span(gear: Gear): nat {
    gear.granularity * gear.fifos
  }

  /** The ticks that the widest level covers. */
  function MaxRange(gears: seq<Gear>): (r: nat)
    requires gears != []
    ensures forall l :: 0 <= l < |gears| ==> Span(gears[l]) <= r
    ensures exists l :: 0 <= l < |gears| && r == Span(gears[l])
  {
    if |gears| == 1 then
      assert Span(gears[0]) == Span(gears[0]);
      Span(gears[0])
    else
      var r := MaxRange(gears[..|gears| - 1]);
      var s := Span(gears[|gears| - 1]);
      assert forall l :: 0 <= l < |gears| - 1 ==> gears[..|gears| - 1][l] == gears[l];
      if s > r then s else r
  }

  lemma RangePositive(gears: seq<Gear>)
    requires GearsOk(gears)
    ensures MaxRange(gears) > 0
  {
    AtLeastOne(gears[0].granularity, gears[0].fifos);
  }

  // ----- Contents -----

  function LevelItems(level: Level): multiset<Item> {
    if level == [] then multiset{} else LevelItems(level[..|level| - 1]) + multiset(level[|level| - 1])
  }

  function AllItems(levels: seq<Level>): multiset<Item> {
    if levels == [] then multiset{} else AllItems(levels[..|levels| - 1]) + LevelItems(levels[|levels| - 1])
  }

  lemma Beside(a: multiset<Item>, b: multiset<Item>, c: multiset<Item>, d: multiset<Item>, z: multiset<Item>)
    requires a + b == c + d
    ensures a + z + b == c + z + d
  {
    forall e
      ensures (a + z + b)[e] == (c + z + d)[e]
    {
      assert (a + b)[e] == (c + d)[e];
    }
  }

  lemma {:induction false} LevelUpdate(level: Level, f: nat, q: seq<Item>)
    requires f < |level|
    ensures LevelItems(level[f := q]) + multiset(level[f]) == LevelItems(level) + multiset(q)
  {
    var n := |level| - 1;
    if f < n {
      assert level[f := q][..n] == level[..n][f := q];
      LevelUpdate(level[..n], f, q);
      Beside(LevelItems(level[..n][f := q]), multiset(level[f]), LevelItems(level[..n]), multiset(q),
             multiset(level[n]));
    } else {
      assert level[f := q][..n] == level[..n];
    }
  }

  lemma {:induction false} AllUpdate(levels: seq<Level>, l: nat, level: Level)
    requires l < |levels|
    ensures AllItems(levels[l := level]) + LevelItems(levels[l]) == AllItems(levels) + LevelItems(level)
  {
    var n := |levels| - 1;
    if l < n {
      assert levels[l := level][..n] == levels[..n][l := level];
      AllUpdate(levels[..n], l, level);
      Beside(AllItems(levels[..n][l := level]), LevelItems(levels[l]), AllItems(levels[..n]), LevelItems(level),
             LevelItems(levels[n]));
    } else {
      assert levels[l := level][..n] == levels[..n];
    }
  }

  /** FIFO f of level l becomes q. */
  function WithFifo(levels: seq<Level>, l: nat, f: nat, q: seq<Item>): seq<Level>
    requires l < |levels| && f < |levels[l]|
  {
    levels[l := levels[l][f := q]]
  }

  lemma FifoUpdate(levels: seq<Level>, l: nat, f: nat, q: seq<Item>)
    requires l < |levels| && f < |levels[l]|
    ensures AllItems(WithFifo(levels, l, f, q)) + multiset(levels[l][f]) == AllItems(levels) + multiset(q)
  {
    hide AllItems, LevelItems;
    LevelUpdate(levels[l], f, q);
    AllUpdate(levels, l, levels[l][f := q]);
    Cancel(AllItems(WithFifo(levels, l, f, q)), LevelItems(levels[l]), AllItems(levels),
           LevelItems(levels[l][f := q]), multiset(levels[l][f]), multiset(q));
  }

  lemma Cancel<T>(a: multiset<T>, b: multiset<T>, c: multiset<T>, d: multiset<T>, x: multiset<T>, y: multiset<T>)
    requires a + b == c + d && d + x == b + y
    ensures a + x == c + y
  {
    forall e
      ensures (a + x)[e] == (c + y)[e]
    {
      assert (a + b)[e] == (c + d)[e] && (d + x)[e] == (b + y)[e];
    }
  }

  // ----- Serving -----

  /** How many of its n items a FIFO of level l gives when it is served. */
  function Share(l: nat, n: nat, g: nat): (k: nat)
    requires g > 0
    ensures k <= n && (n > 0 ==> k > 0)
  {
    QuotientBound(n, g);
    if l == 0 || n == 0 then n else if n / g > 1 then n / g else 1
  }

  lemma QuotientBound(n: nat, g: nat)
    requires g > 0
    ensures n / g <= n
  {
    assert n == g * (n / g) + n % g;
    if n / g > 0 {
      assert g * (n / g) >= n / g by {
        AtLeastOne(n / g, g);
      }
    }
  }

  predicate LevelsOk(gears: seq<Gear>, levels: seq<Level>) {
    |levels| == |gears| && forall l :: 0 <= l < |gears| ==> |levels[l]| == gears[l].fifos
  }

  function SlotOf(gears: seq<Gear>, l: nat, ts: nat, range: nat): (f: nat)
    requires GearsOk(gears) && l < |gears| && range > 0
    ensures f < gears[l].fifos
  {
    Slot(ts, range, gears[l].granularity, gears[l].fifos)
  }

  /** The levels after serving the current slot of each level from l on, and what that makes ready. */
  function ServeFrom(gears: seq<Gear>, levels: seq<Level>, l: nat, ts: nat, range: nat): (r: (seq<Level>, seq<Item>))
    requires GearsOk(gears) && LevelsOk(gears, levels) && l <= |gears| && range > 0
    ensures LevelsOk(gears, r.0)
    decreases |gears| - l
  {
    if l == |gears| then (levels, []) else
      var f := SlotOf(gears, l, ts, range);
      var q := levels[l][f];
      var k := Share(l, |q|, gears[l].granularity);
      var rest := ServeFrom(gears, WithFifo(levels, l, f, q[k..]), l + 1, ts, range);
      (rest.0, q[..k] + rest.1)
  }

  /** Serving a tick leaves every slot that it does not address as it was.  It empties the one of level 0, and of n
      items in the one of a coarser level it takes the first n / granularity, but at least one if there is any. */
  ghost predicate SlotServed(gears: seq<Gear>, before: seq<Level>, after: seq<Level>, l: nat, f: nat,
      ts: nat, range: nat)
    requires GearsOk(gears) && LevelsOk(gears, before) && LevelsOk(gears, after)
    requires range > 0 && l < |gears| && f < gears[l].fifos
  {
    var p, q := before[l][f], after[l][f];
    var n, g := |p|, gears[l].granularity;
    if f != SlotOf(gears, l, ts, range) then q == p
    else if l == 0 || n == 0 then q == []
    else |q| == n - (if n / g >= 1 then n / g else 1) && q == p[n - |q|..]
  }

  /** What is gone from the slots addressed at a tick, level by level from l on. */
  function Gone(gears: seq<Gear>, before: seq<Level>, after: seq<Level>, l: nat, ts: nat, range: nat): seq<Item>
    requires GearsOk(gears) && LevelsOk(gears, before) && LevelsOk(gears, after) && l <= |gears| && range > 0
    decreases |gears| - l
  {
    if l == |gears| then [] else
      var f := SlotOf(gears, l, ts, range);
      var left, n := |after[l][f]|, |before[l][f]|;
      before[l][f][..if left <= n then n - left else 0] + Gone(gears, before, after, l + 1, ts, range)
  }

  lemma ShareIs(l: nat, q: seq<Item>, g: nat)
    requires g > 0
    ensures var n := |q|;
      var left := q[Share(l, n, g)..];
      if l == 0 || n == 0 then left == []
      else |left| == n - (if n / g >= 1 then n / g else 1) && left == q[n - |left|..]
  {
  }

  lemma WithFifoAt(levels: seq<Level>, l: nat, s: nat, q: seq<Item>, k: nat, f: nat)
    requires l < |levels| && s < |levels[l]| && k < |levels| && f < |levels[k]|
    ensures |WithFifo(levels, l, s, q)| == |levels| && |WithFifo(levels, l, s, q)[k]| == |levels[k]|
    ensures WithFifo(levels, l, s, q)[k][f] == if k == l && f == s then q else levels[k][f]
  {
  }

  /** What serving from level l on does to each slot of these levels; it does nothing to those below. */
  lemma {:induction false} SlotsServed(gears: seq<Gear>, levels: seq<Level>, l: nat, ts: nat, range: nat,
      k: nat, f: nat)
    requires GearsOk(gears) && LevelsOk(gears, levels) && l <= |gears| && range > 0
    requires k < |gears| && f < gears[k].fifos
    ensures var after := ServeFrom(gears, levels, l, ts, range).0;
      if k < l then after[k][f] == levels[k][f] else SlotServed(gears, levels, after, k, f, ts, range)
    decreases |gears| - l
  {
    hide SlotOf, Share, WithFifo;
    if l < |gears| {
      var s := SlotOf(gears, l, ts, range);
      var q, g := levels[l][s], gears[l].granularity;
      var rest := q[Share(l, |q|, g)..];
      ServeLevel(gears, levels, l, ts, range);
      ShareIs(l, q, g);
      WithFifoAt(levels, l, s, rest, k, f);
      SlotsServed(gears, WithFifo(levels, l, s, rest), l + 1, ts, range, k, f);
    }
  }

  lemma ServeLevel(gears: seq<Gear>, levels: seq<Level>, l: nat, ts: nat, range: nat)
    requires GearsOk(gears) && LevelsOk(gears, levels) && l < |gears| && range > 0
    ensures var s := SlotOf(gears, l, ts, range);
      var q := levels[l][s];
      var levels1 := WithFifo(levels, l, s, q[Share(l, |q|, gears[l].granularity)..]);
      && LevelsOk(gears, levels1)
      && ServeFrom(gears, levels, l, ts, range).0 == ServeFrom(gears, levels1, l + 1, ts, range).0
  {
    hide SlotOf, Share;
  }

  /** Serving makes ready just what is gone from the slots. */
  lemma {:induction false} ReadyIsGone(gears: seq<Gear>, levels: seq<Level>, l: nat, ts: nat, range: nat)
    requires GearsOk(gears) && LevelsOk(gears, levels) && l <= |gears| && range > 0
    ensures var r := ServeFrom(gears, levels, l, ts, range); r.1 == Gone(gears, levels, r.0, l, ts, range)
    decreases |gears| - l
  {
    hide Slot, Share;
    if l < |gears| {
      var f := SlotOf(gears, l, ts, range);
      var q := levels[l][f];
      var k := Share(l, |q|, gears[l].granularity);
      var levels1 := WithFifo(levels, l, f, q[k..]);
      var after := ServeFrom(gears, levels1, l + 1, ts, range).0;
      ReadyIsGone(gears, levels1, l + 1, ts, range);
      SlotsServed(gears, levels1, l + 1, ts, range, l, f);
      GoneAbove(gears, levels1, levels, after, l + 1, ts, range);
    }
  }

  lemma {:induction false} GoneAbove(gears: seq<Gear>, a: seq<Level>, b: seq<Level>, after: seq<Level>, l: nat, ts: nat,
      range: nat)
    requires GearsOk(gears) && LevelsOk(gears, a) && LevelsOk(gears, b) && LevelsOk(gears, after)
    requires l <= |gears| && range > 0 && forall k :: l <= k < |gears| ==> a[k] == b[k]
    ensures Gone(gears, a, after, l, ts, range) == Gone(gears, b, after, l, ts, range)
    decreases |gears| - l
  {
    hide Slot;
    if l < |gears| {
      GoneAbove(gears, a, b, after, l + 1, ts, range);
    }
  }

  /** Some slot addressed at tick ts, in level l or above, holds an item. */
  predicate SomeDue(gears: seq<Gear>, levels: seq<Level>, l: nat, ts: nat, range: nat)
    requires GearsOk(gears) && LevelsOk(gears, levels) && range > 0
  {
    exists k :: l <= k < |gears| && levels[k][SlotOf(gears, k, ts, range)] != []
  }

  lemma {:induction false} ServeKeeps(gears: seq<Gear>, levels: seq<Level>, l: nat, ts: nat, range: nat)
    requires GearsOk(gears) && LevelsOk(gears, levels) && l <= |gears| && range > 0
    ensures var r := ServeFrom(gears, levels, l, ts, range);
      && AllItems(r.0) + multiset(r.1) == AllItems(levels)
      && (r.1 != [] <==> SomeDue(gears, levels, l, ts, range))
    decreases |gears| - l
  {
    hide Slot, AllItems, Share, MaxRange;
    if l < |gears| {
      var f := SlotOf(gears, l, ts, range);
      var q := levels[l][f];
      var k := Share(l, |q|, gears[l].granularity);
      var levels1 := WithFifo(levels, l, f, q[k..]);
      ServeKeeps(gears, levels1, l + 1, ts, range);
      FifoUpdate(levels, l, f, q[k..]);
      assert q == q[..k] + q[k..];
      var rest := ServeFrom(gears, levels1, l + 1, ts, range);
      Settle(AllItems(levels), AllItems(levels1), AllItems(rest.0), multiset(rest.1), multiset(q[..k]),
             multiset(q[k..]));
      assert SomeDue(gears, levels1, l + 1, ts, range) <==> SomeDue(gears, levels, l + 1, ts, range);
    }
  }

  lemma Settle(all: multiset<Item>, all1: multiset<Item>, all2: multiset<Item>, ready: multiset<Item>,
      taken: multiset<Item>, left: multiset<Item>)
    requires all1 + (taken + left) == all + left && all2 + ready == all1
    ensures all2 + (taken + ready) == all
  {
    forall e
      ensures (all2 + (taken + ready))[e] == all[e]
    {
      assert (all1 + (taken + left))[e] == (all + left)[e] && (all2 + ready)[e] == all1[e];
    }
  }

  /** Wherever an item waits, its slot is addressed within one range of ticks. */
  lemma DueWithinRange(gears: seq<Gear>, levels: seq<Level>, l: nat, f: nat, ts: nat, range: nat) returns (t: nat)
    requires GearsOk(gears) && LevelsOk(gears, levels) && l < |gears| && f < gears[l].fifos && levels[l][f] != []
    requires range > 0 && Span(gears[l]) <= range
    ensures ts <= t < ts + range && SomeDue(gears, levels, 0, t, range)
  {
    hide Slot;
    t := SlotIsMet(ts, range, gears[l].granularity, gears[l].fifos, f);
    assert levels[l][SlotOf(gears, l, t, range)] != [];
  }

  /** No level holds an item. */
  predicate AllEmpty(levels: seq<Level>) {
    forall l, f :: 0 <= l < |levels| && 0 <= f < |levels[l]| ==> levels[l][f] == []
  }

  /** The finest level whose rounds reach n ticks ahead. */
  function LevelFor(gears: seq<Gear>, n: nat, l: nat): (k: nat)
    requires l <= |gears|
    ensures l <= k <= |gears|
    ensures k < |gears| ==> n < Span(gears[k])
    ensures forall j :: l <= j < k ==> n >= Span(gears[j])
    decreases |gears| - l
  {
    if l == |gears| || n < Span(gears[l]) then l else LevelFor(gears, n, l + 1)
  }

  /** The first tick from ts on at which something is due is t. */
  ghost predicate FirstDue(gears: seq<Gear>, levels: seq<Level>, ts: nat, t: nat, range: nat)
    requires GearsOk(gears) && LevelsOk(gears, levels) && range > 0
  {
    && ts <= t && SomeDue(gears, levels, 0, t, range)
    && forall u :: ts <= u < t ==> !SomeDue(gears, levels, 0, u, range)
  }

  ghost predicate SizesOk(levels: seq<Level>, sizes: seq<seq<int>>) {
    && |sizes| == |levels|
    && (forall l :: 0 <= l < |levels| ==> |sizes[l]| == |levels[l]|)
    && forall l, f :: 0 <= l < |levels| && 0 <= f < |levels[l]| ==> sizes[l][f] == Bytes(levels[l][f])
  }

  lemma SizesUpdate(levels: seq<Level>, sizes: seq<seq<int>>, l: nat, f: nat, q: seq<Item>, v: int)
    requires SizesOk(levels, sizes) && l < |levels| && f < |levels[l]| && v == Bytes(q)
    ensures SizesOk(WithFifo(levels, l, f, q), sizes[l := sizes[l][f := v]])
  {
  }

  class GearboxScheduler {
    const gears: seq<Gear>
    const bufferPerFifo: real
    const maxRange: nat
    var levels: seq<Level>
    var fifoSizes: seq<seq<int>>
    var ts: nat
    var ready: seq<Item>
    var queue: seq<Item>

    ghost predicate Shaped()
      reads this
    {
      GearsOk(gears) && LevelsOk(gears, levels) && maxRange == MaxRange(gears) > 0 && SizesOk(levels, fifoSizes)
    }

    /** The shadow list holds just what waits in the levels or is ready. */
    ghost predicate Mirrored()
      reads this
    {
      Sorted(queue) && multiset(queue) == AllItems(levels) + multiset(ready)
    }

    ghost predicate Valid()
      reads this
    {
      Shaped() && Mirrored()
    }

    constructor (gears: seq<Gear>, bufferSize: real, totalFifos: nat)
      requires GearsOk(gears) && totalFifos > 0
      ensures Valid() && this.gears == gears && AllEmpty(levels) && ready == [] && ts == 0
      ensures this.bufferPerFifo == bufferSize / totalFifos as real
    {
      hide MaxRange, AllItems, LevelItems;
      this.gears := gears;
      bufferPerFifo := bufferSize / totalFifos as real;
      maxRange := MaxRange(gears);
      levels := seq(|gears|, l requires 0 <= l < |gears| => seq(gears[l].fifos, _ => []));
      fifoSizes := seq(|gears|, l requires 0 <= l < |gears| => seq(gears[l].fifos, _ => 0));
      ts, ready, queue := 0, [], [];
      new;
      RangePositive(gears);
      NothingHeld(levels);
    }

    method Enqueue(pkt: Pkt, n: nat) returns (accepted: bool)
      requires Valid()
      modifies this
      ensures Valid() && ts == old(ts) && ready == old(ready)
      ensures var l := LevelFor(gears, n, 0);
        if l == |gears| then !accepted else
          var f := PutSlot(ts, n, gears[l].granularity, gears[l].fifos);
          && accepted == ((Bytes(old(levels)[l][f]) + pkt.length) as real <= bufferPerFifo)
          && (accepted ==> levels == WithFifo(old(levels), l, f, old(levels)[l][f] + [Item(n as real, pkt)]))
      ensures queue == if accepted then Insert(old(queue), Item(n as real, pkt)) else old(queue)
      ensures !accepted ==> levels == old(levels)
    {
      hide Span, MaxRange, PutSlot, Bytes, Insert, AllItems, LevelFor, Mirrored;
      var l := ChooseLevel(n);
      if l == |gears| {
        return false;
      }
      var f := PutSlot(ts, n, gears[l].granularity, gears[l].fifos);
      if (fifoSizes[l][f] + pkt.length) as real > bufferPerFifo {
        return false;
      }
      Append(l, f, Item(n as real, pkt));
      accepted := true;
    }

    method ChooseLevel(n: nat) returns (l: nat)
      ensures l == LevelFor(gears, n, 0)
    {
      l := 0;
      while l < |gears| && n >= gears[l].granularity * gears[l].fifos
        invariant l <= |gears| && LevelFor(gears, n, l) == LevelFor(gears, n, 0)
      {
        LevelStep(gears, n, l);
        l := l + 1;
      }
      LevelFound(gears, n, l);
    }

    method Append(l: nat, f: nat, x: Item)
      requires Valid() && l < |gears| && f < gears[l].fifos
      modifies this`levels, this`fifoSizes, this`queue
      ensures Valid() && levels == WithFifo(old(levels), l, f, old(levels)[l][f] + [x])
      ensures queue == Insert(old(queue), x)
    {
      hide MaxRange, Bytes, Insert, AllItems, Sorted;
      var q := levels[l][f];
      SizeSnoc(q, x);
      SizesUpdate(levels, fifoSizes, l, f, q + [x], fifoSizes[l][f] + x.pkt.length);
      FifoUpdate(levels, l, f, q + [x]);
      InsertKeepsSorted(queue, x);
      Grown(AllItems(WithFifo(levels, l, f, q + [x])), AllItems(levels), multiset(q), x, multiset(queue),
            multiset(ready));
      levels := WithFifo(levels, l, f, q + [x]);
      fifoSizes := fifoSizes[l := fifoSizes[l][f := fifoSizes[l][f] + x.pkt.length]];
      queue := Insert(queue, x);
    }

    /** Serve what is ready, or turn time to the next tick at which something is due and serve that tick.
        A packet comes out exactly when some level holds one. */
    method Dequeue() returns (r: Served)
      requires Valid()
      modifies this
      ensures Valid()
      ensures r.Sent? <==> !AllEmpty(old(levels))
      ensures r == Nothing ==> ts == old(ts) && levels == old(levels) && ready == old(ready) && queue == old(queue)
      ensures r.Sent? ==> queue == Remove(old(queue), r.item) && r.rankError == BisectLeft(old(queue), r.item)
      ensures r.Sent? && old(ready) != [] ==> [r.item] + ready == old(ready) && levels == old(levels) && ts == old(ts)
      ensures r.Sent? && old(ready) == [] ==>
        && old(ts) < ts <= old(ts) + maxRange && FirstDue(gears, old(levels), old(ts), ts - 1, maxRange)
        && (levels, [r.item] + ready) == ServeFrom(gears, old(levels), 0, ts - 1, maxRange)
    {
      hide *;
      var empty := IsEmpty();
      if empty {
        return Nothing;
      }
      if ready == [] {
        Advance();
      }
      r := Release();
    }

    /** Turn to the next tick at which something is due and serve it. */
    method Advance()
      requires Valid() && !AllEmpty(levels) && ready == []
      modifies this`ts, this`levels, this`fifoSizes, this`ready
      ensures Valid() && ready != []
      ensures old(ts) < ts <= old(ts) + maxRange && LevelsOk(gears, old(levels))
      ensures FirstDue(gears, old(levels), old(ts), ts - 1, maxRange)
      ensures (levels, ready) == ServeFrom(gears, old(levels), 0, ts - 1, maxRange)
    {
      hide MaxRange, Slot, AllItems, SizesOk, ServeFrom, Sorted, SomeDue;
      UpdateGearBoxSysTime();
      ghost var served := ServeFrom(gears, levels, 0, ts, maxRange);
      GearboxServe();
      assert [] + served.1 == served.1;
      ts := ts + 1;
    }

    method Release() returns (r: Served)
      requires Valid() && ready != []
      modifies this`ready, this`queue
      ensures Valid() && r.Sent? && [r.item] + ready == old(ready)
      ensures queue == Remove(old(queue), r.item) && r.rankError == BisectLeft(old(queue), r.item)
    {
      hide MaxRange, AllItems, SizesOk, Sorted, Remove, BisectLeft, LevelsOk;
      var x := ready[0];
      ReadyIsMirrored(queue, levels, ready);
      RemoveIsDifference(queue, x);
      RemoveKeepsSorted(queue, x);
      ready := ready[1..];
      var rankError := BisectLeft(queue, x);
      queue := Remove(queue, x);
      r := Sent(x, rankError);
    }

    /** Turn time to the first tick at which some slot that holds an item is addressed. */
    method UpdateGearBoxSysTime()
      requires Shaped() && !AllEmpty(levels)
      modifies this`ts
      ensures old(ts) <= ts < old(ts) + maxRange && FirstDue(gears, levels, old(ts), ts, maxRange)
    {
      hide MaxRange, Slot, SizesOk, SomeDue;
      ghost var due := Due();
      var limit := ts + maxRange;
      while ts < limit
        invariant old(ts) <= ts <= due
        invariant forall u :: old(ts) <= u < ts ==> !SomeDue(gears, levels, 0, u, maxRange)
        decreases limit - ts
      {
        var found := FoundAt(ts);
        if found {
          break;
        }
        ts := ts + 1;
      }
    }

    /** A tick within the range at which something is due. */
    ghost method Due() returns (t: nat)
      requires Shaped() && !AllEmpty(levels)
      ensures ts <= t < ts + maxRange && SomeDue(gears, levels, 0, t, maxRange)
    {
      hide Slot, SizesOk;
      var l, f :| 0 <= l < |levels| && 0 <= f < |levels[l]| && levels[l][f] != [];
      t := DueWithinRange(gears, levels, l, f, ts, maxRange);
    }

    method FoundAt(t: nat) returns (found: bool)
      requires Shaped()
      ensures found <==> SomeDue(gears, levels, 0, t, maxRange)
    {
      hide MaxRange, Slot, SizesOk;
      var l := 0;
      found := false;
      while l < |gears|
        invariant l <= |gears| && !found
        invariant forall k :: 0 <= k < l ==> levels[k][SlotOf(gears, k, t, maxRange)] == []
      {
        var f := SlotOf(gears, l, t, maxRange);
        if levels[l][f] != [] {
          found := true;
          return;
        }
        l := l + 1;
      }
    }

    /** Serve the slot of each level that the current tick addresses. */
    method GearboxServe()
      requires Valid()
      modifies this`levels, this`fifoSizes, this`ready
      ensures Valid() && (|ready| > |old(ready)| <==> old(SomeDue(gears, levels, 0, ts, maxRange)))
      ensures (levels, ready) == (ServeFrom(gears, old(levels), 0, ts, maxRange).0,
                                  old(ready) + ServeFrom(gears, old(levels), 0, ts, maxRange).1)
      ensures LevelsOk(gears, old(levels)) && ready == old(ready) + Gone(gears, old(levels), levels, 0, ts, maxRange)
      ensures forall l, f :: 0 <= l < |gears| && 0 <= f < gears[l].fifos ==>
        SlotServed(gears, old(levels), levels, l, f, ts, maxRange)
    {
      hide MaxRange, Slot, AllItems, SizesOk, SomeDue, Share, Gone, SlotServed;
      ghost var all, was := levels, ready;
      ServeKeeps(gears, all, 0, ts, maxRange);
      var l := 0;
      while l < |gears|
        invariant l <= |gears| && Shaped()
        invariant ServeFrom(gears, levels, l, ts, maxRange).0 == ServeFrom(gears, all, 0, ts, maxRange).0
        invariant ready + ServeFrom(gears, levels, l, ts, maxRange).1
               == was + ServeFrom(gears, all, 0, ts, maxRange).1
      {
        var f := SlotOf(gears, l, ts, maxRange);
        ServeStep(gears, levels, l, ts, maxRange, ready);
        DrainFifo(l, f, Share(l, |levels[l][f]|, gears[l].granularity));
        l := l + 1;
      }
      ServeEnd(gears, levels, ts, maxRange, ready);
      Regroup(AllItems(all), AllItems(levels), multiset(was), ServeFrom(gears, all, 0, ts, maxRange).1, was, ready);
      ReadyIsGone(gears, all, 0, ts, maxRange);
      forall k: nat, f: nat | k < |gears| && f < gears[k].fifos {
        SlotsServed(gears, all, 0, ts, maxRange, k, f);
      }
    }

    /** Move the first k items of a FIFO to the ready queue. */
    method DrainFifo(l: nat, f: nat, k: nat)
      requires Shaped() && l < |gears| && f < gears[l].fifos && k <= |levels[l][f]|
      modifies this`levels, this`fifoSizes, this`ready
      ensures Shaped() && levels == WithFifo(old(levels), l, f, old(levels)[l][f][k..])
      ensures ready == old(ready) + old(levels)[l][f][..k]
    {
      hide MaxRange, Bytes;
      ghost var q := levels[l][f];
      var i := 0;
      SameFifo(levels, l, f);
      while i < k
        invariant i <= k && Shaped() && levels == WithFifo(old(levels), l, f, q[i..])
        invariant ready == old(ready) + q[..i]
      {
        var x := levels[l][f][0];
        SizeCons(levels[l][f]);
        FifoTwice(old(levels), l, f, q[i..], q[i..][1..]);
        SizesUpdate(levels, fifoSizes, l, f, levels[l][f][1..], fifoSizes[l][f] - x.pkt.length);
        levels := WithFifo(levels, l, f, levels[l][f][1..]);
        fifoSizes := fifoSizes[l := fifoSizes[l][f := fifoSizes[l][f] - x.pkt.length]];
        ready := ready + [x];
        i := i + 1;
      }
    }

    method IsEmpty() returns (empty: bool)
      requires Valid()
      ensures empty <==> AllEmpty(levels)
    {
      var l := 0;
      empty := true;
      while l < |levels|
        invariant l <= |levels| && empty
        invariant forall k, f :: 0 <= k < l && 0 <= f < |levels[k]| ==> levels[k][f] == []
      {
        if exists f :: 0 <= f < |levels[l]| && levels[l][f] != [] {
          empty := false;
          return;
        }
        l := l + 1;
      }
    }
  }

  lemma {:induction false} NothingIn(level: Level)
    requires forall f :: 0 <= f < |level| ==> level[f] == []
    ensures LevelItems(level) == multiset{}
  {
    if level != [] {
      NothingIn(level[..|level| - 1]);
    }
  }

  lemma {:induction false} NothingHeld(levels: seq<Level>)
    requires AllEmpty(levels)
    ensures AllItems(levels) == multiset{}
  {
    if levels != [] {
      var n := |levels| - 1;
      assert forall l :: 0 <= l < n ==> levels[..n][l] == levels[l];
      NothingHeld(levels[..n]);
      NothingIn(levels[n]);
    }
  }

  lemma LevelStep(gears: seq<Gear>, n: nat, l: nat)
    requires l < |gears| && n >= gears[l].granularity * gears[l].fifos
    ensures LevelFor(gears, n, l) == LevelFor(gears, n, l + 1)
  {
  }

  lemma LevelFound(gears: seq<Gear>, n: nat, l: nat)
    requires l <= |gears| && (l < |gears| ==> n < gears[l].granularity * gears[l].fifos)
    ensures LevelFor(gears, n, l) == l
  {
  }

  lemma SameFifo(levels: seq<Level>, l: nat, f: nat)
    requires l < |levels| && f < |levels[l]|
    ensures WithFifo(levels, l, f, levels[l][f][0..]) == levels
  {
    assert levels[l][f][0..] == levels[l][f];
    assert levels[l][f := levels[l][f]] == levels[l];
    assert levels[l := levels[l]] == levels;
  }

  lemma FifoTwice(levels: seq<Level>, l: nat, f: nat, a: seq<Item>, b: seq<Item>)
    requires l < |levels| && f < |levels[l]|
    ensures WithFifo(WithFifo(levels, l, f, a), l, f, b) == WithFifo(levels, l, f, b)
  {
    assert levels[l][f := a][f := b] == levels[l][f := b];
    assert levels[l := levels[l][f := a]][l := levels[l][f := b]] == levels[l := levels[l][f := b]];
  }

  lemma SizeSnoc(q: seq<Item>, x: Item)
    ensures Bytes(q + [x]) == Bytes(q) + x.pkt.length
  {
    BytesAppend(q, [x]);
    assert [x][1..] == [];
  }

  lemma SizeCons(q: seq<Item>)
    requires q != []
    ensures Bytes(q) == q[0].pkt.length + Bytes(q[1..])
  {
  }

  lemma Grown(all2: multiset<Item>, all: multiset<Item>, q: multiset<Item>, x: Item, queue: multiset<Item>,
      ready: multiset<Item>)
    requires all2 + q == all + (q + multiset{x}) && queue == all + ready
    ensures queue + multiset{x} == all2 + ready
  {
    forall e
      ensures (queue + multiset{x})[e] == (all2 + ready)[e]
    {
      assert (all2 + q)[e] == (all + (q + multiset{x}))[e];
    }
  }

  lemma ReadyIsMirrored(queue: seq<Item>, levels: seq<Level>, ready: seq<Item>)
    requires multiset(queue) == AllItems(levels) + multiset(ready) && ready != []
    ensures multiset(queue) - multiset{ready[0]} == AllItems(levels) + multiset(ready[1..])
  {
    MultisetSlice(ready);
  }

  lemma ServeStep(gears: seq<Gear>, levels: seq<Level>, l: nat, ts: nat, range: nat, ready: seq<Item>)
    requires GearsOk(gears) && LevelsOk(gears, levels) && l < |gears| && range > 0
    ensures var f := SlotOf(gears, l, ts, range);
      var q := levels[l][f];
      var k := Share(l, |q|, gears[l].granularity);
      var next := ServeFrom(gears, WithFifo(levels, l, f, q[k..]), l + 1, ts, range);
      && next.0 == ServeFrom(gears, levels, l, ts, range).0
      && (ready + q[..k]) + next.1 == ready + ServeFrom(gears, levels, l, ts, range).1
  {
    hide Slot, Share;
  }

  lemma ServeEnd(gears: seq<Gear>, levels: seq<Level>, ts: nat, range: nat, ready: seq<Item>)
    requires GearsOk(gears) && LevelsOk(gears, levels) && range > 0
    ensures ServeFrom(gears, levels, |gears|, ts, range).0 == levels
    ensures ready + ServeFrom(gears, levels, |gears|, ts, range).1 == ready
  {
  }

  lemma Regroup(all: multiset<Item>, left: multiset<Item>, was: multiset<Item>, served: seq<Item>,
      ready0: seq<Item>, ready: seq<Item>)
    requires left + multiset(served) == all && ready == ready0 + served && was == multiset(ready0)
    ensures all + was == left + multiset(ready)
  {
  }

  // ----- Packets that are left behind -----

  function OneGear(): seq<Gear> {
    [Gear(1, 1)]
  }

  lemma OneSlot(levels: seq<Level>, ts: nat)
    requires LevelsOk(OneGear(), levels)
    ensures GearsOk(OneGear()) && LevelFor(OneGear(), 0, 0) == 0 && PutSlot(ts, 0, 1, 1) == 0
    ensures |levels| == 1 && |levels[0]| == 1 && levels == [[levels[0][0]]]
    ensures AllEmpty(levels) <==> levels[0][0] == []
  {
    hide PutSlot;
    assert levels[0] == [levels[0][0]];
    if levels[0][0] == [] {
      forall l, f | 0 <= l < |levels| && 0 <= f < |levels[l]|
        ensures levels[l][f] == []
      {
        assert l == 0 && f == 0;
      }
    }
  }

  lemma Serves(q: seq<Item>, ts: nat, range: nat)
    requires GearsOk(OneGear()) && LevelsOk(OneGear(), [[q]]) && range > 0
    ensures ServeFrom(OneGear(), [[q]], 0, ts, range) == ([[[]]], q)
  {
    var f := SlotOf(OneGear(), 0, ts, range);
    assert f == 0 && Share(0, |q|, 1) == |q|;
    assert q[|q|..] == [] && q[..|q|] == q && q + [] == q;
    var levels := WithFifo([[q]], 0, f, []);
    assert [q][0 := []] == [[]] && levels == [[[]]];
    assert ServeFrom(OneGear(), levels, 1, ts, range) == (levels, []);
  }

  /** One packet more for the only slot. */
  method Offer(g: GearboxScheduler, pkt: Pkt)
    requires g.Valid() && g.gears == OneGear() && g.bufferPerFifo == 3000.0
    requires |g.levels| == 1 && |g.levels[0]| == 1 && Bytes(g.levels[0][0]) + pkt.length <= 3000
    modifies g
    ensures g.Valid() && g.ready == old(g.ready)
    ensures g.levels == [[old(g.levels)[0][0] + [Item(0.0, pkt)]]]
  {
    hide AllItems, Sorted, Insert, PutSlot, MaxRange, Bytes;
    OneSlot(g.levels, g.ts);
    var accepted := g.Enqueue(pkt, 0);
    OneSlot(g.levels, g.ts);
  }

  method NewOneGear() returns (g: GearboxScheduler)
    ensures fresh(g) && g.Valid() && g.gears == OneGear() && g.ready == [] && g.levels == [[[]]]
    ensures g.bufferPerFifo == 3000.0
  {
    hide AllItems, Sorted, MaxRange, SizesOk, PutSlot;
    OneSlot([[[]]], 0);
    g := new GearboxScheduler(OneGear(), 3000.0, 1);
    OneSlot(g.levels, 0);
  }

  lemma FewBytes(x: Pkt)
    ensures Bytes([]) == 0 && Bytes([] + [Item(0.0, x)]) == x.length
  {
    assert ([] + [Item(0.0, x)])[1..] == [];
  }

  method TwoInOneSlot(x: Pkt, y: Pkt) returns (g: GearboxScheduler)
    requires x.length + y.length <= 3000
    ensures fresh(g) && g.Valid() && g.gears == OneGear() && g.ready == []
    ensures g.levels == [[[Item(0.0, x), Item(0.0, y)]]]
  {
    hide *;
    FewBytes(x);
    g := NewOneGear();
    Offer(g, x);
    Offer(g, y);
    assert [] + [Item(0.0, x)] + [Item(0.0, y)] == [Item(0.0, x), Item(0.0, y)];
  }

  /** Of two packets in the one slot there is, the first request is served, and the next one is not, although the
      other packet is ready. */
  method ReadyButStranded(x: Pkt, y: Pkt) returns (g: GearboxScheduler, first: Served, second: Served)
    requires x.length + y.length <= 3000
    ensures fresh(g) && g.Valid() && first.Sent? && second == Nothing && g.ready == [Item(0.0, y)]
  {
    hide *;
    g := TwoInOneSlot(x, y);
    ghost var q := [Item(0.0, x), Item(0.0, y)];
    Waits(g, q);
    first := g.Dequeue();
    ServesBoth(q, g);
    assert [first.item] + g.ready == q ==> g.ready == q[1..] == [Item(0.0, y)];
    second := g.Dequeue();
  }

  lemma Waits(g: GearboxScheduler, q: seq<Item>)
    requires g.Valid() && g.gears == OneGear() && g.levels == [[q]] && q != []
    ensures !AllEmpty(g.levels)
  {
    hide AllItems, Sorted, MaxRange;
    assert g.levels[0][0] != [];
  }

  lemma ServesBoth(q: seq<Item>, g: GearboxScheduler)
    requires g.Valid() && g.gears == OneGear() && g.ts > 0
    ensures GearsOk(g.gears) && LevelsOk(g.gears, [[q]]) && g.maxRange > 0
    ensures ServeFrom(g.gears, [[q]], 0, g.ts - 1, g.maxRange) == ([[[]]], q)
    ensures AllEmpty([[[]]])
  {
    hide AllItems, Sorted, MaxRange, ServeFrom;
    Serves(q, g.ts - 1, g.maxRange);
  }
}
