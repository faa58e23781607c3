/** A stable priority queue keyed by round, with weighted fair ranks: what the rotating calendar queue stands for. */
module CalendarModel {
  import opened Elements
  import opened RoundRanks
  import opened StableQueue
  import ScaleUpModel

  // ----- The state machine -----

  /** What has been accepted, what has been served, and what is held, each in its order. */
  datatype History = History(arrived: seq<Entry>, served: seq<Entry>, pending: seq<Entry>)

  /** The bytes a flow may send in a round, the number of slots, and the bytes a slot may hold. */
  datatype Config = Config(quota: map<nat, real>, fifoNum: nat, bufferPerQueue: real)

  /** The bytes charged to each flow, the sizes recorded for the slots, which do not turn with the slots, and the
      shadow list of what is held, sorted by rank on arrival. */
  datatype State = State(h: History, round: nat, charged: map<nat, real>, sizes: seq<int>, shadow: seq<Item>)

  datatype Call = Offer(pkt: Pkt) | Ask

  datatype Served = Nothing | Sent(pkt: Pkt, rank: nat, rankError: nat)

  /** What a call did: an entry was queued, a packet was turned away, or the caller was served. */
  datatype Outcome = Took(entry: Entry) | Refused(pkt: Pkt) | Gave(served: Served)

  predicate ValidConfig(c: Config) {
    c.fifoNum > 0 && forall f :: f in c.quota ==> c.quota[f] > 0.0
  }

  ghost predicate Shape(c: Config, s: State) {
    && |s.sizes| == c.fifoNum && s.charged.Keys == c.quota.Keys
    && forall f :: f in s.charged ==> s.charged[f] >= 0.0
  }

  function Initial(c: Config): (s: State)
    ensures Shape(c, s)
  {
    State(History([], [], []), 0, map f | f in c.quota :: 0.0, seq(c.fifoNum, _ => 0), [])
  }

  /** The bytes charged to the flow of a packet when it is offered: those before, but at least its quota in the
      rounds gone by, and its own. */
  function Charge(c: Config, s: State, pkt: Pkt): real
    requires ValidConfig(c) && Shape(c, s) && pkt.flowid in c.quota
  {
    ChargedTo(s.charged[pkt.flowid], s.round, c.quota[pkt.flowid], pkt.length)
  }

  /** The round in which the last byte of the packet falls. */
  function KeyOf(c: Config, s: State, pkt: Pkt): (key: nat)
    requires ValidConfig(c) && Shape(c, s) && pkt.flowid in c.quota
    ensures key >= s.round
  {
    ChargeAhead(s.charged[pkt.flowid], s.round, c.quota[pkt.flowid], pkt.length);
    RoundAtLeast(Charge(c, s, pkt), s.round, c.quota[pkt.flowid]);
    RoundOf(Charge(c, s, pkt), c.quota[pkt.flowid])
  }

  function Arrive(h: History, e: Entry): History {
    History(h.arrived + [e], h.served, h.pending + [e])
  }

  /** The entry of least key, the earliest of these, is served. */
  function Serve(h: History): History
    requires h.pending != []
  {
    var i := FirstLeast(h.pending);
    History(h.arrived, h.served + [h.pending[i]], Without(h.pending, i))
  }

  /** A packet of a known flow is charged in any case.  It is queued under the round in which its last byte falls,
      unless that is too far ahead or the size recorded for its slot leaves no room. */
  function OnOffer(c: Config, s: State, pkt: Pkt): (r: (Outcome, State))
    requires ValidConfig(c) && Shape(c, s)
    ensures Shape(c, r.1)
  {
    if pkt.flowid !in c.quota then (Refused(pkt), s) else
      var key := KeyOf(c, s, pkt);
      var n := key - s.round;
      var t := s.(charged := s.charged[pkt.flowid := Charge(c, s, pkt)]);
      if n >= c.fifoNum || (s.sizes[n] + pkt.length) as real > c.bufferPerQueue then (Refused(pkt), t) else
        var e := Entry(key, Cell(n, pkt));
        (Took(e), t.(h := Arrive(s.h, e), sizes := s.sizes[n := s.sizes[n] + pkt.length],
                     shadow := Insert(s.shadow, ItemOf(e.cell))))
  }

  /** The round moves to that of the entry served; its length is taken off the size recorded for the first slot.
      The rank error is the place of the entry in the shadow list. */
  function OnAsk(c: Config, s: State): (r: (Outcome, State))
    requires ValidConfig(c) && Shape(c, s)
    ensures Shape(c, r.1)
  {
    if s.h.pending == [] then (Gave(Nothing), s) else
      var e := s.h.pending[FirstLeast(s.h.pending)];
      (Gave(Sent(e.cell.pkt, e.cell.rank, BisectLeft(s.shadow, ItemOf(e.cell)))),
       s.(h := Serve(s.h), round := e.key, sizes := s.sizes[0 := s.sizes[0] - e.cell.pkt.length],
          shadow := Remove(s.shadow, ItemOf(e.cell))))
  }

  function Respond(c: Config, s: State, call: Call): (r: (Outcome, State))
    requires ValidConfig(c) && Shape(c, s)
    ensures Shape(c, r.1)
  {
    match call
    case Offer(pkt) => OnOffer(c, s, pkt)
    case Ask => OnAsk(c, s)
  }

  function Run(c: Config, calls: seq<Call>): (r: (seq<Outcome>, State))
    requires ValidConfig(c)
    ensures Shape(c, r.1) && |r.0| == |calls|
  {
    if calls == [] then ([], Initial(c)) else
      var (run, s) := Run(c, calls[..|calls| - 1]);
      var (o, t) := Respond(c, s, calls[|calls| - 1]);
      (run + [o], t)
  }

  // ----- Fairness -----

  /** The length of the longest packet. */
  function Longest(p: seq<Entry>): (n: nat)
    ensures forall e :: e in p ==> e.cell.pkt.length <= n
  {
    if p == [] then 0 else
      var n := Longest(p[..|p| - 1]);
      var m := p[|p| - 1].cell.pkt.length;
      assert p == p[..|p| - 1] + [p[|p| - 1]];
      if m > n then m else n
  }

  /** s bytes with key k are fair to a flow that has been charged the given bytes. */
  ghost predicate Fair(s: nat, k: nat, bytes: real, quota: real, longest: nat)
    requires quota > 0.0
  {
    && (k > RoundOf(bytes, quota) ==> s == 0)
    && (k <= RoundOf(bytes, quota) ==> s as real <= longest as real + (bytes - k as real * quota))
    && s as real < longest as real + quota
  }

  /** Charging a flow more bytes, the last len of which may be accepted, stays fair. */
  lemma FairStep(s: nat, k: nat, bytes: real, bytes2: real, len: nat, accepted: bool, quota: real,
      longest: nat, longest2: nat)
    requires quota > 0.0 && bytes >= 0.0 && Fair(s, k, bytes, quota, longest)
    requires bytes2 >= bytes + len as real && longest <= longest2 && (accepted ==> len <= longest2)
    ensures Fair(s + if accepted && k == RoundOf(bytes2, quota) then len else 0, k, bytes2, quota, longest2)
  {
    hide RoundOf;
    var r, r2 := RoundOf(bytes, quota), RoundOf(bytes2, quota);
    RoundBounds(bytes2, quota);
    RoundMonotone(bytes, bytes2, quota);
    QuotasBelow(k, r2, bytes2, quota);
    FairSums(s, k, r, r2, k as real * quota, bytes, bytes2, len, accepted, quota, longest, longest2);
  }

  lemma QuotasBelow(k: int, r: int, bytes: real, quota: real)
    requires quota > 0.0 && r as real * quota <= bytes < (r + 1) as real * quota
    ensures k <= r ==> k as real * quota <= bytes
    ensures k == r ==> bytes < k as real * quota + quota
  {
    Scaled(k as real, r as real, quota);
    assert (r + 1) as real * quota == r as real * quota + quota;
  }

  lemma FairSums(s: nat, k: int, r: int, r2: int, kq: real, bytes: real, bytes2: real, len: nat, accepted: bool,
      quota: real, longest: nat, longest2: nat)
    requires quota > 0.0 && bytes2 >= bytes + len as real && r <= r2
    requires longest <= longest2 && (accepted ==> len <= longest2)
    requires k > r ==> s == 0
    requires k <= r ==> s as real <= longest as real + (bytes - kq)
    requires s as real < longest as real + quota
    requires (k <= r2 ==> kq <= bytes2) && (k == r2 ==> bytes2 < kq + quota)
    ensures var s2 := s + if accepted && k == r2 then len else 0;
      && (k > r2 ==> s2 == 0)
      && (k <= r2 ==> s2 as real <= longest2 as real + (bytes2 - kq))
      && s2 as real < longest2 as real + quota
  {
  }

  lemma FairLonger(s: nat, k: nat, bytes: real, quota: real, longest: nat, longest2: nat)
    requires quota > 0.0 && Fair(s, k, bytes, quota, longest) && longest <= longest2
    ensures Fair(s, k, bytes, quota, longest2)
  {
  }

  lemma LongestSnoc(p: seq<Entry>, e: Entry)
    ensures Longest(p) <= Longest(p + [e]) && e.cell.pkt.length <= Longest(p + [e])
  {
    Snoc(p, e);
  }

  lemma BytesSnoc(p: seq<Entry>, e: Entry, f: nat, k: nat)
    ensures FlowBytes(p + [e], f, k)
         == FlowBytes(p, f, k) + if e.cell.pkt.flowid == f && e.key == k then e.cell.pkt.length else 0
  {
    Snoc(p, e);
  }

  // ----- Order -----

  /** Flows keep their order, nothing is lost, and keys are served in order. */
  ghost predicate InOrder(h: History, round: nat) {
    && (forall f :: FlowOf(h.arrived, f) == FlowOf(h.served, f) + FlowOf(h.pending, f))
    && (forall f, k :: FlowBytes(h.arrived, f, k) == FlowBytes(h.served, f, k) + FlowBytes(h.pending, f, k))
    && multiset(h.arrived) == multiset(h.served) + multiset(h.pending)
    && (forall i, j :: 0 <= i < j < |h.served| ==> h.served[i].key <= h.served[j].key)
    && (forall e :: e in h.served ==> e.key <= round)
    && (forall e :: e in h.pending ==> e.key >= round)
    && FlowSorted(h.pending)
  }

  lemma SnocSorted(p: seq<Entry>, e: Entry)
    requires FlowSorted(p) && forall x :: x in p && x.cell.pkt.flowid == e.cell.pkt.flowid ==> x.key <= e.key
    ensures FlowSorted(p + [e])
  {
  }

  lemma ArriveKeeps(h: History, round: nat, e: Entry)
    requires InOrder(h, round) && e.key >= round
    requires forall x :: x in h.pending && x.cell.pkt.flowid == e.cell.pkt.flowid ==> x.key <= e.key
    ensures InOrder(Arrive(h, e), round)
  {
    hide FlowOf, FlowBytes, FlowSorted;
    SnocSorted(h.pending, e);
    forall f
      ensures FlowOf(h.arrived + [e], f) == FlowOf(h.served, f) + FlowOf(h.pending + [e], f)
    {
      FlowOfConcat(h.arrived, [e], f);
      FlowOfConcat(h.pending, [e], f);
    }
    forall f, k
      ensures FlowBytes(h.arrived + [e], f, k) == FlowBytes(h.served, f, k) + FlowBytes(h.pending + [e], f, k)
    {
      FlowBytesConcat(h.arrived, [e], f, k);
      FlowBytesConcat(h.pending, [e], f, k);
    }
  }

  /** Serving moves on to the round of the entry served. */
  lemma ServeKeeps(h: History, round: nat)
    requires InOrder(h, round) && h.pending != []
    ensures InOrder(Serve(h), h.pending[FirstLeast(h.pending)].key)
  {
    hide FlowOf, FlowBytes, FirstLeast, Without;
    var p, i := h.pending, FirstLeast(h.pending);
    forall f
      ensures FlowOf(h.arrived, f) == FlowOf(h.served + [p[i]], f) + FlowOf(Without(p, i), f)
    {
      FlowOfConcat(h.served, [p[i]], f);
      OneFlow(p[i], f);
      ServeFlows(p, f);
    }
    forall f, k
      ensures FlowBytes(h.arrived, f, k) == FlowBytes(h.served + [p[i]], f, k) + FlowBytes(Without(p, i), f, k)
    {
      FlowBytesConcat(h.served, [p[i]], f, k);
      ServeBytes(p, i, f, k);
    }
    WithoutSorted(p, i);
    WithoutRest(p, i);
    assert p[i].key >= round by {
      assert p[i] in p;
    }
  }

  lemma WithoutRest(p: seq<Entry>, i: nat)
    requires i < |p|
    ensures multiset(p) == multiset{p[i]} + multiset(Without(p, i))
    ensures forall e :: e in Without(p, i) ==> e in p
  {
    assert p == p[..i] + [p[i]] + p[i + 1..];
  }

  // ----- The shadow list -----

  function Held(p: seq<Entry>): multiset<Item> {
    if p == [] then multiset{} else Held(p[..|p| - 1]) + multiset{ItemOf(p[|p| - 1].cell)}
  }

  /** The shadow list holds just the items of the entries held, in order of their ranks on arrival. */
  ghost predicate Mirrored(p: seq<Entry>, shadow: seq<Item>) {
    Sorted(shadow) && multiset(shadow) == Held(p)
  }

  lemma {:induction false} HeldConcat(p: seq<Entry>, q: seq<Entry>)
    ensures Held(p + q) == Held(p) + Held(q)
  {
    if q == [] {
      assert p + q == p;
    } else {
      assert (p + q)[..|p + q| - 1] == p + q[..|q| - 1];
      HeldConcat(p, q[..|q| - 1]);
    }
  }

  lemma HeldOne(e: Entry)
    ensures Held([e]) == multiset{ItemOf(e.cell)}
  {
  }

  lemma ArriveMirrored(p: seq<Entry>, shadow: seq<Item>, e: Entry)
    requires Mirrored(p, shadow)
    ensures Mirrored(p + [e], Insert(shadow, ItemOf(e.cell)))
  {
    hide Held, Sorted, Insert;
    HeldConcat(p, [e]);
    HeldOne(e);
    InsertKeepsSorted(shadow, ItemOf(e.cell));
  }

  lemma HeldWithout(p: seq<Entry>, i: nat)
    requires i < |p|
    ensures Held(p) == Held(Without(p, i)) + multiset{ItemOf(p[i].cell)}
  {
    hide Held;
    assert p == p[..i] + [p[i]] + p[i + 1..];
    HeldConcat(p[..i] + [p[i]], p[i + 1..]);
    HeldConcat(p[..i], [p[i]]);
    HeldConcat(p[..i], p[i + 1..]);
    HeldOne(p[i]);
  }

  lemma ServeMirrored(p: seq<Entry>, shadow: seq<Item>, i: nat)
    requires Mirrored(p, shadow) && i < |p|
    ensures Mirrored(Without(p, i), Remove(shadow, ItemOf(p[i].cell)))
    ensures ItemOf(p[i].cell) in shadow
  {
    hide Held, Sorted, Remove, Without;
    var x := ItemOf(p[i].cell);
    HeldWithout(p, i);
    RemoveIsDifference(shadow, x);
    RemoveKeepsSorted(shadow, x);
    assert x in multiset(shadow);
  }

  /** How many of the entries have come with a lower rank, or with the same rank and a lower packet id. */
  function LowerRanked(p: seq<Entry>, x: Item): nat {
    if p == [] then 0 else
      LowerRanked(p[..|p| - 1], x) + if Less(ItemOf(p[|p| - 1].cell), x) then 1 else 0
  }

  lemma {:induction false} BisectLess(s: seq<Item>, x: Item, y: Item)
    requires Sorted(s) && y in s
    ensures BisectLeft(s, x) == BisectLeft(Remove(s, y), x) + if Less(y, x) then 1 else 0
  {
    if s[0] != y {
      if Less(s[0], x) {
        BisectLess(s[1..], x, y);
      } else {
        var k :| 0 <= k < |s| && s[k] == y;
        LessIsTotalOrder(x, s[0], y);
      }
    } else if !Less(y, x) && |s| > 1 {
      LessIsTotalOrder(x, y, s[1]);
    }
  }

  lemma {:induction false} PlaceCounts(p: seq<Entry>, shadow: seq<Item>, x: Item)
    requires Mirrored(p, shadow)
    ensures BisectLeft(shadow, x) == LowerRanked(p, x)
  {
    if p != [] {
      var t := |p| - 1;
      ServeMirrored(p, shadow, t);
      assert Without(p, t) == p[..t];
      BisectLess(shadow, x, ItemOf(p[t].cell));
      PlaceCounts(p[..t], Remove(shadow, ItemOf(p[t].cell)), x);
    }
  }

  // ----- What every run keeps -----

  /** Every accepted entry belongs to a known flow and falls in a round its flow has been charged up to. */
  ghost predicate Charged(c: Config, charged: map<nat, real>, arrived: seq<Entry>)
    requires ValidConfig(c) && charged.Keys == c.quota.Keys
  {
    forall e :: e in arrived ==>
      && e.cell.pkt.flowid in c.quota
      && e.key <= RoundOf(charged[e.cell.pkt.flowid], c.quota[e.cell.pkt.flowid])
  }

  ghost predicate AllFair(c: Config, charged: map<nat, real>, arrived: seq<Entry>)
    requires ValidConfig(c) && charged.Keys == c.quota.Keys
  {
    forall f, k: nat :: f in c.quota ==>
      Fair(FlowBytes(arrived, f, k), k, charged[f], c.quota[f], Longest(arrived))
  }

  ghost predicate Sound(c: Config, s: State)
    requires ValidConfig(c)
  {
    && Shape(c, s) && InOrder(s.h, s.round)
    && Charged(c, s.charged, s.h.arrived) && AllFair(c, s.charged, s.h.arrived)
    && ScaleUpModel.SumInts(s.sizes) == Total(s.h.pending)
    && Mirrored(s.h.pending, s.shadow)
  }

  /** The rank computation charges the flow of the packet at least its length more, and no other flow. */
  ghost predicate ChargedMore(c: Config, before: map<nat, real>, after: map<nat, real>, pkt: Pkt)
    requires ValidConfig(c)
  {
    var f := pkt.flowid;
    && f in c.quota && before.Keys == c.quota.Keys && after.Keys == c.quota.Keys
    && (forall g :: g in c.quota && g != f ==> after[g] == before[g])
    && before[f] >= 0.0 && after[f] >= before[f] + pkt.length as real
  }

  lemma ChargeKeepsCharged(c: Config, before: map<nat, real>, after: map<nat, real>, arrived: seq<Entry>, pkt: Pkt)
    requires ValidConfig(c) && ChargedMore(c, before, after, pkt) && Charged(c, before, arrived)
    ensures Charged(c, after, arrived)
  {
    hide RoundOf;
    forall e | e in arrived
      ensures e.cell.pkt.flowid in c.quota &&
        e.key <= RoundOf(after[e.cell.pkt.flowid], c.quota[e.cell.pkt.flowid])
    {
      var f := e.cell.pkt.flowid;
      RoundMonotone(before[f], after[f], c.quota[f]);
    }
  }

  /** A packet that is turned away has been charged all the same. */
  lemma RejectKeepsFair(c: Config, before: map<nat, real>, after: map<nat, real>, arrived: seq<Entry>, pkt: Pkt)
    requires ValidConfig(c) && ChargedMore(c, before, after, pkt) && AllFair(c, before, arrived)
    ensures AllFair(c, after, arrived)
  {
    hide RoundOf, Fair, FlowBytes, Longest;
    forall f, k: nat | f in c.quota
      ensures Fair(FlowBytes(arrived, f, k), k, after[f], c.quota[f], Longest(arrived))
    {
      var s, l := FlowBytes(arrived, f, k), Longest(arrived);
      assert Fair(s, k, before[f], c.quota[f], l);
      if f == pkt.flowid {
        FairStep(s, k, before[f], after[f], pkt.length, false, c.quota[f], l, l);
      }
    }
  }

  lemma AcceptKeepsFair(c: Config, before: map<nat, real>, after: map<nat, real>, arrived: seq<Entry>, e: Entry)
    requires ValidConfig(c) && ChargedMore(c, before, after, e.cell.pkt) && AllFair(c, before, arrived)
    requires e.key == RoundOf(after[e.cell.pkt.flowid], c.quota[e.cell.pkt.flowid])
    ensures AllFair(c, after, arrived + [e])
  {
    hide RoundOf, Fair, FlowBytes, Longest;
    var g := e.cell.pkt.flowid;
    var more := arrived + [e];
    Snoc(arrived, e);
    LongestSnoc(arrived, e);
    forall f, k: nat | f in c.quota
      ensures Fair(FlowBytes(more, f, k), k, after[f], c.quota[f], Longest(more))
    {
      var s := FlowBytes(arrived, f, k);
      BytesSnoc(arrived, e, f, k);
      assert Fair(s, k, before[f], c.quota[f], Longest(arrived));
      if f == g {
        FairStep(s, k, before[f], after[f], e.cell.pkt.length, true, c.quota[f], Longest(arrived), Longest(more));
      } else {
        FairLonger(s, k, before[f], c.quota[f], Longest(arrived), Longest(more));
      }
    }
  }

  /** What is held of a flow falls in rounds not after the one its next packet falls in. */
  lemma HeldIsCharged(c: Config, charged: map<nat, real>, h: History, round: nat, e: Entry)
    requires ValidConfig(c) && charged.Keys == c.quota.Keys && Charged(c, charged, h.arrived) && InOrder(h, round)
    requires e.cell.pkt.flowid in c.quota
    requires e.key == RoundOf(charged[e.cell.pkt.flowid], c.quota[e.cell.pkt.flowid])
    ensures Charged(c, charged, h.arrived + [e])
    ensures forall x :: x in h.pending && x.cell.pkt.flowid == e.cell.pkt.flowid ==> x.key <= e.key
  {
    hide RoundOf;
    forall x | x in h.pending
      ensures x in h.arrived
    {
      assert x in multiset(h.pending) && x in multiset(h.arrived);
    }
  }

  lemma {:induction false} SumUpdate(s: seq<int>, i: nat, v: int)
    requires i < |s|
    ensures ScaleUpModel.SumInts(s[i := v]) == ScaleUpModel.SumInts(s) - s[i] + v
  {
    var n := |s| - 1;
    if i < n {
      assert s[i := v][..n] == s[..n][i := v];
      SumUpdate(s[..n], i, v);
    } else {
      assert s[i := v][..n] == s[..n];
    }
  }

  lemma {:induction false} SumZeros(n: nat)
    ensures ScaleUpModel.SumInts(seq(n, _ => 0)) == 0
  {
    if n > 0 {
      assert seq(n, _ => 0)[..n - 1] == seq(n - 1, _ => 0);
      SumZeros(n - 1);
    }
  }

  lemma TotalSnoc(p: seq<Entry>, e: Entry)
    ensures Total(p + [e]) == Total(p) + e.cell.pkt.length
  {
    Snoc(p, e);
  }

  lemma InitialIsSound(c: Config)
    requires ValidConfig(c)
    ensures Sound(c, Initial(c))
  {
    hide InOrder, AllFair, Fair, RoundOf, FlowOf, FlowBytes, Longest;
    SumZeros(c.fifoNum);
    EmptyInOrder();
    InitialIsFair(c);
  }

  lemma EmptyInOrder()
    ensures InOrder(History([], [], []), 0) && Total([]) == 0 && Mirrored([], [])
  {
    hide RoundOf;
  }

  lemma InitialIsFair(c: Config)
    requires ValidConfig(c)
    ensures AllFair(c, Initial(c).charged, [])
  {
    hide RoundOf, Fair;
    forall f, k: nat | f in c.quota
      ensures Fair(FlowBytes([], f, k), k, 0.0, c.quota[f], Longest([]))
    {
      StartFair(k, 0.0, c.quota[f]);
    }
  }

  lemma StartFair(k: nat, bytes: real, quota: real)
    requires quota > 0.0 && bytes >= 0.0
    ensures Fair(0, k, bytes, quota, 0)
  {
    hide RoundOf;
    RoundBounds(bytes, quota);
    QuotasBelow(k, RoundOf(bytes, quota), bytes, quota);
  }

  lemma OfferKeeps(c: Config, s: State, pkt: Pkt)
    requires ValidConfig(c) && Sound(c, s)
    ensures Sound(c, OnOffer(c, s, pkt).1)
  {
    hide RoundOf, Fair, InOrder, ScaleUpModel.SumInts, Longest, FlowBytes, AllFair, Charged, Total, Mirrored, Insert;
    if pkt.flowid in c.quota {
      var key, after := KeyOf(c, s, pkt), s.charged[pkt.flowid := Charge(c, s, pkt)];
      var n, e := key - s.round, Entry(key, Cell(key - s.round, pkt));
      assert ChargedMore(c, s.charged, after, pkt);
      ChargeKeepsCharged(c, s.charged, after, s.h.arrived, pkt);
      if n >= c.fifoNum || (s.sizes[n] + pkt.length) as real > c.bufferPerQueue {
        RejectKeepsFair(c, s.charged, after, s.h.arrived, pkt);
      } else {
        AcceptKeepsFair(c, s.charged, after, s.h.arrived, e);
        HeldIsCharged(c, after, s.h, s.round, e);
        ArriveKeeps(s.h, s.round, e);
        ArriveMirrored(s.h.pending, s.shadow, e);
        TotalSnoc(s.h.pending, e);
        SumUpdate(s.sizes, n, s.sizes[n] + pkt.length);
      }
    }
  }

  lemma AskKeeps(c: Config, s: State)
    requires ValidConfig(c) && Sound(c, s)
    ensures Sound(c, OnAsk(c, s).1) && OnAsk(c, s).1.round >= s.round
  {
    hide RoundOf, Fair, InOrder, ScaleUpModel.SumInts, Longest, FlowBytes, AllFair, Charged, Total, FirstLeast,
         Without, Mirrored, Remove, BisectLeft;
    if s.h.pending != [] {
      var i := FirstLeast(s.h.pending);
      ServeKeeps(s.h, s.round);
      ServeTotal(s.h.pending, i);
      ServeMirrored(s.h.pending, s.shadow, i);
      LeastIsDue(s, i);
      SumUpdate(s.sizes, 0, s.sizes[0] - s.h.pending[i].cell.pkt.length);
    }
  }

  lemma LeastIsDue(s: State, i: nat)
    requires InOrder(s.h, s.round) && i < |s.h.pending|
    ensures s.h.pending[i].key >= s.round
  {
    hide FlowOf, FlowBytes;
    assert s.h.pending[i] in s.h.pending;
  }

  /** In every run flows keep their order, rounds are served in order, nothing is lost, every flow is charged for
      what it sends, and the recorded sizes add up to what is held. */
  lemma {:induction false} RunIsSound(c: Config, calls: seq<Call>)
    requires ValidConfig(c)
    ensures Sound(c, Run(c, calls).1)
  {
    hide Sound, Respond, Initial;
    if calls == [] {
      InitialIsSound(c);
    } else {
      var n := |calls| - 1;
      RunIsSound(c, calls[..n]);
      RespondKeeps(c, Run(c, calls[..n]).1, calls[n]);
    }
  }

  lemma RespondKeeps(c: Config, s: State, call: Call)
    requires ValidConfig(c) && Shape(c, s) && Sound(c, s)
    ensures Sound(c, Respond(c, s, call).1)
  {
    hide Sound, OnOffer, OnAsk, Shape;
    match call
    case Offer(pkt) => OfferKeeps(c, s, pkt);
    case Ask => AskKeeps(c, s);
  }

  // ----- Room -----

  /** What a slot may record. */
  function Room(c: Config): real {
    if c.bufferPerQueue > 0.0 then c.bufferPerQueue else 0.0
  }

  ghost predicate Bounded(c: Config, s: State) {
    forall j :: 0 <= j < |s.sizes| ==> s.sizes[j] as real <= Room(c)
  }

  /** In every run no slot records more than its share of the buffer. */
  lemma {:induction false} RunIsBounded(c: Config, calls: seq<Call>)
    requires ValidConfig(c)
    ensures Bounded(c, Run(c, calls).1)
  {
    hide Respond, Bounded, Initial;
    if calls == [] {
      InitialIsBounded(c);
    } else {
      RunIsBounded(c, calls[..|calls| - 1]);
      RespondBounded(c, Run(c, calls[..|calls| - 1]).1, calls[|calls| - 1]);
    }
  }

  lemma InitialIsBounded(c: Config)
    requires ValidConfig(c)
    ensures Bounded(c, Initial(c))
  {
  }

  lemma RespondBounded(c: Config, s: State, call: Call)
    requires ValidConfig(c) && Shape(c, s) && Bounded(c, s)
    ensures Bounded(c, Respond(c, s, call).1)
  {
    hide KeyOf, Charge, FirstLeast, Without, BisectLeft, Insert, Remove;
  }

  /** So what is held never exceeds the buffer. */
  lemma HeldIsBounded(c: Config, calls: seq<Call>)
    requires ValidConfig(c)
    ensures Total(Run(c, calls).1.h.pending) as real <= c.fifoNum as real * Room(c)
  {
    hide Run, Room, InOrder, Charged, AllFair, Mirrored, Total, ScaleUpModel.SumInts;
    RunIsSound(c, calls);
    RunIsBounded(c, calls);
    SumBounded(Run(c, calls).1.sizes, Room(c));
  }

  lemma {:induction false} SumBounded(s: seq<int>, most: real)
    requires forall j :: 0 <= j < |s| ==> s[j] as real <= most
    ensures ScaleUpModel.SumInts(s) as real <= |s| as real * most
  {
    if s != [] {
      var n := |s| - 1;
      SumBounded(s[..n], most);
      assert |s| as real * most == n as real * most + most;
    }
  }

  // ----- What a caller sees -----

  function Accepted(run: seq<Outcome>): seq<Entry> {
    if run == [] then [] else
      Accepted(run[..|run| - 1]) + if run[|run| - 1].Took? then [run[|run| - 1].entry] else []
  }

  /** What has been given out. */
  function Output(run: seq<Outcome>): seq<Served> {
    if run == [] then [] else
      var o := run[|run| - 1];
      Output(run[..|run| - 1]) + if o.Gave? && o.served.Sent? then [o.served] else []
  }

  /** What has been given out are the packets of the entries served, with their ranks, in order. */
  predicate Gives(out: seq<Served>, served: seq<Entry>) {
    |out| == |served| && forall k :: 0 <= k < |out| ==>
      out[k].Sent? && out[k].pkt == served[k].cell.pkt && out[k].rank == served[k].cell.rank
  }

  /** The history of a run records just what it accepted and what it gave out. */
  lemma {:induction false} HistoryOfRun(c: Config, calls: seq<Call>)
    requires ValidConfig(c)
    ensures var (run, s) := Run(c, calls); s.h.arrived == Accepted(run) && Gives(Output(run), s.h.served)
  {
    hide Respond, Initial, Gives;
    if calls == [] {
      NothingGiven(c);
    } else {
      var n := |calls| - 1;
      HistoryOfRun(c, calls[..n]);
      var (run, s) := Run(c, calls[..n]);
      var o := Respond(c, s, calls[n]).0;
      assert (run + [o])[..n] == run;
      RespondRecords(c, s, calls[n], Output(run));
    }
  }

  lemma NothingGiven(c: Config)
    requires ValidConfig(c)
    ensures Initial(c).h.arrived == [] && Gives([], Initial(c).h.served)
  {
  }

  lemma RespondRecords(c: Config, s: State, call: Call, out: seq<Served>)
    requires ValidConfig(c) && Shape(c, s) && Gives(out, s.h.served)
    ensures var (o, t) := Respond(c, s, call);
      && t.h.arrived == s.h.arrived + (if o.Took? then [o.entry] else [])
      && Gives(out + (if o.Gave? && o.served.Sent? then [o.served] else []), t.h.served)
  {
    hide FirstLeast, Without, KeyOf, Charge, BisectLeft, Insert, Remove, ItemOf;
  }

  /** After every run, a request is answered with the entry of least round, the earliest of these; its rank error is
      the number of entries held that came with a lower rank, whatever their rounds. */
  lemma AskAnswers(c: Config, calls: seq<Call>)
    requires ValidConfig(c)
    ensures var s := Run(c, calls).1;
      OnAsk(c, s).0 == Gave(
        if s.h.pending == [] then Nothing else
          var cell := s.h.pending[FirstLeast(s.h.pending)].cell;
          Sent(cell.pkt, cell.rank, LowerRanked(s.h.pending, ItemOf(cell))))
  {
    hide Run, FirstLeast, Mirrored, BisectLeft, LowerRanked, Remove, InOrder, Charged, AllFair;
    RunIsSound(c, calls);
    var s := Run(c, calls).1;
    if s.h.pending != [] {
      PlaceCounts(s.h.pending, s.shadow, ItemOf(s.h.pending[FirstLeast(s.h.pending)].cell));
    }
  }

  /** In every run each flow's packets leave in the order in which they were accepted, rounds served never
      decrease, nothing is lost, and the bytes of a flow served in one round are fewer than its quota and one
      longest packet. */
  lemma RunIsFair(c: Config, calls: seq<Call>, f: nat, k: nat, i: nat, j: nat)
    requires ValidConfig(c)
    ensures var (run, s) := Run(c, calls);
      && FlowOf(s.h.served, f) <= FlowOf(Accepted(run), f)
      && (i < j < |s.h.served| ==> s.h.served[i].key <= s.h.served[j].key)
      && multiset(Accepted(run)) == multiset(s.h.served) + multiset(s.h.pending)
      && (f in c.quota ==> FlowBytes(s.h.served, f, k) as real < c.quota[f] + Longest(Accepted(run)) as real)
  {
    hide FlowOf, FlowBytes, Longest, RoundOf, Run, Total, ScaleUpModel.SumInts;
    RunIsSound(c, calls);
    HistoryOfRun(c, calls);
    var s := Run(c, calls).1;
    assert f in c.quota ==> Fair(FlowBytes(s.h.arrived, f, k), k, s.charged[f], c.quota[f], Longest(s.h.arrived));
  }
}
