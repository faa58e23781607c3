/** A stable priority queue: entries in arrival order, served by least key and, at equal keys, by arrival. */
module StableQueue {
  import opened Elements

  /** A queued packet: its rank when it arrived. */
  datatype Cell = Cell(rank: nat, pkt: Pkt)

  datatype Entry = Entry(key: nat, cell: Cell)

  /** A cell as an item of the shadow list, which is sorted by the rank on arrival. */
  function ItemOf(cell: Cell): Item {
    Item(cell.rank as real, cell.pkt)
  }

  /** The position of the first entry of least key. */
  function FirstLeast(p: seq<Entry>): (i: nat)
    requires p != []
    ensures i < |p|
    ensures forall j :: 0 <= j < |p| ==> p[i].key <= p[j].key
    ensures forall j :: 0 <= j < i ==> p[i].key < p[j].key
  {
    if |p| == 1 then 0 else
      var i := FirstLeast(p[..|p| - 1]);
      if p[|p| - 1].key < p[i].key then |p| - 1 else i
  }

  function Without(p: seq<Entry>, i: nat): seq<Entry>
    requires i < |p|
  {
    p[..i] + p[i + 1..]
  }

  /** The cells of key k, in arrival order. */
  function Slot(p: seq<Entry>, k: nat): seq<Cell> {
    if p == [] then [] else
      Slot(p[..|p| - 1], k) + if p[|p| - 1].key == k then [p[|p| - 1].cell] else []
  }

  /** The entries of flow f, in arrival order. */
  function FlowOf(p: seq<Entry>, f: nat): seq<Entry> {
    if p == [] then [] else
      FlowOf(p[..|p| - 1], f) + if p[|p| - 1].cell.pkt.flowid == f then [p[|p| - 1]] else []
  }

  /** The total length of the packets of flow f with key k. */
  function FlowBytes(p: seq<Entry>, f: nat, k: nat): nat {
    if p == [] then 0 else
      var e := p[|p| - 1];
      FlowBytes(p[..|p| - 1], f, k) + if e.cell.pkt.flowid == f && e.key == k then e.cell.pkt.length else 0
  }

  function Total(p: seq<Entry>): nat {
    if p == [] then 0 else Total(p[..|p| - 1]) + p[|p| - 1].cell.pkt.length
  }

  lemma Snoc(p: seq<Entry>, e: Entry)
    ensures (p + [e])[..|p + [e]| - 1] == p && (p + [e])[|p + [e]| - 1] == e
  {
  }

  lemma {:induction false} SlotConcat(p: seq<Entry>, q: seq<Entry>, k: nat)
    ensures Slot(p + q, k) == Slot(p, k) + Slot(q, k)
  {
    if q == [] {
      assert p + q == p;
    } else {
      assert (p + q)[..|p + q| - 1] == p + q[..|q| - 1];
      SlotConcat(p, q[..|q| - 1], k);
    }
  }

  lemma {:induction false} FlowOfConcat(p: seq<Entry>, q: seq<Entry>, f: nat)
    ensures FlowOf(p + q, f) == FlowOf(p, f) + FlowOf(q, f)
  {
    if q == [] {
      assert p + q == p;
    } else {
      assert (p + q)[..|p + q| - 1] == p + q[..|q| - 1];
      FlowOfConcat(p, q[..|q| - 1], f);
    }
  }

  lemma {:induction false} FlowBytesConcat(p: seq<Entry>, q: seq<Entry>, f: nat, k: nat)
    ensures FlowBytes(p + q, f, k) == FlowBytes(p, f, k) + FlowBytes(q, f, k)
  {
    if q == [] {
      assert p + q == p;
    } else {
      assert (p + q)[..|p + q| - 1] == p + q[..|q| - 1];
      FlowBytesConcat(p, q[..|q| - 1], f, k);
    }
  }

  lemma {:induction false} TotalConcat(p: seq<Entry>, q: seq<Entry>)
    ensures Total(p + q) == Total(p) + Total(q)
  {
    if q == [] {
      assert p + q == p;
    } else {
      assert (p + q)[..|p + q| - 1] == p + q[..|q| - 1];
      TotalConcat(p, q[..|q| - 1]);
    }
  }

  /** A slot is empty exactly when no entry has its key. */
  lemma {:induction false} SlotEmpty(p: seq<Entry>, k: nat)
    ensures Slot(p, k) == [] <==> forall e :: e in p ==> e.key != k
  {
    if p != [] {
      SlotEmpty(p[..|p| - 1], k);
      assert p == p[..|p| - 1] + [p[|p| - 1]];
    }
  }

  lemma {:induction false} FlowEmpty(p: seq<Entry>, f: nat)
    ensures FlowOf(p, f) == [] <==> forall e :: e in p ==> e.cell.pkt.flowid != f
  {
    if p != [] {
      FlowEmpty(p[..|p| - 1], f);
      assert p == p[..|p| - 1] + [p[|p| - 1]];
    }
  }

  lemma SplitAt(p: seq<Entry>, i: nat)
    requires i < |p|
    ensures p == p[..i] + ([p[i]] + p[i + 1..])
  {
  }

  lemma OneSlot(e: Entry, k: nat)
    ensures Slot([e], k) == if e.key == k then [e.cell] else []
  {
    assert [e][..0] == [];
  }

  lemma OneFlow(e: Entry, f: nat)
    ensures FlowOf([e], f) == if e.cell.pkt.flowid == f then [e] else []
  {
    assert [e][..0] == [];
  }

  lemma SlotParts(p: seq<Entry>, i: nat, k: nat)
    requires i < |p|
    ensures Slot(p, k) == Slot(p[..i], k) + (if p[i].key == k then [p[i].cell] else []) + Slot(p[i + 1..], k)
    ensures Slot(Without(p, i), k) == Slot(p[..i], k) + Slot(p[i + 1..], k)
  {
    hide Slot;
    SplitAt(p, i);
    SlotConcat(p[..i], [p[i]] + p[i + 1..], k);
    SlotConcat([p[i]], p[i + 1..], k);
    SlotConcat(p[..i], p[i + 1..], k);
    OneSlot(p[i], k);
  }

  /** Serving the first entry of least key takes the head of its slot and leaves the other slots alone. */
  lemma ServeSlots(p: seq<Entry>, k: nat)
    requires p != []
    ensures var i := FirstLeast(p);
      Slot(p, k) == (if p[i].key == k then [p[i].cell] else []) + Slot(Without(p, i), k)
  {
    hide Slot, FirstLeast;
    var i := FirstLeast(p);
    SlotParts(p, i, k);
    if p[i].key == k {
      SlotEmpty(p[..i], k);
    }
  }

  /** In every flow keys do not decrease in arrival order. */
  ghost predicate FlowSorted(p: seq<Entry>) {
    forall i, j :: 0 <= i < j < |p| && p[i].cell.pkt.flowid == p[j].cell.pkt.flowid ==> p[i].key <= p[j].key
  }

  lemma FlowParts(p: seq<Entry>, i: nat, f: nat)
    requires i < |p|
    ensures FlowOf(p, f) ==
      FlowOf(p[..i], f) + (if p[i].cell.pkt.flowid == f then [p[i]] else []) + FlowOf(p[i + 1..], f)
    ensures FlowOf(Without(p, i), f) == FlowOf(p[..i], f) + FlowOf(p[i + 1..], f)
  {
    hide FlowOf;
    SplitAt(p, i);
    FlowOfConcat(p[..i], [p[i]] + p[i + 1..], f);
    FlowOfConcat([p[i]], p[i + 1..], f);
    FlowOfConcat(p[..i], p[i + 1..], f);
    OneFlow(p[i], f);
  }

  /** The entry served is the first of its flow. */
  lemma ServeFlows(p: seq<Entry>, f: nat)
    requires p != [] && FlowSorted(p)
    ensures var i := FirstLeast(p);
      FlowOf(p, f) == (if p[i].cell.pkt.flowid == f then [p[i]] else []) + FlowOf(Without(p, i), f)
  {
    hide FlowOf, FirstLeast;
    var i := FirstLeast(p);
    FlowParts(p, i, f);
    if p[i].cell.pkt.flowid == f {
      forall e | e in p[..i]
        ensures e.cell.pkt.flowid != f
      {
        var j :| 0 <= j < i && p[j] == e;
        assert p[i].key < p[j].key;
      }
      FlowEmpty(p[..i], f);
    }
  }

  lemma WithoutSorted(p: seq<Entry>, i: nat)
    requires i < |p| && FlowSorted(p)
    ensures FlowSorted(Without(p, i))
  {
    var w := Without(p, i);
    forall a, b | 0 <= a < b < |w| && w[a].cell.pkt.flowid == w[b].cell.pkt.flowid
      ensures w[a].key <= w[b].key
    {
      assert w[a] == p[if a < i then a else a + 1] && w[b] == p[if b < i then b else b + 1];
    }
  }

  lemma ServeTotal(p: seq<Entry>, i: nat)
    requires i < |p|
    ensures Total(p) == p[i].cell.pkt.length + Total(Without(p, i))
  {
    SplitAt(p, i);
    TotalConcat(p[..i], [p[i]] + p[i + 1..]);
    TotalConcat([p[i]], p[i + 1..]);
    TotalConcat(p[..i], p[i + 1..]);
    assert [p[i]][..0] == [];
  }

  lemma ServeBytes(p: seq<Entry>, i: nat, f: nat, k: nat)
    requires i < |p|
    ensures FlowBytes(p, f, k) == FlowBytes([p[i]], f, k) + FlowBytes(Without(p, i), f, k)
  {
    SplitAt(p, i);
    FlowBytesConcat(p[..i], [p[i]] + p[i + 1..], f, k);
    FlowBytesConcat([p[i]], p[i + 1..], f, k);
    FlowBytesConcat(p[..i], p[i + 1..], f, k);
  }
}
