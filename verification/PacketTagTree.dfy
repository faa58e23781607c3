/** The tree of nodes that packet tag lists share. */
module PacketTagTree {
  import opened ByteStrings
  import opened Sharing

  /* Memory is explicit: nodes with reference counts live in a heap indexed by addresses, a freed node is
     out of the heap, and a list is a pointer to its first node.  A pointer stored
     somewhere is a slot: the head of a list or the link of a node. */

  type Ptr = int
  type ListId = int

  const NULL: Ptr := 0
  const MAX_SIZE: nat := 21

  /** A type of tags; size is the number of bytes its tags serialize to. */
  datatype TypeId = TypeId(uid: nat, size: nat)

  datatype Tag = Tag(tid: TypeId, bytes: seq<Byte>)

  /** A serialized tag fits in the buffer of a node. */
  predicate Fits(t: Tag) {
    |t.bytes| == t.tid.size <= MAX_SIZE
  }

  datatype TagData = TagData(data: seq<Byte>, next: Ptr, tid: TypeId, count: nat)

  type Heap = map<Ptr, TagData>

  datatype Mem = Mem(heap: Heap, lists: map<ListId, Ptr>)

  datatype Slot = Head(list: ListId) | Link(node: Ptr)

  predicate HasSlot(m: Mem, s: Slot) {
    match s
    case Head(l) => l in m.lists
    case Link(q) => q in m.heap
  }

  function Get(m: Mem, s: Slot): Ptr
    requires HasSlot(m, s)
  {
    match s
    case Head(l) => m.lists[l]
    case Link(q) => m.heap[q].next
  }

  function Set(m: Mem, s: Slot, p: Ptr): Mem
    requires HasSlot(m, s)
  {
    match s
    case Head(l) => m.(lists := m.lists[l := p])
    case Link(q) => m.(heap := m.heap[q := m.heap[q].(next := p)])
  }

  // ----- Incoming pointers -----

  ghost function Incoming(m: Mem, p: Ptr): (r: set<Slot>)
    ensures forall s :: s in r <==> HasSlot(m, s) && Get(m, s) == p
  {
    (set l | l in m.lists && m.lists[l] == p :: Head(l)) +
    (set q | q in m.heap && m.heap[q].next == p :: Link(q))
  }

  ghost function Refs(m: Mem, p: Ptr): nat {
    |Incoming(m, p)|
  }

  lemma Gained(a: set<Slot>, b: set<Slot>, s: Slot)
    requires forall t :: t in b <==> t in a || t == s
    requires s !in a
    ensures |b| == |a| + 1
  {
    assert b == a + {s};
  }

  lemma Same(a: set<Slot>, b: set<Slot>)
    requires forall t :: t in b <==> t in a
    ensures |b| == |a|
  {
    assert b == a;
  }

  lemma RefsSet(m: Mem, s: Slot, q: Ptr, p: Ptr)
    requires HasSlot(m, s)
    ensures Refs(Set(m, s, q), p) == Refs(m, p) - One(p == Get(m, s)) + One(p == q)
  {
    hide Incoming;
    var m2 := Set(m, s, q);
    var a, b := Incoming(m, p), Incoming(m2, p);
    assert forall t :: HasSlot(m2, t) <==> HasSlot(m, t);
    assert forall t :: HasSlot(m, t) ==> Get(m2, t) == if t == s then q else Get(m, t);
    if (p == q) == (p == Get(m, s)) {
      Same(a, b);
    } else if p == q {
      Gained(a, b, s);
    } else {
      Gained(b, a, s);
    }
  }

  lemma RefsAlloc(m: Mem, n: Ptr, d: TagData, p: Ptr)
    requires n !in m.heap
    ensures Refs(m.(heap := m.heap[n := d]), p) == Refs(m, p) + One(p == d.next)
  {
    hide Incoming;
    var m2 := m.(heap := m.heap[n := d]);
    assert forall t :: HasSlot(m2, t) <==> HasSlot(m, t) || t == Link(n);
    assert forall t :: HasSlot(m, t) ==> Get(m2, t) == Get(m, t);
    if p == d.next {
      Gained(Incoming(m, p), Incoming(m2, p), Link(n));
    } else {
      Same(Incoming(m, p), Incoming(m2, p));
    }
  }

  lemma RefsFree(m: Mem, n: Ptr, p: Ptr)
    requires n in m.heap
    ensures Refs(m.(heap := m.heap - {n}), p) == Refs(m, p) - One(p == m.heap[n].next)
  {
    var m2 := m.(heap := m.heap - {n});
    RefsAlloc(m2, n, m.heap[n], p);
    assert m2.heap[n := m.heap[n]] == m.heap;
  }

  lemma RefsNewList(m: Mem, l: ListId, q: Ptr, p: Ptr)
    requires l !in m.lists
    ensures Refs(m.(lists := m.lists[l := q]), p) == Refs(m, p) + One(p == q)
  {
    hide Incoming;
    var m2 := m.(lists := m.lists[l := q]);
    assert forall t :: HasSlot(m2, t) <==> HasSlot(m, t) || t == Head(l);
    assert forall t :: HasSlot(m, t) ==> Get(m2, t) == Get(m, t);
    if p == q {
      Gained(Incoming(m, p), Incoming(m2, p), Head(l));
    } else {
      Same(Incoming(m, p), Incoming(m2, p));
    }
  }

  lemma RefsDropList(m: Mem, l: ListId, p: Ptr)
    requires l in m.lists
    ensures Refs(m.(lists := m.lists - {l}), p) == Refs(m, p) - One(p == m.lists[l])
  {
    var m2 := m.(lists := m.lists - {l});
    RefsNewList(m2, l, m.lists[l], p);
    assert m2.lists[l := m.lists[l]] == m.lists;
  }

  /** Only links and heads matter to the number of incoming pointers. */
  lemma RefsSame(m: Mem, m2: Mem, p: Ptr)
    requires m2.lists == m.lists && m2.heap.Keys == m.heap.Keys
    requires forall q :: q in m.heap ==> m2.heap[q].next == m.heap[q].next
    ensures Refs(m2, p) == Refs(m, p)
  {
    hide Incoming;
    assert forall t :: HasSlot(m2, t) <==> HasSlot(m, t);
    assert forall t :: HasSlot(m, t) ==> Get(m2, t) == Get(m, t);
    Same(Incoming(m, p), Incoming(m2, p));
  }

  lemma SingleRef(m: Mem, p: Ptr, s: Slot, t: Slot)
    requires Refs(m, p) == 1
    requires HasSlot(m, s) && Get(m, s) == p && HasSlot(m, t) && Get(m, t) == p
    ensures s == t
  {
    var a := Incoming(m, p);
    assert {s} <= a && |a - {s}| == 0;
    assert t !in a - {s};
  }

  lemma SecondRef(m: Mem, p: Ptr, s: Slot) returns (t: Slot)
    requires Refs(m, p) >= 2
    ensures HasSlot(m, t) && Get(m, t) == p && t != s
  {
    var a := Incoming(m, p);
    assert |a - {s}| > 0;
    t :| t in a - {s};
  }

  lemma SomeRef(m: Mem, p: Ptr, s: Slot)
    requires HasSlot(m, s) && Get(m, s) == p
    ensures Refs(m, p) >= 1
  {
    assert {s} <= Incoming(m, p) && |Incoming(m, p) - {s}| >= 0;
  }

  // ----- Paths -----

  /** The node at position i of a path, null past its end. */
  function At(path: seq<Ptr>, i: nat): Ptr {
    if i < |path| then path[i] else NULL
  }

  predicate Follows(h: Heap, path: seq<Ptr>, i: nat) {
    i < |path| && path[i] in h && path[i] != NULL && h[path[i]].next == At(path, i + 1)
  }

  /** The nodes met from p on, following links. */
  ghost predicate IsPath(h: Heap, p: Ptr, path: seq<Ptr>) {
    p == At(path, 0) && forall i :: 0 <= i < |path| ==> Follows(h, path, i)
  }

  ghost predicate Distinct(path: seq<Ptr>) {
    forall i, j :: 0 <= i < j < |path| ==> path[i] != path[j]
  }

  /** The slot that holds the pointer to position i of the path of list l. */
  function SlotAt(l: ListId, path: seq<Ptr>, i: nat): Slot
    requires i <= |path|
  {
    if i == 0 then Head(l) else Link(path[i - 1])
  }

  function Prefix(s: seq<Byte>, k: nat): seq<Byte> {
    if k <= |s| then s[..k] else s
  }

  /** The tag serialized into a node. */
  function TagOf(d: TagData): Tag {
    Tag(d.tid, Prefix(d.data, d.tid.size))
  }

  // ----- Well-formed memory -----

  predicate NodeOk(h: Heap, d: TagData) {
    |d.data| == MAX_SIZE && d.tid.size <= MAX_SIZE && (d.next == NULL || d.next in h)
  }

  predicate NodesOk(h: Heap) {
    NULL !in h && forall p :: p in h ==> NodeOk(h, h[p])
  }

  /** paths gives, for each list, the nodes on it. */
  ghost predicate PathsOk(m: Mem, paths: map<ListId, seq<Ptr>>) {
    && paths.Keys == m.lists.Keys
    && forall l :: l in m.lists ==> IsPath(m.heap, m.lists[l], paths[l]) && Distinct(paths[l])
  }

  /** Every node's count is the number of pointers to it. */
  ghost predicate Balanced(m: Mem) {
    forall p :: p in m.heap ==> m.heap[p].count == Refs(m, p)
  }

  ghost predicate OnSomePath(paths: map<ListId, seq<Ptr>>, p: Ptr) {
    exists l :: l in paths && p in paths[l]
  }

  /** No node is lost: each is on the path of some list. */
  ghost predicate AllOwned(m: Mem, paths: map<ListId, seq<Ptr>>) {
    forall p :: p in m.heap ==> OnSomePath(paths, p)
  }

  ghost predicate Wf(m: Mem, paths: map<ListId, seq<Ptr>>) {
    NodesOk(m.heap) && PathsOk(m, paths) && Balanced(m) && AllOwned(m, paths)
  }

  /** The tags on a path. */
  ghost function Tags(h: Heap, path: seq<Ptr>): (r: seq<Tag>)
    requires forall i :: 0 <= i < |path| ==> path[i] in h
    ensures |r| == |path|
    ensures forall i :: 0 <= i < |path| ==> r[i] == TagOf(h[path[i]])
  {
    seq(|path|, i requires 0 <= i < |path| && path[i] in h => TagOf(h[path[i]]))
  }

  lemma StepAt(m: Mem, paths: map<ListId, seq<Ptr>>, l: ListId, i: nat)
    requires PathsOk(m, paths) && l in m.lists && i < |paths[l]|
    ensures paths[l][i] in m.heap && paths[l][i] != NULL && m.heap[paths[l][i]].next == At(paths[l], i + 1)
  {
    assert Follows(m.heap, paths[l], i);
  }

  lemma PathNodes(m: Mem, paths: map<ListId, seq<Ptr>>, l: ListId)
    requires PathsOk(m, paths) && l in m.lists
    ensures forall i :: 0 <= i < |paths[l]| ==> paths[l][i] in m.heap
  {
    forall i | 0 <= i < |paths[l]|
      ensures paths[l][i] in m.heap
    {
      StepAt(m, paths, l, i);
    }
  }

  /** What a list holds. */
  ghost function View(m: Mem, paths: map<ListId, seq<Ptr>>, l: ListId): seq<Tag>
    requires PathsOk(m, paths) && l in m.lists
  {
    PathNodes(m, paths, l);
    Tags(m.heap, paths[l])
  }

  /** Two heaps agree on a node up to its count. */
  predicate SameBody(h: Heap, h2: Heap, q: Ptr) {
    q in h && q in h2 && h2[q].next == h[q].next && h2[q].tid == h[q].tid && h2[q].data == h[q].data
  }

  lemma PathFrame(h: Heap, h2: Heap, p: Ptr, path: seq<Ptr>)
    requires IsPath(h, p, path)
    requires forall i :: 0 <= i < |path| ==> SameBody(h, h2, path[i])
    ensures IsPath(h2, p, path)
    ensures forall i :: 0 <= i < |path| ==> path[i] in h && path[i] in h2
    ensures Tags(h2, path) == Tags(h, path)
  {
    forall i | 0 <= i < |path|
      ensures Follows(h2, path, i) && path[i] in h && path[i] in h2
    {
      assert Follows(h, path, i) && SameBody(h, h2, path[i]);
    }
  }

  // ----- Sharing -----

  /** The first i nodes of a path are pointed to once. */
  ghost predicate Private(h: Heap, path: seq<Ptr>, i: nat) {
    i <= |path| && forall k :: 0 <= k < i ==> path[k] in h && h[path[k]].count == 1
  }

  lemma SlotPoints(m: Mem, paths: map<ListId, seq<Ptr>>, l: ListId, i: nat)
    requires PathsOk(m, paths) && l in m.lists && i <= |paths[l]|
    ensures HasSlot(m, SlotAt(l, paths[l], i)) && Get(m, SlotAt(l, paths[l], i)) == At(paths[l], i)
  {
    if i > 0 {
      StepAt(m, paths, l, i - 1);
    } else {
      assert IsPath(m.heap, m.lists[l], paths[l]);
    }
  }

  /** A private node of one list is not on any other list. */
  lemma {:induction false} PrivateNode(m: Mem, paths: map<ListId, seq<Ptr>>, l: ListId, i: nat, l2: ListId, j: nat)
    requires PathsOk(m, paths) && Balanced(m) && l in m.lists && l2 in m.lists && l != l2
    requires i < |paths[l]| && Private(m.heap, paths[l], i + 1) && j < |paths[l2]|
    ensures paths[l2][j] != paths[l][i]
    decreases i
  {
    hide IsPath, Incoming, Distinct, Refs;
    var path, path2 := paths[l], paths[l2];
    if path2[j] == path[i] {
      SlotPoints(m, paths, l, i);
      SlotPoints(m, paths, l2, j);
      PrivateRefs(m, path, i);
      SingleRef(m, path[i], SlotAt(l, path, i), SlotAt(l2, path2, j));
      if i > 0 && j > 0 {
        PrivateNode(m, paths, l, i - 1, l2, j - 1);
      }
    }
  }

  lemma PrivateRefs(m: Mem, path: seq<Ptr>, i: nat)
    requires Balanced(m) && i < |path| && Private(m.heap, path, i + 1)
    ensures Refs(m, path[i]) == 1
  {
    hide Refs;
    assert path[i] in m.heap;
  }

  /** A shared node is also on another list. */
  lemma SharedNode(m: Mem, paths: map<ListId, seq<Ptr>>, l: ListId, i: nat) returns (l2: ListId, j: nat)
    requires Wf(m, paths) && l in m.lists && i < |paths[l]|
    requires paths[l][i] in m.heap && m.heap[paths[l][i]].count > 1
    ensures l2 in m.lists && l2 != l && j < |paths[l2]| && paths[l2][j] == paths[l][i]
  {
    hide IsPath, Incoming, Refs;
    var cur := paths[l][i];
    var t := SecondRef(m, cur, SlotAt(l, paths[l], i));
    SlotPoints(m, paths, l, i);
    StepAt(m, paths, l, i);
    match t
    case Head(k) =>
      l2, j := k, 0;
      SlotPoints(m, paths, k, 0);
    case Link(q) =>
      l2 :| l2 in paths && q in paths[l2];
      var k :| 0 <= k < |paths[l2]| && paths[l2][k] == q;
      StepAt(m, paths, l2, k);
      j := k + 1;
  }

  /** Once two lists meet they stay together. */
  lemma {:induction false} TailsAgree(m: Mem, paths: map<ListId, seq<Ptr>>, l: ListId, i: nat, l2: ListId, j: nat,
      k: nat)
    requires PathsOk(m, paths) && l in m.lists && l2 in m.lists
    requires i + k < |paths[l]| && j < |paths[l2]| && paths[l2][j] == paths[l][i]
    ensures j + k < |paths[l2]| && paths[l2][j + k] == paths[l][i + k]
  {
    if k > 0 {
      TailsAgree(m, paths, l, i, l2, j, k - 1);
      StepAt(m, paths, l, i + k - 1);
      StepAt(m, paths, l2, j + k - 1);
      StepAt(m, paths, l, i + k);
    }
  }

  /** What list l holds from position i on is also on another list, when node i is shared. */
  lemma SharedTail(m: Mem, paths: map<ListId, seq<Ptr>>, l: ListId, i: nat)
    requires Wf(m, paths) && l in m.lists && i < |paths[l]|
    requires paths[l][i] in m.heap && m.heap[paths[l][i]].count > 1
    ensures forall k :: i <= k < |paths[l]| ==> exists l2 :: l2 in m.lists && l2 != l && paths[l][k] in paths[l2]
  {
    var l2, j := SharedNode(m, paths, l, i);
    forall k | i <= k < |paths[l]|
      ensures paths[l][k] in paths[l2]
    {
      TailsAgree(m, paths, l, i, l2, j, k - i);
    }
  }
}
