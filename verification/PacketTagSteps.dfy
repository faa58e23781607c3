/** The moves that packet tag list operations make on the shared tree, and what each keeps.

A move is a few assignments to counts and pointers, as one function from memory
to memory.  For each it is shown that counts are still the numbers of incoming
pointers, that no pointer leads to a freed node, that lists still end, and what
every list holds afterwards.
*/
module PacketTagSteps {
  import opened ByteStrings
  import opened Sharing
  import opened PacketTagTree

  function Inc(m: Mem, p: Ptr): Mem {
    if p in m.heap then m.(heap := m.heap[p := m.heap[p].(count := m.heap[p].count + 1)]) else m
  }

  function Dec(m: Mem, p: Ptr): Mem
    requires p in m.heap && m.heap[p].count > 0
  {
    m.(heap := m.heap[p := m.heap[p].(count := m.heap[p].count - 1)])
  }

  function Free(m: Mem, p: Ptr): Mem {
    m.(heap := m.heap - {p})
  }

  function Alloc(m: Mem, n: Ptr, d: TagData): Mem {
    m.(heap := m.heap[n := d])
  }

  /** Point slot s, which points to the shared node cur, to a new node n that holds the given tag and
      goes on where cur does. */
  function CopyNode(m: Mem, s: Slot, cur: Ptr, n: Ptr, tid: TypeId, data: seq<Byte>): Mem
    requires HasSlot(m, s) && cur in m.heap && m.heap[cur].count > 0
  {
    var next := m.heap[cur].next;
    Set(Inc(Alloc(Dec(m, cur), n, TagData(data, next, tid, 1)), next), s, n)
  }

  /** Point slot s past the shared node cur. */
  function LinkPast(m: Mem, s: Slot, cur: Ptr): Mem
    requires HasSlot(m, s) && cur in m.heap && m.heap[cur].count > 0
  {
    Inc(Dec(Set(m, s, m.heap[cur].next), cur), m.heap[cur].next)
  }

  /** Point slot s past the private node cur and free it. */
  function Unlink(m: Mem, s: Slot, cur: Ptr): Mem
    requires HasSlot(m, s) && cur in m.heap
  {
    Free(Set(m, s, m.heap[cur].next), cur)
  }

  /** Overwrite the first bytes of a node. */
  function Rewrite(m: Mem, cur: Ptr, data: seq<Byte>): Mem
    requires cur in m.heap
  {
    m.(heap := m.heap[cur := m.heap[cur].(data := data)])
  }

  /** Put a new node in front of a list. */
  function Push(m: Mem, l: ListId, n: Ptr, tid: TypeId, data: seq<Byte>): Mem
    requires l in m.lists
  {
    Set(Alloc(m, n, TagData(data, m.lists[l], tid, 1)), Head(l), n)
  }

  /** Let an empty list share the nodes of another. */
  function Join(m: Mem, l: ListId, p: Ptr): Mem
    requires l in m.lists
  {
    Inc(Set(m, Head(l), p), p)
  }

  /** Give up a list whose first node is shared. */
  function Leave(m: Mem, l: ListId): Mem
    requires l in m.lists && m.lists[l] in m.heap && m.heap[m.lists[l]].count > 0
  {
    Set(Dec(m, m.lists[l]), Head(l), NULL)
  }

  // ----- Numbers of incoming pointers -----

  /** Nothing points to an address that is not in use. */
  lemma FreshRefs(m: Mem, paths: map<ListId, seq<Ptr>>, n: Ptr)
    requires NodesOk(m.heap) && PathsOk(m, paths) && n !in m.heap && n != NULL
    ensures Refs(m, n) == 0
  {
    forall s | HasSlot(m, s)
      ensures Get(m, s) != n
    {
      match s
      case Head(l) => HeadNode(m, paths, l);
      case Link(q) => assert NodeOk(m.heap, m.heap[q]);
    }
    assert Incoming(m, n) == {};
  }

  lemma HeadNode(m: Mem, paths: map<ListId, seq<Ptr>>, l: ListId)
    requires PathsOk(m, paths) && l in m.lists
    ensures m.lists[l] == At(paths[l], 0) && (m.lists[l] != NULL ==> m.lists[l] in m.heap)
  {
    hide Follows;
    assert IsPath(m.heap, m.lists[l], paths[l]);
    if paths[l] != [] {
      StepAt(m, paths, l, 0);
    }
  }

  lemma RefsInc(m: Mem, q: Ptr, p: Ptr)
    ensures Refs(Inc(m, q), p) == Refs(m, p)
  {
    RefsSame(m, Inc(m, q), p);
  }

  lemma RefsDec(m: Mem, q: Ptr, p: Ptr)
    requires q in m.heap && m.heap[q].count > 0
    ensures Refs(Dec(m, q), p) == Refs(m, p)
  {
    RefsSame(m, Dec(m, q), p);
  }

  lemma CopyNodeRefs(m: Mem, s: Slot, cur: Ptr, n: Ptr, tid: TypeId, data: seq<Byte>, p: Ptr)
    requires HasSlot(m, s) && Get(m, s) == cur && cur in m.heap && m.heap[cur].count > 0 && n !in m.heap
    ensures Refs(CopyNode(m, s, cur, n, tid, data), p)
         == Refs(m, p) + One(p == m.heap[cur].next) - One(p == cur) + One(p == n)
  {
    hide Refs;
    var next := m.heap[cur].next;
    var m1 := Dec(m, cur);
    var m2 := Alloc(m1, n, TagData(data, next, tid, 1));
    var m3 := Inc(m2, next);
    RefsDec(m, cur, p);
    RefsAlloc(m1, n, TagData(data, next, tid, 1), p);
    RefsInc(m2, next, p);
    RefsSet(m3, s, n, p);
  }

  lemma LinkPastRefs(m: Mem, s: Slot, cur: Ptr, p: Ptr)
    requires HasSlot(m, s) && Get(m, s) == cur && cur in m.heap && m.heap[cur].count > 0
    requires s != Link(cur)
    ensures Refs(LinkPast(m, s, cur), p) == Refs(m, p) + One(p == m.heap[cur].next) - One(p == cur)
  {
    hide Refs;
    var next := m.heap[cur].next;
    RefsSet(m, s, next, p);
    RefsDec(Set(m, s, next), cur, p);
    RefsInc(Dec(Set(m, s, next), cur), next, p);
  }

  lemma UnlinkRefs(m: Mem, s: Slot, cur: Ptr, p: Ptr)
    requires HasSlot(m, s) && Get(m, s) == cur && cur in m.heap && s != Link(cur)
    ensures Refs(Unlink(m, s, cur), p) == Refs(m, p) - One(p == cur)
  {
    hide Refs;
    var next := m.heap[cur].next;
    RefsSet(m, s, next, p);
    RefsFree(Set(m, s, next), cur, p);
  }

  lemma PushRefs(m: Mem, l: ListId, n: Ptr, tid: TypeId, data: seq<Byte>, p: Ptr)
    requires l in m.lists && n !in m.heap
    ensures Refs(Push(m, l, n, tid, data), p) == Refs(m, p) + One(p == n)
  {
    hide Refs;
    var d := TagData(data, m.lists[l], tid, 1);
    RefsAlloc(m, n, d, p);
    RefsSet(Alloc(m, n, d), Head(l), n, p);
  }

  lemma JoinRefs(m: Mem, l: ListId, q: Ptr, p: Ptr)
    requires l in m.lists
    ensures Refs(Join(m, l, q), p) == Refs(m, p) - One(p == m.lists[l]) + One(p == q)
  {
    hide Refs;
    RefsSet(m, Head(l), q, p);
    RefsInc(Set(m, Head(l), q), q, p);
  }

  lemma LeaveRefs(m: Mem, l: ListId, p: Ptr)
    requires l in m.lists && m.lists[l] in m.heap && m.heap[m.lists[l]].count > 0
    ensures Refs(Leave(m, l), p) == Refs(m, p) - One(p == m.lists[l]) + One(p == NULL)
  {
    hide Refs;
    RefsDec(m, m.lists[l], p);
    RefsSet(Dec(m, m.lists[l]), Head(l), NULL, p);
  }

  // ----- Other lists -----

  /** Lists other than l keep their paths and their tags when only private nodes of l change. */
  ghost predicate OthersKept(m: Mem, m2: Mem, paths: map<ListId, seq<Ptr>>, l: ListId)
    requires PathsOk(m, paths)
  {
    && m2.lists.Keys == m.lists.Keys
    && forall l2 :: l2 in m.lists && l2 != l ==> Kept(m, m2, paths, l2)
  }

  ghost predicate Kept(m: Mem, m2: Mem, paths: map<ListId, seq<Ptr>>, l2: ListId)
    requires PathsOk(m, paths) && l2 in m.lists
  {
    && l2 in m2.lists && m2.lists[l2] == m.lists[l2] && IsPath(m2.heap, m2.lists[l2], paths[l2])
    && (forall i :: 0 <= i < |paths[l2]| ==> paths[l2][i] in m2.heap)
    && Tags(m2.heap, paths[l2]) == View(m, paths, l2)
  }

  lemma KeepOthers(m: Mem, m2: Mem, paths: map<ListId, seq<Ptr>>, l: ListId, i: nat)
    requires Wf(m, paths) && NodesOk(m2.heap) && l in m.lists && Private(m.heap, paths[l], i)
    requires m2.lists.Keys == m.lists.Keys
    requires forall l2 :: l2 in m.lists && l2 != l ==> m2.lists[l2] == m.lists[l2]
    requires forall q :: q in m.heap ==> q in paths[l][..i] || SameBody(m.heap, m2.heap, q)
    ensures OthersKept(m, m2, paths, l)
  {
    forall l2 | l2 in m.lists && l2 != l
      ensures Kept(m, m2, paths, l2)
    {
      KeepOther(m, m2, paths, l, i, l2);
    }
  }

  lemma KeepOther(m: Mem, m2: Mem, paths: map<ListId, seq<Ptr>>, l: ListId, i: nat, l2: ListId)
    requires Wf(m, paths) && NodesOk(m2.heap) && l in m.lists && Private(m.heap, paths[l], i)
    requires m2.lists.Keys == m.lists.Keys && l2 in m.lists && l2 != l && m2.lists[l2] == m.lists[l2]
    requires forall q :: q in m.heap ==> q in paths[l][..i] || SameBody(m.heap, m2.heap, q)
    ensures Kept(m, m2, paths, l2)
  {
    hide Follows, AllOwned, Tags;
    forall j | 0 <= j < |paths[l2]|
      ensures SameBody(m.heap, m2.heap, paths[l2][j])
    {
      StepAt(m, paths, l2, j);
      forall k | 0 <= k < i
        ensures paths[l2][j] != paths[l][k]
      {
        PrivateNode(m, paths, l, k, l2, j);
      }
    }
    PathFrame(m.heap, m2.heap, m.lists[l2], paths[l2]);
  }

  // ----- What a move keeps -----

  ghost predicate Elsewhere(paths: map<ListId, seq<Ptr>>, l: ListId, p: Ptr) {
    exists l2 :: l2 in paths && l2 != l && p in paths[l2]
  }

  /** From m to m2 list l has come to hold view, and no other list has changed. */
  ghost predicate Moved(m: Mem, paths: map<ListId, seq<Ptr>>, m2: Mem, paths2: map<ListId, seq<Ptr>>,
      l: ListId, view: seq<Tag>)
    requires Wf(m, paths)
  {
    && Wf(m2, paths2) && m2.lists.Keys == m.lists.Keys && l in m.lists
    && View(m2, paths2, l) == view
    && forall l2 :: l2 in m.lists && l2 != l ==> View(m2, paths2, l2) == View(m, paths, l2)
  }

  lemma Assemble(m: Mem, paths: map<ListId, seq<Ptr>>, m2: Mem, path2: seq<Ptr>, l: ListId, view: seq<Tag>)
    requires Wf(m, paths) && l in m.lists && NodesOk(m2.heap) && Balanced(m2) && OthersKept(m, m2, paths, l)
    requires IsPath(m2.heap, m2.lists[l], path2) && Distinct(path2)
    requires (forall i :: 0 <= i < |path2| ==> path2[i] in m2.heap) && Tags(m2.heap, path2) == view
    requires forall p :: p in m2.heap ==> p in path2 || Elsewhere(paths, l, p)
    ensures Moved(m, paths, m2, paths[l := path2], l, view)
  {
    hide IsPath, Distinct, Balanced, Tags, NodesOk;
    var paths2 := paths[l := path2];
    forall l2 | l2 in m2.lists
      ensures IsPath(m2.heap, m2.lists[l2], paths2[l2]) && Distinct(paths2[l2])
    {
      assert l2 != l ==> Kept(m, m2, paths, l2);
    }
    forall p | p in m2.heap
      ensures OnSomePath(paths2, p)
    {
      if p in path2 {
        assert l in paths2 && p in paths2[l];
      } else {
        var l2 :| l2 in paths && l2 != l && p in paths[l2];
        assert l2 in paths2 && p in paths2[l2];
      }
    }
    forall l2 | l2 in m.lists && l2 != l
      ensures View(m2, paths2, l2) == View(m, paths, l2)
    {
      assert Kept(m, m2, paths, l2);
    }
  }

  lemma Owner(m: Mem, paths: map<ListId, seq<Ptr>>, l: ListId, p: Ptr)
    requires Wf(m, paths) && l in m.lists && p in m.heap
    ensures p in paths[l] || Elsewhere(paths, l, p)
  {
    assert OnSomePath(paths, p);
  }

  lemma SharedElsewhere(m: Mem, paths: map<ListId, seq<Ptr>>, l: ListId, i: nat, k: nat)
    requires Wf(m, paths) && l in m.lists && i <= k < |paths[l]|
    requires paths[l][i] in m.heap && m.heap[paths[l][i]].count > 1
    ensures Elsewhere(paths, l, paths[l][k])
  {
    SharedTail(m, paths, l, i);
  }

  // ----- Copying a shared node -----

  lemma CopyNodeHeap(m: Mem, s: Slot, cur: Ptr, n: Ptr, tid: TypeId, data: seq<Byte>, m2: Mem)
    requires NodesOk(m.heap) && HasSlot(m, s) && cur in m.heap && m.heap[cur].count > 0
    requires n !in m.heap && n != NULL && m2 == CopyNode(m, s, cur, n, tid, data)
    ensures m2.heap.Keys == m.heap.Keys + {n} && m2.heap[n] == TagData(data, m.heap[cur].next, tid, 1)
    ensures m2.lists == if s.Head? then m.lists[s.list := n] else m.lists
    ensures forall q :: q in m.heap && s != Link(q) ==> SameBody(m.heap, m2.heap, q)
    ensures forall q :: q in m.heap ==> m2.heap[q].data == m.heap[q].data && m2.heap[q].tid == m.heap[q].tid
    ensures forall q :: q in m.heap && s == Link(q) ==> m2.heap[q].next == n
    ensures forall q :: q in m.heap ==>
      m2.heap[q].count == m.heap[q].count - One(q == cur) + One(q == m.heap[cur].next)
  {
    assert NodeOk(m.heap, m.heap[cur]);
  }

  lemma CopyNodeBalanced(m: Mem, paths: map<ListId, seq<Ptr>>, s: Slot, cur: Ptr, n: Ptr, tid: TypeId,
      data: seq<Byte>, m2: Mem)
    requires Wf(m, paths) && HasSlot(m, s) && Get(m, s) == cur && cur in m.heap && m.heap[cur].count > 0
    requires n !in m.heap && n != NULL && m2 == CopyNode(m, s, cur, n, tid, data)
    ensures Balanced(m2)
  {
    hide CopyNode, Refs, IsPath, NodeOk, Distinct;
    CopyNodeHeap(m, s, cur, n, tid, data, m2);
    forall p | p in m2.heap
      ensures m2.heap[p].count == Refs(m2, p)
    {
      CopyNodeRefs(m, s, cur, n, tid, data, p);
      if p == n {
        FreshRefs(m, paths, n);
        NextIsUsed(m, cur, n);
      }
    }
  }

  lemma NextIsUsed(m: Mem, cur: Ptr, n: Ptr)
    requires NodesOk(m.heap) && cur in m.heap && n !in m.heap && n != NULL
    ensures m.heap[cur].next != n
  {
    assert NodeOk(m.heap, m.heap[cur]);
  }

  lemma CopyNodeNodesOk(m: Mem, s: Slot, cur: Ptr, n: Ptr, tid: TypeId, data: seq<Byte>, m2: Mem)
    requires NodesOk(m.heap) && HasSlot(m, s) && cur in m.heap && m.heap[cur].count > 0
    requires n !in m.heap && n != NULL && |data| == MAX_SIZE && tid.size <= MAX_SIZE
    requires m2 == CopyNode(m, s, cur, n, tid, data)
    ensures NodesOk(m2.heap)
  {
    hide CopyNode;
    CopyNodeHeap(m, s, cur, n, tid, data, m2);
    forall q | q in m2.heap
      ensures NodeOk(m2.heap, m2.heap[q])
    {
      if q == n {
        assert NodeOk(m.heap, m.heap[cur]);
      } else {
        assert NodeOk(m.heap, m.heap[q]);
        assert s != Link(q) ==> SameBody(m.heap, m2.heap, q);
      }
    }
  }

  lemma StillIn(path: seq<Ptr>, i: nat, n: Ptr, p: Ptr)
    requires i < |path| && p in path && p != path[i]
    ensures p in path[i := n]
  {
    var k :| 0 <= k < |path| && path[k] == p;
    assert path[i := n][k] == p;
  }

  lemma CopyNodeFollows(m: Mem, paths: map<ListId, seq<Ptr>>, l: ListId, i: nat, n: Ptr, tid: TypeId,
      data: seq<Byte>, m2: Mem, j: nat)
    requires PathsOk(m, paths) && NodesOk(m.heap) && l in m.lists && i < |paths[l]| && j < |paths[l]|
    requires paths[l][i] in m.heap && m.heap[paths[l][i]].count > 0
    requires n !in m.heap && n != NULL && HasSlot(m, SlotAt(l, paths[l], i))
    requires m2 == CopyNode(m, SlotAt(l, paths[l], i), paths[l][i], n, tid, data)
    ensures Follows(m2.heap, paths[l][i := n], j)
  {
    hide CopyNode, IsPath;
    var path, s := paths[l], SlotAt(l, paths[l], i);
    CopyNodeHeap(m, s, path[i], n, tid, data, m2);
    StepAt(m, paths, l, i);
    StepAt(m, paths, l, j);
    if s != Link(path[j]) {
      assert SameBody(m.heap, m2.heap, path[j]);
    }
  }

  /** The conditions under which node i of list l is copied to a new node n. */
  ghost predicate Copying(m: Mem, paths: map<ListId, seq<Ptr>>, l: ListId, i: nat, n: Ptr, tid: TypeId,
      data: seq<Byte>, m2: Mem, path2: seq<Ptr>)
  {
    && Wf(m, paths) && l in m.lists && i < |paths[l]| && Private(m.heap, paths[l], i)
    && paths[l][i] in m.heap && m.heap[paths[l][i]].count > 1
    && n !in m.heap && n != NULL && |data| == MAX_SIZE && tid.size <= MAX_SIZE
    && HasSlot(m, SlotAt(l, paths[l], i))
    && m2 == CopyNode(m, SlotAt(l, paths[l], i), paths[l][i], n, tid, data)
    && path2 == paths[l][i := n]
  }

  lemma CopyNodePath(m: Mem, paths: map<ListId, seq<Ptr>>, l: ListId, i: nat, n: Ptr, tid: TypeId,
      data: seq<Byte>, m2: Mem, path2: seq<Ptr>)
    requires Copying(m, paths, l, i, n, tid, data, m2, path2)
    ensures l in m2.lists && IsPath(m2.heap, m2.lists[l], path2) && Distinct(path2)
  {
    hide CopyNode, Follows, NodesOk, Balanced, AllOwned;
    CopyNodeHeap(m, SlotAt(l, paths[l], i), paths[l][i], n, tid, data, m2);
    PathNodes(m, paths, l);
    SlotPoints(m, paths, l, 0);
    forall j | 0 <= j < |path2|
      ensures Follows(m2.heap, path2, j)
    {
      CopyNodeFollows(m, paths, l, i, n, tid, data, m2, j);
    }
  }

  lemma CopyNodeTags(m: Mem, paths: map<ListId, seq<Ptr>>, l: ListId, i: nat, n: Ptr, tid: TypeId,
      data: seq<Byte>, m2: Mem, path2: seq<Ptr>)
    requires Copying(m, paths, l, i, n, tid, data, m2, path2)
    ensures forall j :: 0 <= j < |path2| ==> path2[j] in m2.heap
    ensures Tags(m2.heap, path2) == View(m, paths, l)[i := Tag(tid, Prefix(data, tid.size))]
  {
    hide CopyNode, IsPath, Private, Balanced, AllOwned, Distinct, NodesOk;
    CopyNodeHeap(m, SlotAt(l, paths[l], i), paths[l][i], n, tid, data, m2);
    PathNodes(m, paths, l);
  }

  lemma CopyNodeOthers(m: Mem, paths: map<ListId, seq<Ptr>>, l: ListId, i: nat, n: Ptr, tid: TypeId,
      data: seq<Byte>, m2: Mem, path2: seq<Ptr>)
    requires Copying(m, paths, l, i, n, tid, data, m2, path2)
    ensures NodesOk(m2.heap) && Balanced(m2) && OthersKept(m, m2, paths, l)
  {
    hide CopyNode, IsPath, NodesOk, Balanced, AllOwned, OthersKept, Incoming, Distinct;
    var s := SlotAt(l, paths[l], i);
    SlotPoints(m, paths, l, i);
    CopyNodeHeap(m, s, paths[l][i], n, tid, data, m2);
    CopyNodeNodesOk(m, s, paths[l][i], n, tid, data, m2);
    CopyNodeBalanced(m, paths, s, paths[l][i], n, tid, data, m2);
    assert i > 0 ==> paths[l][..i][i - 1] == paths[l][i - 1];
    KeepOthers(m, m2, paths, l, i);
  }

  lemma CopyNodeOwned(m: Mem, paths: map<ListId, seq<Ptr>>, l: ListId, i: nat, n: Ptr, tid: TypeId,
      data: seq<Byte>, m2: Mem, path2: seq<Ptr>, p: Ptr)
    requires Copying(m, paths, l, i, n, tid, data, m2, path2) && p in m2.heap
    ensures p in path2 || Elsewhere(paths, l, p)
  {
    hide CopyNode, IsPath, NodesOk, Balanced, AllOwned, Elsewhere;
    CopyNodeHeap(m, SlotAt(l, paths[l], i), paths[l][i], n, tid, data, m2);
    if p == n {
      assert path2[i] == n;
    } else if p == paths[l][i] {
      SharedElsewhere(m, paths, l, i, i);
    } else {
      Owner(m, paths, l, p);
      if p in paths[l] {
        StillIn(paths[l], i, n, p);
      }
    }
  }

  lemma CopyNodePrivate(m: Mem, paths: map<ListId, seq<Ptr>>, l: ListId, i: nat, n: Ptr, tid: TypeId,
      data: seq<Byte>, m2: Mem, path2: seq<Ptr>)
    requires Copying(m, paths, l, i, n, tid, data, m2, path2)
    ensures Private(m2.heap, path2, i + 1)
    ensures i + 1 < |path2| ==> path2[i + 1] in m2.heap && m2.heap[path2[i + 1]].count > 1
  {
    hide CopyNode, IsPath, Balanced, AllOwned;
    CopyNodeHeap(m, SlotAt(l, paths[l], i), paths[l][i], n, tid, data, m2);
    PathNodes(m, paths, l);
    StepAt(m, paths, l, i);
    if i + 1 < |path2| {
      NodeCounted(m, paths, l, i + 1);
    }
    assert forall k :: 0 <= k < i ==> paths[l][k] != paths[l][i] && paths[l][k] != At(paths[l], i + 1);
  }

  /** A node on a path is pointed to. */
  lemma NodeCounted(m: Mem, paths: map<ListId, seq<Ptr>>, l: ListId, i: nat)
    requires Wf(m, paths) && l in m.lists && i < |paths[l]|
    ensures paths[l][i] in m.heap && m.heap[paths[l][i]].count >= 1
  {
    hide Refs, IsPath, Distinct, AllOwned;
    StepAt(m, paths, l, i);
    SlotPoints(m, paths, l, i);
    SomeRef(m, paths[l][i], SlotAt(l, paths[l], i));
  }

  /** Copying the first shared node of a list lets only that list see the copy. */
  lemma CopyNodeKeeps(m: Mem, paths: map<ListId, seq<Ptr>>, l: ListId, i: nat, n: Ptr, tid: TypeId,
      data: seq<Byte>, m2: Mem, path2: seq<Ptr>)
    requires Copying(m, paths, l, i, n, tid, data, m2, path2)
    ensures Moved(m, paths, m2, paths[l := path2], l,
                  View(m, paths, l)[i := Tag(tid, Prefix(data, tid.size))])
  {
    hide CopyNode, IsPath, Distinct, NodesOk, Balanced, AllOwned, OthersKept, Elsewhere, Tags, Moved, HasSlot;
    CopyNodePath(m, paths, l, i, n, tid, data, m2, path2);
    CopyNodeOthers(m, paths, l, i, n, tid, data, m2, path2);
    CopyNodeTags(m, paths, l, i, n, tid, data, m2, path2);
    forall p | p in m2.heap
      ensures p in path2 || Elsewhere(paths, l, p)
    {
      CopyNodeOwned(m, paths, l, i, n, tid, data, m2, path2, p);
    }
    Assemble(m, paths, m2, path2, l, View(m, paths, l)[i := Tag(tid, Prefix(data, tid.size))]);
  }

  // ----- Removing a node from a list -----

  function Without<T>(s: seq<T>, i: nat): seq<T>
    requires i < |s|
  {
    s[..i] + s[i + 1..]
  }

  /** The links of m2 lead list l past its node i; the nodes before it are private. */
  ghost predicate LeadsPast(m: Mem, paths: map<ListId, seq<Ptr>>, l: ListId, i: nat, m2: Mem, path2: seq<Ptr>)
  {
    && Wf(m, paths) && l in m.lists && i < |paths[l]| && Private(m.heap, paths[l], i)
    && path2 == Without(paths[l], i)
    && m2.lists == (if i == 0 then m.lists[l := At(paths[l], 1)] else m.lists)
    && (forall q :: q in m.heap && q != paths[l][i] && (i == 0 || q != paths[l][i - 1]) ==>
          SameBody(m.heap, m2.heap, q))
    && (i > 0 ==> Relinked(m.heap, m2.heap, paths[l][i - 1], At(paths[l], i + 1)))
  }

  /** Node q has got a new link and kept its tag. */
  predicate Relinked(h: Heap, h2: Heap, q: Ptr, next: Ptr) {
    q in h && q in h2 && h2[q].next == next && h2[q].tid == h[q].tid && h2[q].data == h[q].data
  }

  lemma PastDistinct(m: Mem, paths: map<ListId, seq<Ptr>>, l: ListId, i: nat, k: nat)
    requires PathsOk(m, paths) && l in m.lists && i < |paths[l]| && k < |paths[l]| && k != i
    ensures paths[l][k] != paths[l][i] && (i > 0 && k != i - 1 ==> paths[l][k] != paths[l][i - 1])
  {
    hide IsPath;
    assert Distinct(paths[l]);
  }

  lemma WithoutLength<T>(s: seq<T>, i: nat)
    requires i < |s|
    ensures |Without(s, i)| == |s| - 1
  {
  }

  lemma WithoutAt<T>(s: seq<T>, i: nat, j: nat)
    requires i < |s| && j < |s| - 1
    ensures |Without(s, i)| == |s| - 1
    ensures Without(s, i)[j] == s[if j < i then j else j + 1]
    ensures j + 1 < |s| - 1 ==> Without(s, i)[j + 1] == s[if j + 1 < i then j + 1 else j + 2]
  {
  }

  lemma PastFollows(m: Mem, paths: map<ListId, seq<Ptr>>, l: ListId, i: nat, m2: Mem, path2: seq<Ptr>, j: nat)
    requires LeadsPast(m, paths, l, i, m2, path2) && j < |path2| == |Without(View(m, paths, l), i)|
    ensures Follows(m2.heap, path2, j) && TagOf(m2.heap[path2[j]]) == Without(View(m, paths, l), i)[j]
  {
    hide IsPath, NodesOk, Balanced, AllOwned, Private, Distinct, Incoming, Without;
    var k := if j < i then j else j + 1;
    WithoutLength(paths[l], i);
    PathNodes(m, paths, l);
    StepAt(m, paths, l, k);
    StepAt(m, paths, l, i);
    PastDistinct(m, paths, l, i, k);
    WithoutAt(paths[l], i, j);
    WithoutAt(View(m, paths, l), i, j);
    assert i == 0 || k != i - 1 ==> SameBody(m.heap, m2.heap, path2[j]);
  }

  lemma PastPath(m: Mem, paths: map<ListId, seq<Ptr>>, l: ListId, i: nat, m2: Mem, path2: seq<Ptr>)
    requires LeadsPast(m, paths, l, i, m2, path2)
    ensures l in m2.lists && IsPath(m2.heap, m2.lists[l], path2) && Distinct(path2)
    ensures forall j :: 0 <= j < |path2| ==> path2[j] in m2.heap
    ensures Tags(m2.heap, path2) == Without(View(m, paths, l), i)
  {
    hide NodesOk, Balanced, AllOwned, Private;
    SlotPoints(m, paths, l, 0);
    forall j | 0 <= j < |path2|
      ensures Follows(m2.heap, path2, j) && TagOf(m2.heap[path2[j]]) == Without(View(m, paths, l), i)[j]
    {
      PastFollows(m, paths, l, i, m2, path2, j);
    }
  }

  lemma PastOwned(m: Mem, paths: map<ListId, seq<Ptr>>, l: ListId, i: nat, m2: Mem, path2: seq<Ptr>, p: Ptr)
    requires LeadsPast(m, paths, l, i, m2, path2) && p in m.heap && p != paths[l][i]
    ensures p in path2 || Elsewhere(paths, l, p)
  {
    hide IsPath, NodesOk, Balanced, AllOwned, Private, Distinct, Elsewhere, SameBody;
    Owner(m, paths, l, p);
    if p in paths[l] {
      WithoutHas(paths[l], i, p);
    }
  }

  lemma WithoutHas(path: seq<Ptr>, i: nat, p: Ptr)
    requires i < |path| && p in path && p != path[i]
    ensures p in Without(path, i)
  {
    var k :| 0 <= k < |path| && path[k] == p;
    assert Without(path, i)[if k < i then k else k - 1] == p;
  }

  /** List l has lost its node i and nothing else has changed. */
  lemma PastKeeps(m: Mem, paths: map<ListId, seq<Ptr>>, l: ListId, i: nat, m2: Mem, path2: seq<Ptr>)
    requires LeadsPast(m, paths, l, i, m2, path2)
    requires NodesOk(m2.heap) && Balanced(m2)
    requires m2.heap.Keys <= m.heap.Keys
    requires if paths[l][i] in m2.heap then SameBody(m.heap, m2.heap, paths[l][i]) && m.heap[paths[l][i]].count > 1
             else Private(m.heap, paths[l], i + 1)
    ensures Moved(m, paths, m2, paths[l := path2], l, Without(View(m, paths, l), i))
  {
    hide IsPath, Distinct, NodesOk, Balanced, AllOwned, OthersKept, Elsewhere, Tags, Moved, HasSlot;
    PastPath(m, paths, l, i, m2, path2);
    PastOthers(m, paths, l, i, m2, path2);
    forall p | p in m2.heap
      ensures p in path2 || Elsewhere(paths, l, p)
    {
      if p == paths[l][i] {
        SharedElsewhere(m, paths, l, i, i);
      } else {
        PastOwned(m, paths, l, i, m2, path2, p);
      }
    }
    Assemble(m, paths, m2, path2, l, Without(View(m, paths, l), i));
  }

  lemma PastOthers(m: Mem, paths: map<ListId, seq<Ptr>>, l: ListId, i: nat, m2: Mem, path2: seq<Ptr>)
    requires LeadsPast(m, paths, l, i, m2, path2) && NodesOk(m2.heap)
    requires if paths[l][i] in m2.heap then SameBody(m.heap, m2.heap, paths[l][i])
             else Private(m.heap, paths[l], i + 1)
    ensures OthersKept(m, m2, paths, l)
  {
    hide IsPath, Distinct, NodesOk, Balanced, AllOwned, OthersKept;
    var n := if paths[l][i] in m2.heap then i else i + 1;
    var touched := paths[l][..n];
    assert i > 0 ==> touched[i - 1] == paths[l][i - 1];
    assert n > i ==> touched[i] == paths[l][i];
    KeepOthers(m, m2, paths, l, n);
  }

  lemma UnlinkHeap(m: Mem, s: Slot, cur: Ptr, m2: Mem)
    requires NodesOk(m.heap) && HasSlot(m, s) && cur in m.heap && s != Link(cur) && m2 == Unlink(m, s, cur)
    ensures m2.heap.Keys == m.heap.Keys - {cur}
    ensures m2.lists == if s.Head? then m.lists[s.list := m.heap[cur].next] else m.lists
    ensures forall q :: q in m2.heap && s != Link(q) ==> SameBody(m.heap, m2.heap, q)
    ensures forall q :: q in m2.heap ==>
      m2.heap[q] == if s == Link(q) then m.heap[q].(next := m.heap[cur].next) else m.heap[q]
  {
  }

  lemma LinkPastHeap(m: Mem, s: Slot, cur: Ptr, m2: Mem)
    requires NodesOk(m.heap) && HasSlot(m, s) && cur in m.heap && m.heap[cur].count > 0 && s != Link(cur)
    requires m2 == LinkPast(m, s, cur)
    ensures m2.heap.Keys == m.heap.Keys
    ensures m2.lists == if s.Head? then m.lists[s.list := m.heap[cur].next] else m.lists
    ensures forall q :: q in m2.heap && s != Link(q) ==> SameBody(m.heap, m2.heap, q)
    ensures forall q :: q in m2.heap ==> m2.heap[q].tid == m.heap[q].tid && m2.heap[q].data == m.heap[q].data
    ensures forall q :: q in m2.heap && s == Link(q) ==> m2.heap[q].next == m.heap[cur].next
    ensures forall q :: q in m2.heap ==>
      m2.heap[q].count == m.heap[q].count - One(q == cur) + One(q == m.heap[cur].next)
  {
    assert NodeOk(m.heap, m.heap[cur]);
  }

  // ----- The writers of a removal -----

  lemma UnlinkNodesOk(m: Mem, s: Slot, cur: Ptr, m2: Mem)
    requires NodesOk(m.heap) && HasSlot(m, s) && cur in m.heap && s != Link(cur) && m2 == Unlink(m, s, cur)
    requires Refs(m, cur) == 1 && Get(m, s) == cur && m.heap[cur].next != cur
    ensures NodesOk(m2.heap)
  {
    hide Unlink, Refs, Incoming;
    UnlinkHeap(m, s, cur, m2);
    assert NodeOk(m.heap, m.heap[cur]);
    forall q | q in m2.heap
      ensures NodeOk(m2.heap, m2.heap[q])
    {
      assert NodeOk(m.heap, m.heap[q]);
      if s != Link(q) && m.heap[q].next == cur {
        SingleRef(m, cur, s, Link(q));
      }
    }
  }

  lemma UnlinkBalanced(m: Mem, s: Slot, cur: Ptr, m2: Mem)
    requires NodesOk(m.heap) && Balanced(m) && HasSlot(m, s) && Get(m, s) == cur && cur in m.heap && s != Link(cur)
    requires m2 == Unlink(m, s, cur)
    ensures Balanced(m2)
  {
    hide Unlink, Refs, NodeOk, NodesOk;
    UnlinkHeap(m, s, cur, m2);
    forall p | p in m2.heap
      ensures m2.heap[p].count == Refs(m2, p)
    {
      UnlinkRefs(m, s, cur, p);
    }
  }

  lemma LinkPastOk(m: Mem, s: Slot, cur: Ptr, m2: Mem)
    requires NodesOk(m.heap) && Balanced(m) && HasSlot(m, s) && Get(m, s) == cur && cur in m.heap
    requires m.heap[cur].count > 0 && s != Link(cur) && m2 == LinkPast(m, s, cur)
    ensures NodesOk(m2.heap) && Balanced(m2)
  {
    hide LinkPast, Refs;
    LinkPastHeap(m, s, cur, m2);
    assert NodeOk(m.heap, m.heap[cur]);
    forall q | q in m2.heap
      ensures NodeOk(m2.heap, m2.heap[q])
    {
      assert NodeOk(m.heap, m.heap[q]);
      assert s != Link(q) ==> SameBody(m.heap, m2.heap, q);
    }
    forall p | p in m2.heap
      ensures m2.heap[p].count == Refs(m2, p)
    {
      LinkPastRefs(m, s, cur, p);
    }
  }

  lemma NoLoop(m: Mem, paths: map<ListId, seq<Ptr>>, l: ListId, i: nat)
    requires PathsOk(m, paths) && l in m.lists && i < |paths[l]|
    ensures paths[l][i] in m.heap && paths[l][i] != NULL
    ensures m.heap[paths[l][i]].next == At(paths[l], i + 1) != paths[l][i]
    ensures HasSlot(m, SlotAt(l, paths[l], i)) && Get(m, SlotAt(l, paths[l], i)) == paths[l][i]
    ensures SlotAt(l, paths[l], i) != Link(paths[l][i])
  {
    hide IsPath;
    StepAt(m, paths, l, i);
    SlotPoints(m, paths, l, i);
    assert Distinct(paths[l]);
  }

  /** Unlinking and freeing a node before the first shared one. */
  lemma UnlinkKeeps(m: Mem, paths: map<ListId, seq<Ptr>>, l: ListId, i: nat, m2: Mem)
    requires Wf(m, paths) && l in m.lists && i < |paths[l]| && Private(m.heap, paths[l], i + 1)
    requires HasSlot(m, SlotAt(l, paths[l], i)) && paths[l][i] in m.heap
    requires m2 == Unlink(m, SlotAt(l, paths[l], i), paths[l][i])
    ensures Moved(m, paths, m2, paths[l := Without(paths[l], i)], l, Without(View(m, paths, l), i))
  {
    hide Unlink, IsPath, Distinct, NodesOk, Balanced, AllOwned, Moved, HasSlot, Refs, Tags;
    var s, cur := SlotAt(l, paths[l], i), paths[l][i];
    NoLoop(m, paths, l, i);
    PrivateRefs(m, paths[l], i);
    UnlinkHeap(m, s, cur, m2);
    UnlinkNodesOk(m, s, cur, m2);
    UnlinkBalanced(m, s, cur, m2);
    PastIs(m, paths, l, i, m2);
    PastKeeps(m, paths, l, i, m2, Without(paths[l], i));
  }

  /** What unlinking and linking past do to the links. */
  lemma PastIs(m: Mem, paths: map<ListId, seq<Ptr>>, l: ListId, i: nat, m2: Mem)
    requires Wf(m, paths) && l in m.lists && i < |paths[l]| && Private(m.heap, paths[l], i)
    requires var s, next := SlotAt(l, paths[l], i), At(paths[l], i + 1);
      && m2.lists == (if s.Head? then m.lists[s.list := next] else m.lists)
      && m.heap.Keys - {paths[l][i]} <= m2.heap.Keys
      && (forall q :: q in m2.heap && q in m.heap && s != Link(q) ==> SameBody(m.heap, m2.heap, q))
      && (forall q :: q in m2.heap && s == Link(q) ==> Relinked(m.heap, m2.heap, q, next))
    ensures LeadsPast(m, paths, l, i, m2, Without(paths[l], i))
  {
    hide IsPath, NodesOk, Balanced, AllOwned;
    if i > 0 {
      PastDistinct(m, paths, l, i, i - 1);
      StepAt(m, paths, l, i - 1);
    }
  }

  /** Linking past the first shared node. */
  lemma LinkPastKeeps(m: Mem, paths: map<ListId, seq<Ptr>>, l: ListId, i: nat, m2: Mem)
    requires Wf(m, paths) && l in m.lists && i < |paths[l]| && Private(m.heap, paths[l], i)
    requires HasSlot(m, SlotAt(l, paths[l], i)) && paths[l][i] in m.heap && m.heap[paths[l][i]].count > 1
    requires m2 == LinkPast(m, SlotAt(l, paths[l], i), paths[l][i])
    ensures Moved(m, paths, m2, paths[l := Without(paths[l], i)], l, Without(View(m, paths, l), i))
  {
    hide LinkPast, IsPath, Distinct, NodesOk, Balanced, AllOwned, Moved, HasSlot, Refs, Tags;
    var s, cur := SlotAt(l, paths[l], i), paths[l][i];
    NoLoop(m, paths, l, i);
    LinkPastHeap(m, s, cur, m2);
    LinkPastOk(m, s, cur, m2);
    PastIs(m, paths, l, i, m2);
    PastKeeps(m, paths, l, i, m2, Without(paths[l], i));
  }

  // ----- Moves that leave links alone or change only the head -----

  lemma RewriteOk(m: Mem, cur: Ptr, data: seq<Byte>, m2: Mem)
    requires NodesOk(m.heap) && Balanced(m) && cur in m.heap && |data| == MAX_SIZE && m2 == Rewrite(m, cur, data)
    ensures NodesOk(m2.heap) && Balanced(m2)
  {
    hide Refs;
    forall q | q in m2.heap
      ensures NodeOk(m2.heap, m2.heap[q])
    {
      assert NodeOk(m.heap, m.heap[q]);
    }
    forall p | p in m2.heap
      ensures m2.heap[p].count == Refs(m2, p)
    {
      RefsSame(m, m2, p);
    }
  }

  /** Rewriting a node before the first shared one. */
  lemma RewriteKeeps(m: Mem, paths: map<ListId, seq<Ptr>>, l: ListId, i: nat, data: seq<Byte>, m2: Mem)
    requires Wf(m, paths) && l in m.lists && i < |paths[l]| && Private(m.heap, paths[l], i + 1)
    requires paths[l][i] in m.heap && |data| == MAX_SIZE && m2 == Rewrite(m, paths[l][i], data)
    ensures Moved(m, paths, m2, paths, l,
                  var tid := m.heap[paths[l][i]].tid; View(m, paths, l)[i := Tag(tid, Prefix(data, tid.size))])
  {
    hide IsPath, NodesOk, Balanced, AllOwned, Moved, Distinct, OthersKept, Refs, Elsewhere;
    var tid := m.heap[paths[l][i]].tid;
    RewriteOk(m, paths[l][i], data, m2);
    assert paths[l][..i + 1][i] == paths[l][i];
    KeepOthers(m, m2, paths, l, i + 1);
    RewritePath(m, paths, l, i, data, m2);
    forall p | p in m2.heap
      ensures p in paths[l] || Elsewhere(paths, l, p)
    {
      Owner(m, paths, l, p);
    }
    Assemble(m, paths, m2, paths[l], l, View(m, paths, l)[i := Tag(tid, Prefix(data, tid.size))]);
    assert paths[l := paths[l]] == paths;
  }

  lemma RewritePath(m: Mem, paths: map<ListId, seq<Ptr>>, l: ListId, i: nat, data: seq<Byte>, m2: Mem)
    requires PathsOk(m, paths) && l in m.lists && i < |paths[l]|
    requires paths[l][i] in m.heap && m2 == Rewrite(m, paths[l][i], data)
    ensures IsPath(m2.heap, m2.lists[l], paths[l]) && Distinct(paths[l])
    ensures forall j :: 0 <= j < |paths[l]| ==> paths[l][j] in m2.heap
    ensures var tid := m.heap[paths[l][i]].tid;
      Tags(m2.heap, paths[l]) == View(m, paths, l)[i := Tag(tid, Prefix(data, tid.size))]
  {
    PathNodes(m, paths, l);
    forall j | 0 <= j < |paths[l]|
      ensures Follows(m2.heap, paths[l], j)
    {
      StepAt(m, paths, l, j);
    }
  }

  lemma PushOk(m: Mem, paths: map<ListId, seq<Ptr>>, l: ListId, n: Ptr, tid: TypeId, data: seq<Byte>, m2: Mem)
    requires Wf(m, paths) && l in m.lists && n !in m.heap && n != NULL
    requires |data| == MAX_SIZE && tid.size <= MAX_SIZE && m2 == Push(m, l, n, tid, data)
    ensures NodesOk(m2.heap) && Balanced(m2)
  {
    hide Refs, IsPath, Distinct, AllOwned;
    HeadNode(m, paths, l);
    forall q | q in m2.heap
      ensures NodeOk(m2.heap, m2.heap[q])
    {
      assert q in m.heap ==> NodeOk(m.heap, m.heap[q]);
    }
    FreshRefs(m, paths, n);
    forall p | p in m2.heap
      ensures m2.heap[p].count == Refs(m2, p)
    {
      PushRefs(m, l, n, tid, data, p);
    }
  }

  lemma PushPath(m: Mem, paths: map<ListId, seq<Ptr>>, l: ListId, n: Ptr, tid: TypeId, data: seq<Byte>, m2: Mem,
      path2: seq<Ptr>)
    requires PathsOk(m, paths) && l in m.lists && n !in m.heap && n != NULL && m2 == Push(m, l, n, tid, data)
    requires path2 == [n] + paths[l]
    ensures IsPath(m2.heap, m2.lists[l], path2) && Distinct(path2)
    ensures forall j :: 0 <= j < |path2| ==> path2[j] in m2.heap
    ensures Tags(m2.heap, path2) == [Tag(tid, Prefix(data, tid.size))] + View(m, paths, l)
  {
    PathNodes(m, paths, l);
    HeadNode(m, paths, l);
    forall j | 0 <= j < |path2|
      ensures Follows(m2.heap, path2, j)
    {
      if j > 0 {
        StepAt(m, paths, l, j - 1);
      }
    }
  }

  lemma PushKeeps(m: Mem, paths: map<ListId, seq<Ptr>>, l: ListId, n: Ptr, tid: TypeId, data: seq<Byte>, m2: Mem)
    requires Wf(m, paths) && l in m.lists && n !in m.heap && n != NULL
    requires |data| == MAX_SIZE && tid.size <= MAX_SIZE && m2 == Push(m, l, n, tid, data)
    ensures Moved(m, paths, m2, paths[l := [n] + paths[l]], l,
                  [Tag(tid, Prefix(data, tid.size))] + View(m, paths, l))
  {
    hide IsPath, NodesOk, Balanced, AllOwned, Moved, Distinct, OthersKept, Refs, Elsewhere;
    var path2 := [n] + paths[l];
    PushOk(m, paths, l, n, tid, data, m2);
    KeepOthers(m, m2, paths, l, 0);
    PushPath(m, paths, l, n, tid, data, m2, path2);
    forall p | p in m2.heap
      ensures p in path2 || Elsewhere(paths, l, p)
    {
      if p == n {
        assert path2[0] == n;
      } else {
        Owner(m, paths, l, p);
      }
    }
    Assemble(m, paths, m2, path2, l, [Tag(tid, Prefix(data, tid.size))] + View(m, paths, l));
  }

  /** The nodes of m2 are those of m up to their counts. */
  lemma SameNodesOk(h: Heap, h2: Heap)
    requires NodesOk(h) && h2.Keys == h.Keys && forall q :: q in h ==> SameBody(h, h2, q)
    ensures NodesOk(h2)
  {
    forall q | q in h2
      ensures NodeOk(h2, h2[q])
    {
      assert SameBody(h, h2, q) && NodeOk(h, h[q]);
    }
  }

  /** An empty list comes to share what list o holds. */
  lemma JoinKeeps(m: Mem, paths: map<ListId, seq<Ptr>>, l: ListId, o: ListId, m2: Mem)
    requires Wf(m, paths) && l in m.lists && o in m.lists && m.lists[l] == NULL && m2 == Join(m, l, m.lists[o])
    ensures Moved(m, paths, m2, paths[l := paths[o]], l, View(m, paths, o))
  {
    hide IsPath, NodeOk, AllOwned, Moved, Distinct, OthersKept, Refs, Elsewhere;
    SameNodesOk(m.heap, m2.heap);
    forall p | p in m2.heap
      ensures m2.heap[p].count == Refs(m2, p)
    {
      JoinRefs(m, l, m.lists[o], p);
    }
    KeepOthers(m, m2, paths, l, 0);
    EmptyPath(m, paths, l);
    JoinPath(m, paths, l, o, m2);
    forall p | p in m2.heap
      ensures p in paths[o] || Elsewhere(paths, l, p)
    {
      Owner(m, paths, l, p);
    }
    Assemble(m, paths, m2, paths[o], l, View(m, paths, o));
  }

  lemma JoinPath(m: Mem, paths: map<ListId, seq<Ptr>>, l: ListId, o: ListId, m2: Mem)
    requires PathsOk(m, paths) && l in m.lists && o in m.lists && m2 == Join(m, l, m.lists[o])
    ensures IsPath(m2.heap, m2.lists[l], paths[o]) && Distinct(paths[o])
    ensures forall j :: 0 <= j < |paths[o]| ==> paths[o][j] in m2.heap
    ensures Tags(m2.heap, paths[o]) == View(m, paths, o)
  {
    hide Tags;
    PathNodes(m, paths, o);
    PathFrame(m.heap, m2.heap, m.lists[o], paths[o]);
  }

  lemma EmptyPath(m: Mem, paths: map<ListId, seq<Ptr>>, l: ListId)
    requires PathsOk(m, paths) && l in m.lists
    ensures m.lists[l] == NULL <==> paths[l] == []
  {
    HeadNode(m, paths, l);
    if paths[l] != [] {
      StepAt(m, paths, l, 0);
    }
  }

  /** A list whose first node is shared is emptied. */
  lemma LeaveKeeps(m: Mem, paths: map<ListId, seq<Ptr>>, l: ListId, m2: Mem)
    requires Wf(m, paths) && l in m.lists && m.lists[l] in m.heap && m.heap[m.lists[l]].count > 1 && m2 == Leave(m, l)
    ensures Moved(m, paths, m2, paths[l := []], l, [])
  {
    hide IsPath, NodeOk, AllOwned, Moved, Distinct, OthersKept, Refs, Elsewhere;
    SameNodesOk(m.heap, m2.heap);
    forall p | p in m2.heap
      ensures m2.heap[p].count == Refs(m2, p)
    {
      LeaveRefs(m, l, p);
    }
    KeepOthers(m, m2, paths, l, 0);
    HeadNode(m, paths, l);
    EmptyPath(m, paths, l);
    NullPath(m2.heap);
    forall p | p in m2.heap
      ensures p in [] || Elsewhere(paths, l, p)
    {
      Owner(m, paths, l, p);
      if p in paths[l] {
        var k :| 0 <= k < |paths[l]| && paths[l][k] == p;
        SharedElsewhere(m, paths, l, 0, k);
      }
    }
    Assemble(m, paths, m2, [], l, []);
  }

  lemma NullPath(h: Heap)
    ensures IsPath(h, NULL, []) && Distinct([]) && Tags(h, []) == []
  {
  }

  // ----- Making and dropping a list -----

  function NewList(m: Mem, l: ListId): Mem {
    m.(lists := m.lists[l := NULL])
  }

  function DropList(m: Mem, l: ListId): Mem {
    m.(lists := m.lists - {l})
  }

  lemma NewListKeeps(m: Mem, paths: map<ListId, seq<Ptr>>, l: ListId)
    requires Wf(m, paths) && l !in m.lists
    ensures Wf(NewList(m, l), paths[l := []])
    ensures View(NewList(m, l), paths[l := []], l) == []
    ensures forall l2 :: l2 in m.lists ==> View(NewList(m, l), paths[l := []], l2) == View(m, paths, l2)
  {
    hide IsPath, Refs, Distinct, NodeOk;
    var m2, paths2 := NewList(m, l), paths[l := []];
    NullPath(m2.heap);
    forall p | p in m2.heap
      ensures m2.heap[p].count == Refs(m2, p) && OnSomePath(paths2, p)
    {
      RefsNewList(m, l, NULL, p);
      var k :| k in paths && p in paths[k];
      assert k in paths2 && p in paths2[k];
    }
  }

  lemma DropListKeeps(m: Mem, paths: map<ListId, seq<Ptr>>, l: ListId)
    requires Wf(m, paths) && l in m.lists && m.lists[l] == NULL
    ensures Wf(DropList(m, l), paths - {l})
    ensures forall l2 :: l2 in m.lists && l2 != l ==> View(DropList(m, l), paths - {l}, l2) == View(m, paths, l2)
  {
    hide IsPath, Refs, Distinct, NodeOk;
    var m2, paths2 := DropList(m, l), paths - {l};
    EmptyPath(m, paths, l);
    forall p | p in m2.heap
      ensures m2.heap[p].count == Refs(m2, p) && OnSomePath(paths2, p)
    {
      RefsDropList(m, l, p);
      var k :| k in paths && p in paths[k];
      assert k in paths2 && p in paths2[k];
    }
  }
}
