/** Packet tag lists with copy-on-write: the operations, on shared nodes, and what each list sees.

Copies of a list share its nodes.  A list may only change nodes that no other
list leads to; these are the ones before the first node with a count above one.
From there on an operation copies nodes until it reaches the one to be changed.
*/
module PacketTagLists {
  import opened Addresses
  import opened ByteStrings
  import opened PacketTagTree
  import opened PacketTagSteps

  // ----- What a list is to its user -----

  /** The position of the first tag of the given type, or the length of the list. */
  function FindTag(v: seq<Tag>, tid: TypeId): (k: nat)
    ensures k <= |v|
    ensures k < |v| ==> v[k].tid == tid
    ensures forall j :: 0 <= j < k ==> v[j].tid != tid
  {
    if v == [] || v[0].tid == tid then 0 else 1 + FindTag(v[1..], tid)
  }

  lemma FindTagIs(v: seq<Tag>, tid: TypeId, k: nat)
    requires k <= |v| && (k < |v| ==> v[k].tid == tid) && forall j :: 0 <= j < k ==> v[j].tid != tid
    ensures FindTag(v, tid) == k
  {
  }

  function RemoveTag(v: seq<Tag>, tid: TypeId): seq<Tag> {
    var k := FindTag(v, tid);
    if k < |v| then Without(v, k) else v
  }

  function ReplaceTag(v: seq<Tag>, tag: Tag): seq<Tag> {
    var k := FindTag(v, tag.tid);
    if k < |v| then v[k := tag] else [tag] + v
  }

  datatype Writer = RemoveWriter | ReplaceWriter(bytes: seq<Byte>)

  /** What a writer makes of a list at a position. */
  function Written(v: seq<Tag>, k: nat, w: Writer): seq<Tag>
    requires k < |v|
  {
    match w
    case RemoveWriter => Without(v, k)
    case ReplaceWriter(bytes) => v[k := Tag(v[k].tid, bytes)]
  }

  /** The buffer of a node after serializing a tag at its start. */
  function Serialize(data: seq<Byte>, bytes: seq<Byte>): (r: seq<Byte>)
    requires |bytes| <= |data|
    ensures |r| == |data| && Prefix(r, |bytes|) == bytes
  {
    bytes + data[|bytes|..]
  }

  type Views = map<ListId, seq<Tag>>

  // ----- Chains of moves -----

  lemma NotMoved(m: Mem, paths: map<ListId, seq<Ptr>>, l: ListId)
    requires Wf(m, paths) && l in m.lists
    ensures Moved(m, paths, m, paths, l, View(m, paths, l))
  {
  }

  lemma MovedOn(m: Mem, paths: map<ListId, seq<Ptr>>, m1: Mem, paths1: map<ListId, seq<Ptr>>, v1: seq<Tag>,
      m2: Mem, paths2: map<ListId, seq<Ptr>>, l: ListId, v2: seq<Tag>)
    requires Wf(m, paths) && Moved(m, paths, m1, paths1, l, v1) && Moved(m1, paths1, m2, paths2, l, v2)
    ensures Moved(m, paths, m2, paths2, l, v2)
  {
    hide NodesOk, PathsOk, Balanced, AllOwned;
  }

  lemma MovedWf(m: Mem, paths: map<ListId, seq<Ptr>>, m2: Mem, paths2: map<ListId, seq<Ptr>>, l: ListId, v: seq<Tag>)
    requires Wf(m, paths) && Moved(m, paths, m2, paths2, l, v)
    ensures Wf(m2, paths2) && l in m2.lists && View(m2, paths2, l) == v
    ensures m2.lists.Keys == m.lists.Keys
  {
  }

  lemma ViewAt(m: Mem, paths: map<ListId, seq<Ptr>>, l: ListId, i: nat)
    requires Wf(m, paths) && l in m.lists && i < |paths[l]|
    ensures |View(m, paths, l)| == |paths[l]|
    ensures paths[l][i] in m.heap && paths[l][i] != NULL && View(m, paths, l)[i] == TagOf(m.heap[paths[l][i]])
    ensures |m.heap[paths[l][i]].data| == MAX_SIZE && m.heap[paths[l][i]].tid.size <= MAX_SIZE
    ensures m.heap[paths[l][i]].next == At(paths[l], i + 1) != paths[l][i]
    ensures m.heap[paths[l][i]].count >= 1
    ensures HasSlot(m, SlotAt(l, paths[l], i)) && Get(m, SlotAt(l, paths[l], i)) == paths[l][i]
  {
    hide IsPath, AllOwned, Distinct;
    NoLoop(m, paths, l, i);
    NodeCounted(m, paths, l, i);
    assert NodeOk(m.heap, m.heap[paths[l][i]]);
  }

  lemma ViewLength(m: Mem, paths: map<ListId, seq<Ptr>>, l: ListId)
    requires PathsOk(m, paths) && l in m.lists
    ensures l in paths && |View(m, paths, l)| == |paths[l]| && m.lists[l] == At(paths[l], 0)
  {
    HeadNode(m, paths, l);
  }

  /** Lists with the same first node hold the same. */
  lemma SameHead(m: Mem, paths: map<ListId, seq<Ptr>>, l: ListId, o: ListId)
    requires Wf(m, paths) && l in m.lists && o in m.lists && m.lists[l] == m.lists[o]
    ensures View(m, paths, l) == View(m, paths, o)
  {
    hide IsPath, AllOwned, Distinct, Balanced, NodesOk;
    EmptyPath(m, paths, l);
    EmptyPath(m, paths, o);
    HeadNode(m, paths, l);
    HeadNode(m, paths, o);
    if paths[l] != [] {
      TailsAgree(m, paths, l, 0, o, 0, |paths[l]| - 1);
      TailsAgree(m, paths, o, 0, l, 0, |paths[o]| - 1);
      forall k | 0 <= k < |paths[l]|
        ensures paths[o][k] == paths[l][k]
      {
        TailsAgree(m, paths, l, 0, o, 0, k);
      }
      assert paths[o] == paths[l];
    }
  }

  // ----- The operations -----

  /** What each list holds. */
  ghost function HoldsOf(m: Mem, paths: map<ListId, seq<Ptr>>): (v: Views)
    requires PathsOk(m, paths)
    ensures v.Keys == m.lists.Keys
    ensures forall l :: l in m.lists ==> v[l] == View(m, paths, l)
  {
    map l | l in m.lists :: View(m, paths, l)
  }

  lemma HoldsMoved(m: Mem, paths: map<ListId, seq<Ptr>>, m2: Mem, paths2: map<ListId, seq<Ptr>>, l: ListId, v: seq<Tag>)
    requires Wf(m, paths) && Moved(m, paths, m2, paths2, l, v)
    ensures Wf(m2, paths2) && l in m2.lists
    ensures HoldsOf(m2, paths2) == HoldsOf(m, paths)[l := v]
  {
    hide NodesOk, Balanced, AllOwned, View;
  }

  /** h is g with a node still to be freed. */
  predicate Pending(h: Heap, g: Heap, prev: Ptr) {
    if prev == NULL then h == g else prev in h && prev !in g && h == g[prev := h[prev]]
  }

  lemma StartWalk(m: Mem, paths: map<ListId, seq<Ptr>>, l: ListId)
    requires Wf(m, paths) && l in m.lists
    ensures m.lists == m.lists[l := m.lists[l]] && Pending(m.heap, m.heap, NULL)
    ensures Moved(m, paths, m, paths, l, View(m, paths, l))
  {
  }

  lemma HeadStep(m0: Mem, p0: map<ListId, seq<Ptr>>, g: Mem, gp: map<ListId, seq<Ptr>>, l: ListId, left: seq<Tag>,
      h: Heap, prev: Ptr)
    requires Wf(m0, p0) && Moved(m0, p0, g, gp, l, left) && g.lists[l] != NULL && Pending(h, g.heap, prev)
    ensures var cur := g.lists[l];
      cur in h && cur in g.heap && h[cur] == g.heap[cur] && h[cur].count >= 1 && cur != prev
    ensures left != [] && |gp[l]| == |left| && gp[l][0] == g.lists[l]
  {
    hide NodesOk, Balanced, AllOwned;
    EmptyPath(g, gp, l);
    ViewLength(g, gp, l);
    ViewAt(g, gp, l, 0);
  }

  /** The first node is shared: only its count has gone down. */
  lemma LeaveStep(m0: Mem, p0: map<ListId, seq<Ptr>>, g: Mem, gp: map<ListId, seq<Ptr>>, l: ListId, left: seq<Tag>,
      h0: Heap, h: Heap, prev: Ptr)
    requires Wf(m0, p0) && Moved(m0, p0, g, gp, l, left)
    requires var cur := g.lists[l];
      cur in g.heap && g.heap[cur].count > 1 && cur != prev &&
      h == h0[cur := g.heap[cur].(count := g.heap[cur].count - 1)]
    requires Pending(h0, g.heap, prev)
    ensures Moved(m0, p0, Leave(g, l), gp[l := []], l, [])
    ensures Leave(g, l).lists == g.lists[l := NULL] && Pending(h, Leave(g, l).heap, prev)
  {
    hide NodesOk, Balanced, AllOwned, PathsOk;
    LeaveKeeps(g, gp, l, Leave(g, l));
    MovedOn(m0, p0, g, gp, left, Leave(g, l), gp[l := []], l, []);
  }

  /** The first node was the list's own: it is out, and is the next to be freed. */
  lemma UnlinkStep(m0: Mem, p0: map<ListId, seq<Ptr>>, g: Mem, gp: map<ListId, seq<Ptr>>, l: ListId, left: seq<Tag>,
      h0: Heap, h: Heap, prev: Ptr)
    requires Wf(m0, p0) && Moved(m0, p0, g, gp, l, left) && g.lists[l] != NULL
    requires var cur := g.lists[l];
      cur in g.heap && g.heap[cur].count == 1 && cur != prev && h == h0[cur := g.heap[cur].(count := 0)]
    requires Pending(h0, g.heap, prev)
    ensures var cur := g.lists[l]; var g2 := Unlink(g, Head(l), cur);
      && left != [] && l in gp && |gp[l]| > 0
      && Moved(m0, p0, g2, gp[l := Without(gp[l], 0)], l, Without(left, 0))
      && g2.lists == g.lists[l := g.heap[cur].next]
      && Pending(if prev == NULL then h else h - {prev}, g2.heap, cur)
  {
    hide NodesOk, Balanced, AllOwned;
    var cur := g.lists[l];
    EmptyPath(g, gp, l);
    ViewLength(g, gp, l);
    ViewAt(g, gp, l, 0);
    var g2 := Unlink(g, Head(l), cur);
    UnlinkKeeps(g, gp, l, 0, g2);
    MovedOn(m0, p0, g, gp, left, g2, gp[l := Without(gp[l], 0)], l, Without(left, 0));
    Freed(h0, h, g.heap, g2.heap, prev, cur);
  }

  lemma Freed(h0: Heap, h: Heap, g: Heap, g2: Heap, prev: Ptr, cur: Ptr)
    requires Pending(h0, g, prev) && cur in g && cur != prev && cur != NULL
    requires h == h0[cur := g[cur].(count := 0)] && g2 == g - {cur}
    ensures Pending(if prev == NULL then h else h - {prev}, g2, cur)
  {
  }

  lemma EndWalk(m0: Mem, p0: map<ListId, seq<Ptr>>, g: Mem, gp: map<ListId, seq<Ptr>>, l: ListId, left: seq<Tag>,
      h: Heap, prev: Ptr, lists: map<ListId, Ptr>)
    requires Wf(m0, p0) && Moved(m0, p0, g, gp, l, left) && Pending(h, g.heap, prev)
    requires g.lists == lists[l := NULL]
    ensures left == []
    ensures Mem(if prev == NULL then h else h - {prev}, lists[l := NULL]) == g
  {
    hide NodesOk, Balanced, AllOwned;
    EmptyPath(g, gp, l);
    ViewLength(g, gp, l);
  }

  class TagStore {
    var heap: Heap
    var lists: map<ListId, Ptr>

    /** The nodes on each list. */
    ghost var paths: map<ListId, seq<Ptr>>

    ghost function M(): Mem
      reads this
    {
      Mem(heap, lists)
    }

    ghost predicate Valid()
      reads this
    {
      Wf(M(), paths)
    }

    /** What each list holds. */
    ghost function Holds(): (v: Views)
      reads this
      requires Valid()
    {
      HoldsOf(M(), paths)
    }

    constructor ()
      ensures Valid() && Holds() == map[]
    {
      heap, lists, paths := map[], map[], map[];
    }

    method FreshAddress() returns (p: Ptr)
      ensures p != NULL && p !in heap
    {
      SomeIsFree(heap.Keys);
      p :| p > 0 && p !in heap.Keys;
    }

    method WriteSlot(s: Slot, p: Ptr)
      requires HasSlot(M(), s)
      modifies this`heap, this`lists
      ensures M() == Set(old(M()), s, p)
    {
      match s
      case Head(l) => lists := lists[l := p];
      case Link(q) => heap := heap[q := heap[q].(next := p)];
    }

    /** Remove all tags: nodes that nobody else points to are freed, up to the first shared one. */
    method RemoveAll(l: ListId)
      requires Valid() && l in lists
      modifies this
      ensures Valid() && Holds() == old(Holds())[l := []]
      ensures lists[l] == NULL
    {
      hide NodesOk, PathsOk, Balanced, AllOwned, View, Moved, Pending, Leave, Unlink, HoldsOf;
      var prev, cur := NULL, lists[l];
      // The memory without prev, which is to be freed, and with the head of l where the walk has got to.
      ghost var m0, p0 := M(), paths;
      ghost var g, gp, left := m0, p0, View(m0, p0, l);
      StartWalk(m0, p0, l);
      while cur != NULL
        invariant l in lists && g.lists == lists[l := cur] && Pending(heap, g.heap, prev)
        invariant Moved(m0, p0, g, gp, l, left)
        decreases |left|
      {
        HeadStep(m0, p0, g, gp, l, left, heap, prev);
        ghost var before := heap;
        heap := heap[cur := heap[cur].(count := heap[cur].count - 1)];
        if heap[cur].count > 0 {
          LeaveStep(m0, p0, g, gp, l, left, before, heap, prev);
          g, gp, left := Leave(g, l), gp[l := []], [];
          break;
        }
        UnlinkStep(m0, p0, g, gp, l, left, before, heap, prev);
        if prev != NULL {
          heap := heap - {prev};
        }
        prev := cur;
        g, gp, left := Unlink(g, Head(l), cur), gp[l := Without(gp[l], 0)], Without(left, 0);
        cur := heap[cur].next;
      }
      EndWalk(m0, p0, g, gp, l, left, heap, prev, lists);
      if prev != NULL {
        heap := heap - {prev};
      }
      lists := lists[l := NULL];
      paths := gp;
      HoldsMoved(m0, p0, M(), paths, l, []);
    }

    method Construct(l: ListId)
      requires Valid() && l !in lists
      modifies this
      ensures Valid() && Holds() == old(Holds())[l := []]
      ensures lists == old(lists)[l := NULL]
    {
      hide NodesOk, PathsOk, Balanced, AllOwned, View;
      NewListKeeps(M(), paths, l);
      lists := lists[l := NULL];
      paths := paths[l := []];
    }

    /** A copy shares the nodes of the original. */
    method CopyConstruct(l: ListId, o: ListId)
      requires Valid() && l !in lists && o in lists
      modifies this
      ensures Valid() && Holds() == old(Holds())[l := old(Holds())[o]]
    {
      Construct(l);
      JoinTo(l, o);
    }

    method JoinTo(l: ListId, o: ListId)
      requires Valid() && l in lists && o in lists && lists[l] == NULL
      modifies this
      ensures Valid() && Holds() == old(Holds())[l := old(Holds())[o]]
    {
      hide NodesOk, PathsOk, Balanced, AllOwned, View, Moved, HoldsOf;
      ghost var m, p := M(), paths;
      HeadInHeap(m, p, o);
      lists := lists[l := lists[o]];
      if lists[l] != NULL {
        heap := heap[lists[l] := heap[lists[l]].(count := heap[lists[l]].count + 1)];
      }
      paths := paths[l := paths[o]];
      JoinKeeps(m, p, l, o, M());
      HoldsMoved(m, p, M(), paths, l, View(m, p, o));
    }

    method Assign(l: ListId, o: ListId)
      requires Valid() && l in lists && o in lists
      modifies this
      ensures Valid() && Holds() == old(Holds())[l := old(Holds())[o]]
    {
      hide NodesOk, PathsOk, Balanced, AllOwned, View;
      if lists[l] == lists[o] {
        SameHead(M(), paths, l, o);
        return;
      }
      RemoveAll(l);
      JoinTo(l, o);
    }

    method Destruct(l: ListId)
      requires Valid() && l in lists
      modifies this
      ensures Valid() && Holds() == old(Holds()) - {l}
    {
      RemoveAll(l);
      DropListKeeps(M(), paths, l);
      lists := lists - {l};
      paths := paths - {l};
    }

    method Add(l: ListId, tag: Tag)
      requires Valid() && l in lists && Fits(tag)
      modifies this
      ensures Valid() && Holds() == old(Holds())[l := [tag] + old(Holds())[l]]
    {
      hide NodesOk, PathsOk, Balanced, AllOwned, View, Moved, HoldsOf;
      ghost var m, p := M(), paths;
      HeadInHeap(m, p, l);
      var head := FreshAddress();
      var data := Serialize(Zeros(MAX_SIZE), tag.bytes);
      heap := heap[head := TagData(data, lists[l], tag.tid, 1)];
      lists := lists[l := head];
      paths := paths[l := [head] + paths[l]];
      PushKeeps(m, p, l, head, tag.tid, data, M());
      HoldsMoved(m, p, M(), paths, l, [tag] + View(m, p, l));
    }

    // ----- Copy-on-write -----

    /** Replace the shared node cur, that slot s points to, by a new node for this list alone. */
    method CopyShared(s: Slot, cur: Ptr, tid: TypeId, data: seq<Byte>) returns (copy: Ptr)
      requires HasSlot(M(), s) && cur in heap && heap[cur].count > 0 && NodesOk(heap) && s != Link(cur)
      modifies this`heap, this`lists
      ensures copy !in old(heap) && copy != NULL
      ensures HasSlot(old(M()), s) && cur in old(heap) && old(heap)[cur].count > 0
      ensures M() == CopyNode(old(M()), s, cur, copy, tid, data)
    {
      assert NodeOk(heap, heap[cur]);
      heap := heap[cur := heap[cur].(count := heap[cur].count - 1)];
      copy := FreshAddress();
      var next := heap[cur].next;
      heap := heap[copy := TagData(data, next, tid, 1)];
      if next != NULL {
        heap := heap[next := heap[next].(count := heap[next].count + 1)];
      }
      WriteSlot(s, copy);
    }

    /** Take the node cur, that slot s points to, out of the list: free it when it is the list's own. */
    method RunRemoveWriter(preMerge: bool, cur: Ptr, s: Slot) returns (data: seq<Byte>)
      requires HasSlot(M(), s) && cur in heap && s != Link(cur) && NodesOk(heap)
      requires !preMerge ==> heap[cur].count > 0
      modifies this`heap, this`lists
      ensures cur in old(heap) && HasSlot(old(M()), s) && data == old(heap)[cur].data
      ensures preMerge ==> M() == Unlink(old(M()), s, cur)
      ensures !preMerge ==> old(heap)[cur].count > 0 && M() == LinkPast(old(M()), s, cur)
    {
      assert NodeOk(heap, heap[cur]);
      data := heap[cur].data;
      WriteSlot(s, heap[cur].next);
      if preMerge {
        heap := heap - {cur};
      } else {
        heap := heap[cur := heap[cur].(count := heap[cur].count - 1)];
        var next := heap[cur].next;
        if next != NULL {
          heap := heap[next := heap[next].(count := heap[next].count + 1)];
        }
      }
    }

    /** Give the node cur new bytes: in place when it is the list's own, on a copy otherwise. */
    method RunReplaceWriter(preMerge: bool, cur: Ptr, s: Slot, tag: Tag) returns (n: Ptr, data: seq<Byte>)
      requires HasSlot(M(), s) && cur in heap && s != Link(cur) && NodesOk(heap) && Fits(tag)
      requires !preMerge ==> heap[cur].count > 0
      modifies this`heap, this`lists
      ensures cur in old(heap) && HasSlot(old(M()), s) && |data| == MAX_SIZE && Prefix(data, tag.tid.size) == tag.bytes
      ensures preMerge ==> M() == Rewrite(old(M()), cur, data)
      ensures !preMerge ==> n !in old(heap) && n != NULL && old(heap)[cur].count > 0
      ensures !preMerge ==> M() == CopyNode(old(M()), s, cur, n, tag.tid, data)
    {
      assert NodeOk(heap, heap[cur]);
      n := cur;
      if preMerge {
        data := Serialize(heap[cur].data, tag.bytes);
        heap := heap[cur := heap[cur].(data := data)];
      } else {
        data := Serialize(Zeros(MAX_SIZE), tag.bytes);
        n := CopyShared(s, cur, tag.tid, data);
      }
    }

    /** Walk from the head of l to the first tag of the given type or the first shared node. */
    method FindOrMerge(l: ListId, tid: TypeId) returns (hit: bool, slot: Slot, cur: Ptr, ghost i: nat)
      requires Valid() && l in lists
      ensures l in paths && i <= |paths[l]| == |Holds()[l]| && cur == At(paths[l], i) && slot == SlotAt(l, paths[l], i)
      ensures Private(heap, paths[l], i) && forall k :: 0 <= k < i ==> Holds()[l][k].tid != tid
      ensures hit ==> cur != NULL && Private(heap, paths[l], i + 1) && Holds()[l][i].tid == tid
      ensures !hit && cur != NULL ==> cur in heap && heap[cur].count > 1
      ensures cur != NULL <==> i < |paths[l]|
    {
      hide NodesOk, PathsOk, Balanced, AllOwned;
      ViewLength(M(), paths, l);
      slot, cur, i := Head(l), lists[l], 0;
      ghost var v := View(M(), paths, l);
      while cur != NULL
        invariant i <= |v| && cur == At(paths[l], i) && slot == SlotAt(l, paths[l], i)
        invariant Private(heap, paths[l], i) && forall k :: 0 <= k < i ==> v[k].tid != tid
        decreases |v| - i
      {
        AtEnd(M(), paths, l, i);
        ViewAt(M(), paths, l, i);
        if heap[cur].count > 1 {
          hit := false;
          return;
        } else if heap[cur].tid == tid {
          hit := true;
          return;
        }
        slot := Link(cur);
        cur := heap[cur].next;
        i := i + 1;
      }
      AtEnd(M(), paths, l, i);
      hit := false;
    }

    /** Whether a tag of the given type is at cur or after it. */
    method OccursFrom(l: ListId, tid: TypeId, cur: Ptr, ghost i: nat) returns (present: bool, ghost k: nat)
      requires Valid() && l in lists && l in paths && i <= |paths[l]| && cur == At(paths[l], i)
      ensures i <= k <= |paths[l]| == |Holds()[l]| && forall j :: i <= j < k ==> Holds()[l][j].tid != tid
      ensures present <==> k < |paths[l]|
      ensures present ==> Holds()[l][k].tid == tid
    {
      hide NodesOk, PathsOk, Balanced, AllOwned;
      ViewLength(M(), paths, l);
      var it := cur;
      k := i;
      ghost var v := View(M(), paths, l);
      while it != NULL
        invariant i <= k <= |v| && it == At(paths[l], k)
        invariant forall j :: i <= j < k ==> v[j].tid != tid
        decreases |v| - k
      {
        AtEnd(M(), paths, l, k);
        ViewAt(M(), paths, l, k);
        if heap[it].tid == tid {
          return true, k;
        }
        it := heap[it].next;
        k := k + 1;
      }
      AtEnd(M(), paths, l, k);
      present := false;
    }

    /** Copy one shared node and step to the next, which is shared now. */
    method CopyOne(l: ListId, slot0: Slot, cur0: Ptr, ghost i: nat) returns (slot: Slot, cur: Ptr)
      requires Valid() && l in lists && l in paths && i + 1 < |paths[l]|
      requires cur0 == paths[l][i] && slot0 == SlotAt(l, paths[l], i) && Private(heap, paths[l], i)
      requires cur0 in heap && heap[cur0].count > 1
      modifies this
      ensures Valid() && l in lists && l in paths && |paths[l]| == |old(paths)[l]|
      ensures Private(heap, paths[l], i + 1) && slot == SlotAt(l, paths[l], i + 1)
      ensures cur == paths[l][i + 1] && cur in heap && heap[cur].count > 1
      ensures Moved(old(M()), old(paths), M(), paths, l, View(old(M()), old(paths), l))
    {
      hide PathsOk, Balanced, AllOwned, View, Moved, CopyNode, NodeOk;
      ghost var m, p := M(), paths;
      ViewAt(m, p, l, i);
      var copy := CopyShared(slot0, cur0, heap[cur0].tid, heap[cur0].data);
      ghost var path2 := paths[l][i := copy];
      paths := paths[l := path2];
      CopyNodeKeeps(m, p, l, i, copy, m.heap[cur0].tid, m.heap[cur0].data, M(), path2);
      CopyNodePrivate(m, p, l, i, copy, m.heap[cur0].tid, m.heap[cur0].data, M(), path2);
      SameTag(m, p, l, i);
      MovedWf(m, p, M(), paths, l, View(m, p, l));
      ViewAt(M(), paths, l, i);
      slot := Link(copy);
      cur := heap[copy].next;
    }

    /** Copy the shared nodes from cur on, up to the tag of the given type. */
    method CopyUpTo(l: ListId, tid: TypeId, slot0: Slot, cur0: Ptr, ghost i0: nat, ghost k: nat)
      returns (slot: Slot, cur: Ptr)
      requires Valid() && l in lists && l in paths && i0 <= k < |paths[l]| == |Holds()[l]|
      requires cur0 == paths[l][i0] && slot0 == SlotAt(l, paths[l], i0) && Private(heap, paths[l], i0)
      requires cur0 in heap && heap[cur0].count > 1
      requires Holds()[l][k].tid == tid && forall j :: i0 <= j < k ==> Holds()[l][j].tid != tid
      modifies this
      ensures Valid() && l in lists && l in paths && k < |paths[l]| && Private(heap, paths[l], k)
      ensures cur == paths[l][k] && slot == SlotAt(l, paths[l], k) && cur in heap && heap[cur].count > 1
      ensures Holds() == old(Holds())
    {
      hide NodesOk, PathsOk, Balanced, AllOwned, View, Moved, Private, CopyNode, HoldsOf;
      ghost var m0, p0, v, i := M(), paths, View(M(), paths, l), i0;
      slot, cur := slot0, cur0;
      NotMoved(m0, p0, l);
      while heap[cur].tid != tid
        invariant Moved(m0, p0, M(), paths, l, v) && Valid() && l in lists && l in paths
        invariant i0 <= i <= k < |paths[l]| == |v| && v == View(M(), paths, l)
        invariant cur == paths[l][i] && slot == SlotAt(l, paths[l], i) && Private(heap, paths[l], i)
        invariant cur in heap && heap[cur].count > 1
        decreases k - i
      {
        ViewAt(M(), paths, l, i);
        MovedWf(m0, p0, M(), paths, l, v);
        ghost var m1, p1 := M(), paths;
        slot, cur := CopyOne(l, slot, cur, i);
        MovedOn(m0, p0, m1, p1, v, M(), paths, l, v);
        MovedWf(m0, p0, M(), paths, l, v);
        i := i + 1;
      }
      ViewAt(M(), paths, l, i);
      HoldsMoved(m0, p0, M(), paths, l, v);
      assert HoldsOf(m0, p0)[l := v] == HoldsOf(m0, p0);
    }

    /** Apply a writer to the tag found at cur; preMerge says whether the node is the list's own. */
    method RunWriter(l: ListId, w: Writer, preMerge: bool, slot: Slot, cur: Ptr, ghost i: nat)
      returns (data: seq<Byte>)
      requires Valid() && l in lists && l in paths && i < |paths[l]| == |Holds()[l]|
      requires cur == paths[l][i] && slot == SlotAt(l, paths[l], i) && cur in heap
      requires if preMerge then Private(heap, paths[l], i + 1) else Private(heap, paths[l], i) && heap[cur].count > 1
      requires w.ReplaceWriter? ==> Fits(Tag(Holds()[l][i].tid, w.bytes))
      modifies this
      ensures Valid() && Holds() == old(Holds())[l := Written(old(Holds())[l], i, w)]
      ensures w.RemoveWriter? ==> Prefix(data, old(Holds())[l][i].tid.size) == old(Holds())[l][i].bytes
    {
      match w
      case RemoveWriter => data := RemoveAt(l, preMerge, slot, cur, i);
      case ReplaceWriter(bytes) => data := ReplaceAt(l, bytes, preMerge, slot, cur, i);
    }

    method RemoveAt(l: ListId, preMerge: bool, slot: Slot, cur: Ptr, ghost i: nat) returns (data: seq<Byte>)
      requires Valid() && l in lists && l in paths && i < |paths[l]| == |Holds()[l]|
      requires cur == paths[l][i] && slot == SlotAt(l, paths[l], i) && cur in heap
      requires if preMerge then Private(heap, paths[l], i + 1) else Private(heap, paths[l], i) && heap[cur].count > 1
      modifies this
      ensures Valid() && Holds() == old(Holds())[l := Without(old(Holds())[l], i)]
      ensures Prefix(data, old(Holds())[l][i].tid.size) == old(Holds())[l][i].bytes
    {
      hide PathsOk, Balanced, AllOwned, View, Moved, NodeOk, HoldsOf, Unlink, LinkPast, Private;
      ghost var m, p := M(), paths;
      ghost var v := View(m, p, l);
      ViewAt(m, p, l, i);
      data := RunRemoveWriter(preMerge, cur, slot);
      paths := p[l := Without(p[l], i)];
      if preMerge {
        UnlinkKeeps(m, p, l, i, M());
      } else {
        LinkPastKeeps(m, p, l, i, M());
      }
      HoldsMoved(m, p, M(), paths, l, Without(v, i));
    }

    method ReplaceAt(l: ListId, bytes: seq<Byte>, preMerge: bool, slot: Slot, cur: Ptr, ghost i: nat)
      returns (data: seq<Byte>)
      requires Valid() && l in lists && l in paths && i < |paths[l]| == |Holds()[l]|
      requires cur == paths[l][i] && slot == SlotAt(l, paths[l], i) && cur in heap
      requires if preMerge then Private(heap, paths[l], i + 1) else Private(heap, paths[l], i) && heap[cur].count > 1
      requires Fits(Tag(Holds()[l][i].tid, bytes))
      modifies this
      ensures Valid()
      ensures Holds() == old(Holds())[l := old(Holds())[l][i := Tag(old(Holds())[l][i].tid, bytes)]]
    {
      hide PathsOk, Balanced, AllOwned, View, Moved, NodeOk, HoldsOf, Rewrite, CopyNode, Private;
      ghost var m, p := M(), paths;
      ghost var v := View(m, p, l);
      ViewAt(m, p, l, i);
      var tag := Tag(heap[cur].tid, bytes);
      var n;
      n, data := RunReplaceWriter(preMerge, cur, slot, tag);
      if preMerge {
        RewriteKeeps(m, p, l, i, data, M());
      } else {
        paths := p[l := p[l][i := n]];
        CopyNodeKeeps(m, p, l, i, n, tag.tid, data, M(), p[l][i := n]);
      }
      HoldsMoved(m, p, M(), paths, l, v[i := tag]);
    }

    /** Find the first tag of the given type and apply the writer to it, copying shared nodes on the way. */
    method CowTraverse(l: ListId, tid: TypeId, w: Writer) returns (found: bool, data: seq<Byte>)
      requires Valid() && l in lists && (w.ReplaceWriter? ==> Fits(Tag(tid, w.bytes)))
      modifies this
      ensures Valid()
      ensures var v := old(Holds())[l]; var k := FindTag(v, tid);
        && found == (k < |v|)
        && Holds() == (if found then old(Holds())[l := Written(v, k, w)] else old(Holds()))
        && (found && w.RemoveWriter? ==> Prefix(data, tid.size) == v[k].bytes)
    {
      hide NodesOk, PathsOk, Balanced, AllOwned, View, HoldsOf, FindTag, Written;
      data := [];
      ghost var v := Holds()[l];
      ghost var i, k;
      var slot, cur;
      found, slot, cur, i := FindOrMerge(l, tid);
      if found {
        FindTagIs(v, tid, i);
        data := RunWriter(l, w, true, slot, cur, i);
        return;
      }
      if cur == NULL {
        FindTagIs(v, tid, i);
        return;
      }
      found, k := OccursFrom(l, tid, cur, i);
      FindTagIs(v, tid, k);
      if !found {
        return;
      }
      slot, cur := CopyUpTo(l, tid, slot, cur, i, k);
      HoldsLength(M(), paths, l);
      data := RunWriter(l, w, false, slot, cur, k);
    }

    method Remove(l: ListId, tid: TypeId) returns (found: bool, data: seq<Byte>)
      requires Valid() && l in lists
      modifies this
      ensures Valid() && Holds() == old(Holds())[l := RemoveTag(old(Holds())[l], tid)]
      ensures var v := old(Holds())[l]; var k := FindTag(v, tid);
        found == (k < |v|) && (found ==> Prefix(data, tid.size) == v[k].bytes)
    {
      hide NodesOk, PathsOk, Balanced, AllOwned, View, FindTag;
      found, data := CowTraverse(l, tid, RemoveWriter);
    }

    method Replace(l: ListId, tag: Tag) returns (found: bool)
      requires Valid() && l in lists && Fits(tag)
      modifies this
      ensures Valid() && Holds() == old(Holds())[l := ReplaceTag(old(Holds())[l], tag)]
      ensures found <==> FindTag(old(Holds())[l], tag.tid) < |old(Holds())[l]|
    {
      hide NodesOk, PathsOk, Balanced, AllOwned, View, FindTag;
      var data;
      found, data := CowTraverse(l, tag.tid, ReplaceWriter(tag.bytes));
      if !found {
        Add(l, tag);
      }
    }

    method Peek(l: ListId, tid: TypeId) returns (found: bool, data: seq<Byte>)
      requires Valid() && l in lists
      ensures var v := Holds()[l]; var k := FindTag(v, tid);
        found == (k < |v|) && (found ==> Prefix(data, tid.size) == v[k].bytes)
    {
      hide NodesOk, PathsOk, Balanced, AllOwned;
      var cur := lists[l];
      ghost var v, i := View(M(), paths, l), 0;
      data := [];
      ViewLength(M(), paths, l);
      while cur != NULL
        invariant i <= |v| == |paths[l]| && cur == At(paths[l], i)
        invariant forall j :: 0 <= j < i ==> v[j].tid != tid
        decreases |v| - i
      {
        AtEnd(M(), paths, l, i);
        ViewAt(M(), paths, l, i);
        if heap[cur].tid == tid {
          FindTagIs(v, tid, i);
          return true, heap[cur].data;
        }
        cur := heap[cur].next;
        i := i + 1;
      }
      AtEnd(M(), paths, l, i);
      FindTagIs(v, tid, i);
      found := false;
    }
  }

  lemma HeadInHeap(m: Mem, paths: map<ListId, seq<Ptr>>, l: ListId)
    requires Wf(m, paths) && l in m.lists
    ensures l in paths && (m.lists[l] == NULL <==> m.lists[l] !in m.heap)
  {
    HeadNode(m, paths, l);
  }

  lemma HoldsLength(m: Mem, paths: map<ListId, seq<Ptr>>, l: ListId)
    requires Wf(m, paths) && l in m.lists
    ensures l in paths && |HoldsOf(m, paths)[l]| == |paths[l]|
  {
    ViewLength(m, paths, l);
  }

  lemma SameTag(m: Mem, paths: map<ListId, seq<Ptr>>, l: ListId, i: nat)
    requires Wf(m, paths) && l in m.lists && i < |paths[l]| && paths[l][i] in m.heap
    ensures |View(m, paths, l)| == |paths[l]|
    ensures var d := m.heap[paths[l][i]];
      View(m, paths, l)[i := Tag(d.tid, Prefix(d.data, d.tid.size))] == View(m, paths, l)
  {
    hide NodesOk, PathsOk, Balanced, AllOwned;
    ViewAt(m, paths, l, i);
  }

  /** A pointer into a path is null exactly at the end. */
  lemma AtEnd(m: Mem, paths: map<ListId, seq<Ptr>>, l: ListId, i: nat)
    requires PathsOk(m, paths) && l in m.lists && i <= |paths[l]|
    ensures At(paths[l], i) == NULL <==> i == |paths[l]|
  {
    if i < |paths[l]| {
      StepAt(m, paths, l, i);
    }
  }
}
