/** Whole runs of packet tag list operations: each list behaves as a map of its own. */
module PacketTagRuns {
  import opened ByteStrings
  import opened PacketTagTree
  import opened PacketTagSteps
  import opened PacketTagLists

  datatype Op =
    | Construct(l: ListId)
    | CopyConstruct(l: ListId, o: ListId)
    | Assign(l: ListId, o: ListId)
    | Destruct(l: ListId)
    | RemoveAll(l: ListId)
    | Add(l: ListId, tag: Tag)
    | Remove(l: ListId, tid: TypeId)
    | Replace(l: ListId, tag: Tag)
    | Peek(l: ListId, tid: TypeId)

  datatype Answer = Done | Missing | Found(bytes: seq<Byte>)

  /** The lists an operation names are alive (or not yet, for a constructor), and its tag fits a node. */
  predicate Legal(v: Views, op: Op) {
    match op
    case Construct(l) => l !in v
    case CopyConstruct(l, o) => l !in v && o in v
    case Assign(l, o) => l in v && o in v
    case Destruct(l) => l in v
    case RemoveAll(l) => l in v
    case Add(l, tag) => l in v && Fits(tag)
    case Remove(l, tid) => l in v
    case Replace(l, tag) => l in v && Fits(tag)
    case Peek(l, tid) => l in v
  }

  /** What the lists hold after an operation, each list having its own tags. */
  function Apply(v: Views, op: Op): Views
    requires Legal(v, op)
  {
    match op
    case Construct(l) => v[l := []]
    case CopyConstruct(l, o) => v[l := v[o]]
    case Assign(l, o) => v[l := v[o]]
    case Destruct(l) => v - {l}
    case RemoveAll(l) => v[l := []]
    case Add(l, tag) => v[l := [tag] + v[l]]
    case Remove(l, tid) => v[l := RemoveTag(v[l], tid)]
    case Replace(l, tag) => v[l := ReplaceTag(v[l], tag)]
    case Peek(l, tid) => v
  }

  function LookUp(v: seq<Tag>, tid: TypeId): Answer {
    var k := FindTag(v, tid);
    if k < |v| then Found(v[k].bytes) else Missing
  }

  function AnswerTo(v: Views, op: Op): Answer
    requires Legal(v, op)
  {
    match op
    case Remove(l, tid) => LookUp(v[l], tid)
    case Peek(l, tid) => LookUp(v[l], tid)
    case Replace(l, tag) => if LookUp(v[l], tag.tid) == Missing then Missing else Done
    case _ => Done
  }

  predicate LegalRun(v: Views, ops: seq<Op>)
    decreases |ops|
  {
    ops == [] || (Legal(v, ops[0]) && LegalRun(Apply(v, ops[0]), ops[1..]))
  }

  function RunOps(v: Views, ops: seq<Op>): Views
    requires LegalRun(v, ops)
    decreases |ops|
  {
    if ops == [] then v else RunOps(Apply(v, ops[0]), ops[1..])
  }

  function Answers(v: Views, ops: seq<Op>): seq<Answer>
    requires LegalRun(v, ops)
    decreases |ops|
  {
    if ops == [] then [] else [AnswerTo(v, ops[0])] + Answers(Apply(v, ops[0]), ops[1..])
  }

  method Perform(store: TagStore, op: Op) returns (a: Answer)
    requires store.Valid() && Legal(store.Holds(), op)
    modifies store
    ensures store.Valid() && store.Holds() == Apply(old(store.Holds()), op)
    ensures a == AnswerTo(old(store.Holds()), op)
  {
    hide NodesOk, PathsOk, Balanced, AllOwned, View, FindTag;
    a := Done;
    match op
    case Construct(l) => store.Construct(l);
    case CopyConstruct(l, o) => store.CopyConstruct(l, o);
    case Assign(l, o) => store.Assign(l, o);
    case Destruct(l) => store.Destruct(l);
    case RemoveAll(l) => store.RemoveAll(l);
    case Add(l, tag) => store.Add(l, tag);
    case Remove(l, tid) =>
      var found, data := store.Remove(l, tid);
      a := if found then Found(Prefix(data, tid.size)) else Missing;
    case Replace(l, tag) =>
      var found := store.Replace(l, tag);
      a := if found then Done else Missing;
    case Peek(l, tid) =>
      var found, data := store.Peek(l, tid);
      a := if found then Found(Prefix(data, tid.size)) else Missing;
  }

  /** Over any interleaving of operations on any number of lists that share nodes, every list answers
      as if it had its tags to itself; and the memory stays well formed. */
  method Execute(store: TagStore, ops: seq<Op>) returns (answers: seq<Answer>)
    requires store.Valid() && LegalRun(store.Holds(), ops)
    modifies store
    ensures store.Valid() && store.Holds() == RunOps(old(store.Holds()), ops)
    ensures answers == Answers(old(store.Holds()), ops)
  {
    hide NodesOk, PathsOk, Balanced, AllOwned, View, FindTag, Legal, Apply, AnswerTo, HoldsOf;
    answers := [];
    ghost var v0 := store.Holds();
    var k := 0;
    while k < |ops|
      invariant k <= |ops| && store.Valid()
      invariant LegalRun(store.Holds(), ops[k..])
      invariant RunOps(store.Holds(), ops[k..]) == RunOps(v0, ops)
      invariant answers + Answers(store.Holds(), ops[k..]) == Answers(v0, ops)
    {
      assert ops[k..][0] == ops[k] && ops[k..][1..] == ops[k + 1..];
      var a := Perform(store, ops[k]);
      answers := answers + [a];
      k := k + 1;
    }
    assert ops[k..] == [];
  }

  // ----- Memory -----

  /** In well-formed memory the count of a node is the number of pointers to it, and no pointer dangles. */
  lemma CountsAreIncoming(m: Mem, paths: map<ListId, seq<Ptr>>, s: Slot)
    requires Wf(m, paths) && HasSlot(m, s) && Get(m, s) != NULL
    ensures Get(m, s) in m.heap
    ensures m.heap[Get(m, s)].count == |Incoming(m, Get(m, s))| > 0
  {
    match s {
      case Head(l) => HeadInHeap(m, paths, l);
      case Link(q) => assert NodeOk(m.heap, m.heap[q]);
    }
    SomeRef(m, Get(m, s), s);
  }

  /** When no list holds a tag, every node has been freed. */
  lemma NothingIsLost(m: Mem, paths: map<ListId, seq<Ptr>>)
    requires Wf(m, paths) && forall l :: l in m.lists ==> View(m, paths, l) == []
    ensures m.heap == map[]
  {
    hide IsPath, Balanced, NodesOk;
    forall p
      ensures p !in m.heap
    {
      forall l | l in paths
        ensures p !in paths[l]
      {
        ViewLength(m, paths, l);
      }
    }
    assert m.heap.Keys == {};
  }

  // ----- A list as a map -----

  /** The value a list gives for each type of tag: that of its first tag of the type. */
  function AsMap(v: seq<Tag>): map<TypeId, seq<Byte>> {
    if v == [] then map[] else AsMap(v[1..])[v[0].tid := v[0].bytes]
  }

  lemma {:induction false} LookUpIsMap(v: seq<Tag>, tid: TypeId)
    ensures LookUp(v, tid) == if tid in AsMap(v) then Found(AsMap(v)[tid]) else Missing
  {
    if v != [] && v[0].tid != tid {
      LookUpIsMap(v[1..], tid);
    }
  }

  lemma {:induction false} ReplaceIsMap(v: seq<Tag>, tag: Tag)
    ensures AsMap(ReplaceTag(v, tag)) == AsMap(v)[tag.tid := tag.bytes]
  {
    LookUpIsMap(v, tag.tid);
    if v != [] && v[0].tid != tag.tid {
      ReplaceIsMap(v[1..], tag);
      var k := FindTag(v[1..], tag.tid);
      if k < |v[1..]| {
        assert v[k + 1 := tag][1..] == v[1..][k := tag];
      } else {
        assert ([tag] + v)[1..] == v;
      }
    } else if v != [] {
      assert v[0 := tag][1..] == v[1..];
      assert AsMap(v[1..])[tag.tid := tag.bytes] == AsMap(v[1..])[tag.tid := v[0].bytes][tag.tid := tag.bytes];
    } else {
      assert ([tag] + v)[1..] == v;
    }
  }

  /** No second tag of the type follows the first. */
  predicate Once(v: seq<Tag>, tid: TypeId) {
    var k := FindTag(v, tid);
    k < |v| ==> FindTag(v[k + 1..], tid) == |v| - k - 1
  }

  lemma {:induction false} FindInWithout(v: seq<Tag>, k: nat, tid: TypeId)
    requires k < |v|
    ensures FindTag(v, tid) < k ==> FindTag(Without(v, k), tid) == FindTag(v, tid)
    ensures FindTag(v, tid) >= k ==> FindTag(Without(v, k), tid) == k + FindTag(v[k + 1..], tid)
  {
    if k > 0 {
      assert Without(v, k)[0] == v[0] && Without(v, k)[1..] == Without(v[1..], k - 1);
      assert v[1..][k..] == v[k + 1..];
      FindInWithout(v[1..], k - 1, tid);
    } else {
      assert Without(v, 0) == v[1..];
    }
  }

  lemma {:induction false} FindFrom(v: seq<Tag>, k: nat, tid: TypeId)
    requires k <= FindTag(v, tid)
    ensures k + FindTag(v[k..], tid) == FindTag(v, tid)
  {
    if k > 0 {
      assert v[1..][k - 1..] == v[k..];
      FindFrom(v[1..], k - 1, tid);
    }
  }

  /** Removing a tag leaves the tags of other types alone. */
  lemma OtherTypesStay(v: seq<Tag>, tid: TypeId, t: TypeId)
    requires t != tid
    ensures LookUp(RemoveTag(v, tid), t) == LookUp(v, t)
  {
    hide Without, FindTag;
    var k := FindTag(v, tid);
    if k < |v| {
      WithoutLength(v, k);
      FindInWithout(v, k, t);
      var j := FindTag(v, t);
      if j < k {
        WithoutAt(v, k, j);
      } else {
        FindFrom(v, k + 1, t);
        if j < |v| {
          WithoutAt(v, k, j - 1);
        }
      }
    }
  }

  /** Removing a tag removes its type exactly when the list has no second tag of that type. */
  lemma RemoveIsMap(v: seq<Tag>, tid: TypeId)
    ensures AsMap(RemoveTag(v, tid)) == AsMap(v) - {tid} <==> Once(v, tid)
    ensures forall t :: t != tid ==> LookUp(RemoveTag(v, tid), t) == LookUp(v, t)
  {
    var r := RemoveTag(v, tid);
    var k := FindTag(v, tid);
    if k < |v| {
      FindInWithout(v, k, tid);
    }
    forall t | t != tid
      ensures LookUp(r, t) == LookUp(v, t)
      ensures t in AsMap(r) <==> t in AsMap(v)
      ensures t in AsMap(v) ==> AsMap(r)[t] == AsMap(v)[t]
    {
      OtherTypesStay(v, tid, t);
      LookUpIsMap(r, t);
      LookUpIsMap(v, t);
    }
    LookUpIsMap(r, tid);
    assert Once(v, tid) <==> tid !in AsMap(r);
    assert Once(v, tid) ==> AsMap(r) == AsMap(v) - {tid};
  }
}
