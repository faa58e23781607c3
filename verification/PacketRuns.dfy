/** Whole runs of packet operations: labels stay with the bytes they were given to. */
module PacketRuns {
  import opened ByteStrings
  import opened ByteTagArrays
  import opened ByteTagLabels
  import opened Packets

  datatype Op =
    | Create(p: PacketId, size: nat)
    | Copy(p: PacketId, o: PacketId)
    | AddHeader(p: PacketId, n: nat)
    | RemoveAtStart(p: PacketId, n: nat)
    | AddTrailer(p: PacketId, n: nat)
    | RemoveAtEnd(p: PacketId, n: nat)
    | CreateFragment(f: PacketId, p: PacketId, start: nat, length: nat)
    | AddAtEnd(p: PacketId, o: PacketId)
    | AddByteTag(p: PacketId, tid: nat, data: seq<Byte>)

  /** The packets an operation names exist (or not yet, for one it makes), and no offset exceeds its range. */
  predicate Legal(v: Packets, op: Op) {
    match op
    case Create(p, size) => p !in v
    case Copy(p, o) => p !in v && o in v
    case AddHeader(p, n) => p in v && n + |v[p]| <= OFFSET_MAX
    case RemoveAtStart(p, n) => p in v
    case AddTrailer(p, n) => p in v && |v[p]| + n <= OFFSET_MAX
    case RemoveAtEnd(p, n) => p in v
    case CreateFragment(f, p, start, length) => f !in v && p in v && start + length <= |v[p]|
    case AddAtEnd(p, o) => p in v && o in v && p != o && |v[p]| + |v[o]| <= OFFSET_MAX
    case AddByteTag(p, tid, data) => p in v
  }

  /** What an operation does to strings of labelled bytes. */
  function Apply(v: Packets, op: Op): Packets
    requires Legal(v, op)
  {
    match op
    case Create(p, size) => v[p := Bare(size)]
    case Copy(p, o) => v[p := v[o]]
    case AddHeader(p, n) => v[p := Bare(n) + v[p]]
    case RemoveAtStart(p, n) => v[p := v[p][Min(n, |v[p]|)..]]
    case AddTrailer(p, n) => v[p := v[p] + Bare(n)]
    case RemoveAtEnd(p, n) => v[p := v[p][..|v[p]| - Min(n, |v[p]|)]]
    case CreateFragment(f, p, start, length) => v[f := v[p][start..start + length]]
    case AddAtEnd(p, o) => v[p := v[p] + v[o]]
    case AddByteTag(p, tid, data) => v[p := Labelled(v[p], Label(tid, data))]
  }

  predicate LegalRun(v: Packets, ops: seq<Op>)
    decreases |ops|
  {
    ops == [] || (Legal(v, ops[0]) && LegalRun(Apply(v, ops[0]), ops[1..]))
  }

  function RunOps(v: Packets, ops: seq<Op>): Packets
    requires LegalRun(v, ops)
    decreases |ops|
  {
    if ops == [] then v else RunOps(Apply(v, ops[0]), ops[1..])
  }

  method Perform(store: PacketStore, op: Op)
    requires store.Valid() && Legal(store.Labels(), op)
    modifies store, store.tags
    ensures store.Valid() && store.Labels() == Apply(old(store.Labels()), op)
  {
    hide Wf, View, LabelsOf, LabelMap;
    match op
    case Create(p, size) => store.Create(p, size);
    case Copy(p, o) => store.Copy(p, o);
    case AddHeader(p, n) => store.AddHeader(p, n);
    case RemoveAtStart(p, n) => store.RemoveAtStart(p, n);
    case AddTrailer(p, n) => store.AddTrailer(p, n);
    case RemoveAtEnd(p, n) => store.RemoveAtEnd(p, n);
    case CreateFragment(f, p, start, length) => store.CreateFragment(f, p, start, length);
    case AddAtEnd(p, o) => store.AddAtEnd(p, o);
    case AddByteTag(p, tid, data) => store.AddByteTag(p, tid, data);
  }

  /** Through any sequence of operations on any number of packets that share tag arrays, every byte has just
      the labels it was given, and new bytes have none. */
  method Execute(store: PacketStore, ops: seq<Op>)
    requires store.Valid() && LegalRun(store.Labels(), ops)
    modifies store, store.tags
    ensures store.Valid() && store.Labels() == RunOps(old(store.Labels()), ops)
  {
    hide Wf, View, Legal, Apply, LabelsOf, LabelMap;
    ghost var v0 := store.Labels();
    var k := 0;
    while k < |ops|
      invariant k <= |ops| && store.Valid()
      invariant LegalRun(store.Labels(), ops[k..])
      invariant RunOps(store.Labels(), ops[k..]) == RunOps(v0, ops)
    {
      assert ops[k..][0] == ops[k] && ops[k..][1..] == ops[k + 1..];
      Perform(store, ops[k]);
      k := k + 1;
    }
    assert ops[k..] == [];
  }
}
