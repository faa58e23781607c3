/** Whole runs of buffer operations: each buffer is a string of bytes of its own. */
module BufferRuns {
  import opened ByteStrings
  import opened BufferMemory
  import opened Buffers

  datatype Op =
    | Initialize(b: BufId, zeroSize: nat, recommendedStart: nat)
    | CopyConstruct(b: BufId, o: BufId)
    | Assign(b: BufId, o: BufId)
    | Destroy(b: BufId)
    | AddHeader(b: BufId, data: seq<Byte>)
    | AddTrailer(b: BufId, data: seq<Byte>)
    | RemoveAtStart(b: BufId, n: nat)
    | RemoveAtEnd(b: BufId, n: nat)
    | CreateFragment(f: BufId, b: BufId, start: nat, length: nat)
    | CreateFullCopy(f: BufId, b: BufId, recommendedStart: nat)

  /** The buffers an operation names are alive (or not yet, for those it makes), and sizes fit 32 bits. */
  predicate Legal(v: Views, op: Op) {
    match op
    case Initialize(b, z, r) => b !in v
    case CopyConstruct(b, o) => b !in v && o in v
    case Assign(b, o) => b in v && o in v
    case Destroy(b) => b in v
    case AddHeader(b, data) => b in v
    case AddTrailer(b, data) => b in v
    case RemoveAtStart(b, n) => b in v
    case RemoveAtEnd(b, n) => b in v
    case CreateFragment(f, b, start, length) => f !in v && b in v && start + length < WORD && |v[b]| < WORD
    case CreateFullCopy(f, b, r) => f !in v && b in v
  }

  /** What an operation does to strings of bytes. */
  function Apply(v: Views, op: Op): Views
    requires Legal(v, op)
  {
    match op
    case Initialize(b, z, r) => v[b := Zeros(z)]
    case CopyConstruct(b, o) => v[b := v[o]]
    case Assign(b, o) => v[b := v[o]]
    case Destroy(b) => v - {b}
    case AddHeader(b, data) => v[b := data + v[b]]
    case AddTrailer(b, data) => v[b := v[b] + data]
    case RemoveAtStart(b, n) => v[b := v[b][Min(n, |v[b]|)..]]
    case RemoveAtEnd(b, n) => v[b := v[b][..|v[b]| - Min(n, |v[b]|)]]
    case CreateFragment(f, b, start, length) =>
      v[f := if start + length <= |v[b]| then v[b][start..start + length] else []]
    case CreateFullCopy(f, b, r) => v[f := v[b]]
  }

  predicate LegalRun(v: Views, ops: seq<Op>)
    decreases |ops|
  {
    ops == [] || (Legal(v, ops[0]) && LegalRun(Apply(v, ops[0]), ops[1..]))
  }

  function RunOps(v: Views, ops: seq<Op>): Views
    requires LegalRun(v, ops)
    decreases |ops|
  {
    if ops == [] then v else RunOps(Apply(v, ops[0]), ops[1..])
  }

  method Perform(store: BufferStore, op: Op)
    requires store.Valid() && Legal(store.Bytes(), op)
    modifies store
    ensures store.Valid() && store.Bytes() == Apply(old(store.Bytes()), op)
  {
    hide Wf, View;
    match op
    case Initialize(b, z, r) => store.Initialize(b, z, r);
    case CopyConstruct(b, o) => store.CopyConstruct(b, o);
    case Assign(b, o) => store.Assign(b, o);
    case Destroy(b) => store.Destroy(b);
    case AddHeader(b, data) => store.AddHeader(b, data);
    case AddTrailer(b, data) => store.AddTrailer(b, data);
    case RemoveAtStart(b, n) => store.RemoveAtStart(b, n);
    case RemoveAtEnd(b, n) => store.RemoveAtEnd(b, n);
    case CreateFragment(f, b, start, length) => store.CreateFragment(f, b, start, length);
    case CreateFullCopy(f, b, r) => store.CreateFullCopy(f, b, r);
  }

  /** Over any interleaving of operations on any number of buffers that share storage, growing, writing the
      new bytes, cutting and copying act on each buffer as on a string of its own. */
  method Execute(store: BufferStore, ops: seq<Op>)
    requires store.Valid() && LegalRun(store.Bytes(), ops)
    modifies store
    ensures store.Valid() && store.Bytes() == RunOps(old(store.Bytes()), ops)
  {
    hide Wf, View, Legal, Apply;
    ghost var v0 := store.Bytes();
    var k := 0;
    while k < |ops|
      invariant k <= |ops| && store.Valid()
      invariant LegalRun(store.Bytes(), ops[k..])
      invariant RunOps(store.Bytes(), ops[k..]) == RunOps(v0, ops)
    {
      assert ops[k..][0] == ops[k] && ops[k..][1..] == ops[k + 1..];
      Perform(store, ops[k]);
      k := k + 1;
    }
    assert ops[k..] == [];
  }
}
