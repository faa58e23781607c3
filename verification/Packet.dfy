/** What packet operations do to the byte tags of packets, in the order in which they call the tag list. */
module Packets {
  import opened Addresses
  import opened ByteStrings
  import opened ByteTagArrays
  import opened ByteTagLabels
  import opened ByteTagLists

  type PacketId = int

  /** The labels of the first size bytes. */
  ghost function LabelsOf(items: seq<Entry>, size: nat): (r: seq<seq<Label>>)
    ensures |r| == size
    ensures forall i :: 0 <= i < size ==> r[i] == LabelsAt(items, i)
  {
    seq(size, i => LabelsAt(items, i))
  }

  /** n bytes without labels. */
  function Bare(n: nat): (r: seq<seq<Label>>)
    ensures |r| == n
    ensures forall i :: 0 <= i < n ==> r[i] == []
  {
    seq(n, _ => [])
  }

  /** The same bytes with one more label each. */
  function Labelled(v: seq<seq<Label>>, mark: Label): (r: seq<seq<Label>>)
    ensures |r| == |v|
    ensures forall i :: 0 <= i < |v| ==> r[i] == v[i] + [mark]
  {
    seq(|v|, i requires 0 <= i < |v| => v[i] + [mark])
  }

  type Packets = map<PacketId, seq<seq<Label>>>

  ghost function LabelMap(t: Views, sizes: map<PacketId, nat>): (v: Packets)
    requires t.Keys == sizes.Keys
    ensures v.Keys == sizes.Keys
    ensures forall p :: p in sizes ==> v[p] == LabelsOf(t[p], sizes[p])
  {
    map p | p in sizes :: LabelsOf(t[p], sizes[p])
  }

  /** One packet gets new tags and a new size. */
  lemma OneChanged(t: Views, t2: Views, sizes: map<PacketId, nat>, sizes2: map<PacketId, nat>, p: PacketId,
      items: seq<Entry>, size: nat)
    requires t.Keys == sizes.Keys && t2 == t[p := items] && sizes2 == sizes[p := size]
    ensures t2.Keys == sizes2.Keys
    ensures LabelMap(t2, sizes2) == LabelMap(t, sizes)[p := LabelsOf(items, size)]
  {
    hide LabelsOf;
  }

  class PacketStore {
    const tags: ByteTagStore
    var sizes: map<PacketId, nat>

    ghost predicate Valid()
      reads this, tags
    {
      tags.Valid() && sizes.Keys == tags.lists.Keys
    }

    /** The labels of the bytes of each packet. */
    ghost function Labels(): (v: Packets)
      reads this, tags
      requires Valid()
      ensures v.Keys == sizes.Keys
      ensures forall p :: p in sizes ==> v[p] == LabelsOf(tags.Tags()[p], sizes[p])
    {
      LabelMap(tags.Tags(), sizes)
    }

    constructor ()
      ensures Valid() && Labels() == map[] && fresh(tags)
    {
      tags := new ByteTagStore();
      sizes := map[];
    }

    method Create(p: PacketId, size: nat)
      requires Valid() && p !in sizes
      modifies this, tags
      ensures Valid() && Labels() == old(Labels())[p := Bare(size)]
    {
      hide Wf, View, LabelMap, LabelsOf;
      ghost var t0, sizes0 := tags.Tags(), sizes;
      tags.Construct(p);
      sizes := sizes[p := size];
      NoLabels(size);
      OneChanged(t0, tags.Tags(), sizes0, sizes, p, tags.Tags()[p], sizes[p]);
    }

    method Copy(p: PacketId, o: PacketId)
      requires Valid() && p !in sizes && o in sizes
      modifies this, tags
      ensures Valid() && Labels() == old(Labels())[p := old(Labels())[o]]
    {
      hide Wf, View, LabelMap, LabelsOf;
      ghost var t0, sizes0 := tags.Tags(), sizes;
      tags.CopyConstruct(p, o);
      sizes := sizes[p := sizes[o]];
      OneChanged(t0, tags.Tags(), sizes0, sizes, p, tags.Tags()[p], sizes[p]);
    }

    /** New bytes at the start have no labels, and the labels of the others move with them. */
    method AddHeader(p: PacketId, n: nat)
      requires Valid() && p in sizes && n + sizes[p] <= OFFSET_MAX
      modifies this, tags
      ensures Valid() && Labels() == old(Labels())[p := Bare(n) + old(Labels())[p]]
    {
      hide Wf, View, LabelMap, LabelsAt, LabelsOf, Shifted, Bare;
      ghost var t0, sizes0 := tags.Tags(), sizes;
      ghost var items, size := tags.Tags()[p], sizes[p];
      sizes := sizes[p := sizes[p] + n];
      MoveTags(p, n);
      Headed(items, tags.Tags()[p], n, size);
      OneChanged(t0, tags.Tags(), sizes0, sizes, p, tags.Tags()[p], sizes[p]);
    }

    /** Move the tags of p by n and cut those that would cover the first n bytes. */
    method MoveTags(p: PacketId, n: nat)
      requires tags.Valid() && p in tags.lists
      modifies tags
      ensures tags.Valid() && p in tags.lists && tags.Tags() == old(tags.Tags())[p := tags.Tags()[p]]
      ensures forall i :: i < OFFSET_MAX && (0 <= i || i < n) ==>
        LabelsAt(tags.Tags()[p], i) == if i < n then [] else LabelsAt(Shifted(old(tags.Tags())[p], n), i)
    {
      hide Wf, View, LabelsAt, Shifted;
      tags.Adjust(p, n);
      tags.AddAtStart(p, n);
    }

    /** Removing a header or any bytes at the start: what is left keeps its labels. */
    method RemoveAtStart(p: PacketId, n: nat)
      requires Valid() && p in sizes
      modifies this, tags
      ensures Valid()
      ensures var v := old(Labels())[p]; Labels() == old(Labels())[p := v[Min(n, |v|)..]]
    {
      hide Wf, View, LabelMap, LabelsAt, LabelsOf, Shifted, Bare;
      ghost var t0, sizes0 := tags.Tags(), sizes;
      ghost var items, size := tags.Tags()[p], sizes[p];
      sizes := sizes[p := sizes[p] - Min(n, sizes[p])];
      var back: int := n;
      tags.Adjust(p, 0 - back);
      Shortened(items, tags.Tags()[p], size, n);
      OneChanged(t0, tags.Tags(), sizes0, sizes, p, tags.Tags()[p], sizes[p]);
    }

    /** New bytes at the end, of a trailer or padding, have no labels. */
    method AddTrailer(p: PacketId, n: nat)
      requires Valid() && p in sizes && sizes[p] + n <= OFFSET_MAX
      modifies this, tags
      ensures Valid() && Labels() == old(Labels())[p := old(Labels())[p] + Bare(n)]
    {
      hide Wf, View, LabelMap, LabelsAt, LabelsOf, Shifted, Bare;
      ghost var t0, sizes0 := tags.Tags(), sizes;
      ghost var items, size := tags.Tags()[p], sizes[p];
      tags.AddAtEnd(p, sizes[p]);
      sizes := sizes[p := sizes[p] + n];
      assert LabelsOf(tags.Tags()[p], size + n) == LabelsOf(items, size) + Bare(n);
      OneChanged(t0, tags.Tags(), sizes0, sizes, p, tags.Tags()[p], sizes[p]);
    }

    /** Removing a trailer or any bytes at the end does not touch the tags. */
    method RemoveAtEnd(p: PacketId, n: nat)
      requires Valid() && p in sizes
      modifies this
      ensures Valid()
      ensures var v := old(Labels())[p]; Labels() == old(Labels())[p := v[..|v| - Min(n, |v|)]]
    {
      hide Wf, View, LabelMap, LabelsAt, LabelsOf, Shifted, Bare;
      ghost var t0, sizes0 := tags.Tags(), sizes;
      ghost var items, size := tags.Tags()[p], sizes[p];
      sizes := sizes[p := sizes[p] - Min(n, sizes[p])];
      assert LabelsOf(items, size - Min(n, size)) == LabelsOf(items, size)[..size - Min(n, size)];
      OneChanged(t0, tags.Tags(), sizes0, sizes, p, tags.Tags()[p], sizes[p]);
    }

    /** A fragment has the labels of the bytes it is made of. */
    method CreateFragment(f: PacketId, p: PacketId, start: nat, length: nat)
      requires Valid() && f !in sizes && p in sizes && start + length <= sizes[p]
      modifies this, tags
      ensures Valid() && Labels() == old(Labels())[f := old(Labels())[p][start..start + length]]
    {
      hide Wf, View, LabelMap, LabelsAt, LabelsOf, Shifted, Bare;
      ghost var t0, sizes0 := tags.Tags(), sizes;
      ghost var items := tags.Tags()[p];
      tags.CopyConstruct(f, p);
      var back: int := start;
      tags.Adjust(f, 0 - back);
      ghost var size := sizes[p];
      sizes := sizes[f := length];
      Fragmented(items, size, start, length);
      OneChanged(t0, tags.Tags(), sizes0, sizes, f, tags.Tags()[f], sizes[f]);
    }

    /** The bytes of another packet come at the end with their labels. */
    method AddAtEnd(p: PacketId, o: PacketId)
      requires Valid() && p in sizes && o in sizes && p != o && sizes[p] + sizes[o] <= OFFSET_MAX
      modifies this, tags
      ensures Valid() && Labels() == old(Labels())[p := old(Labels())[p] + old(Labels())[o]]
    {
      hide Wf, View, LabelMap, LabelsAt, LabelsOf, Shifted, Bare, ClipAll;
      ghost var t0, sizes0 := tags.Tags(), sizes;
      ghost var a, b := tags.Tags()[p], tags.Tags()[o];
      var size := sizes[p];
      tags.AddAtEnd(p, size);
      ghost var a2 := tags.Tags()[p];
      ghost var b2 := AddCopied(p, o, size);
      sizes := sizes[p := size + sizes[o]];
      Joined(a, a2, b, b2, tags.Tags()[p], size, sizes[o]);
      OneChanged(t0, tags.Tags(), sizes0, sizes, p, tags.Tags()[p], sizes[p]);
    }

    /** Add the tags of o, moved behind the first size bytes. */
    method AddCopied(p: PacketId, o: PacketId, size: nat) returns (ghost b2: seq<Entry>)
      requires tags.Valid() && p in tags.lists && o in tags.lists && p != o
      modifies tags
      ensures tags.Valid() && p in tags.lists && tags.Tags() == old(tags.Tags())[p := tags.Tags()[p]]
      ensures tags.Tags()[p] == old(tags.Tags())[p] + ClipAll(Shifted(b2, size))
      ensures forall i :: i < OFFSET_MAX ==>
        LabelsAt(b2, i) == if i < 0 then [] else LabelsAt(old(tags.Tags())[o], i)
    {
      hide Wf, View, LabelsAt, ClipAll;
      SomeIsFree(tags.lists.Keys);
      var copy :| copy > 0 && copy !in tags.lists.Keys;
      ghost var t := tags.Tags();
      tags.CopyConstruct(copy, o);
      tags.AddAtStart(copy, 0);
      b2 := tags.Tags()[copy];
      tags.Adjust(copy, size);
      assert tags.Tags() == t[copy := Shifted(b2, size)];
      tags.AddList(p, copy);
      Tidied(t, copy, Shifted(b2, size), p, tags.Tags()[p]);
      tags.Destroy(copy);
    }

    /** Tag all bytes that the packet has now. */
    method AddByteTag(p: PacketId, tid: nat, data: seq<Byte>)
      requires Valid() && p in sizes
      modifies this, tags
      ensures Valid() && Labels() == old(Labels())[p := Labelled(old(Labels())[p], Label(tid, data))]
    {
      hide Wf, View, LabelMap, LabelsAt, LabelsOf, Shifted, Bare;
      ghost var t0, sizes0 := tags.Tags(), sizes;
      ghost var items := tags.Tags()[p];
      ghost var tag := Entry(tid, data, 0, sizes[p]);
      tags.Add(p, Entry(tid, data, 0, sizes[p]));
      forall i | 0 <= i < sizes[p]
        ensures LabelsAt(tags.Tags()[p], i) == LabelsAt(items, i) + [Label(tid, data)]
      {
        LabelsSnoc(items, tag, i);
      }
      assert LabelsOf(tags.Tags()[p], sizes[p]) == Labelled(LabelsOf(items, sizes[p]), Label(tid, data));
      OneChanged(t0, tags.Tags(), sizes0, sizes, p, tags.Tags()[p], sizes[p]);
    }
  }

  lemma NoLabels(size: nat)
    ensures LabelsOf([], size) == Bare(size)
  {
  }

  lemma Headed(items: seq<Entry>, items2: seq<Entry>, n: nat, size: nat)
    requires n + size <= OFFSET_MAX
    requires forall i :: i < OFFSET_MAX && (0 <= i || i < n) ==>
      LabelsAt(items2, i) == if i < n then [] else LabelsAt(Shifted(items, n), i)
    ensures LabelsOf(items2, n + size) == Bare(n) + LabelsOf(items, size)
  {
    hide LabelsAt, LabelsOf;
    forall i | 0 <= i < n + size
      ensures LabelsAt(items2, i) == (Bare(n) + LabelsOf(items, size))[i]
    {
      LabelsShifted(items, n, i);
    }
    assert LabelsOf(items2, n + size) == Bare(n) + LabelsOf(items, size);
  }

  lemma Fragmented(items: seq<Entry>, size: nat, start: nat, length: nat)
    requires start + length <= size
    ensures LabelsOf(Shifted(items, 0 - start), length) == LabelsOf(items, size)[start..start + length]
  {
    hide LabelsAt, LabelsOf, Shifted;
    var part := LabelsOf(items, size)[start..start + length];
    forall i | 0 <= i < length
      ensures LabelsAt(Shifted(items, 0 - start), i) == part[i]
    {
      LabelsShifted(items, 0 - start, i);
    }
    assert LabelsOf(Shifted(items, 0 - start), length) == part;
  }

  lemma Tidied(t: Views, c: ListId, x: seq<Entry>, p: ListId, v: seq<Entry>)
    requires c !in t && p != c
    ensures t[c := x][p := v] - {c} == t[p := v]
  {
  }

  lemma Joined(a: seq<Entry>, a2: seq<Entry>, b: seq<Entry>, b2: seq<Entry>, all: seq<Entry>, size: nat, other: nat)
    requires size + other <= OFFSET_MAX && all == a2 + ClipAll(Shifted(b2, size))
    requires forall i :: 0 <= i < OFFSET_MAX ==> LabelsAt(a2, i) == if i < size then LabelsAt(a, i) else []
    requires forall i :: i < OFFSET_MAX ==> LabelsAt(b2, i) == if i < 0 then [] else LabelsAt(b, i)
    ensures LabelsOf(all, size + other) == LabelsOf(a, size) + LabelsOf(b, other)
  {
    hide LabelsAt, LabelsOf, ClipAll;
    forall i | 0 <= i < size + other
      ensures LabelsAt(all, i) == (LabelsOf(a, size) + LabelsOf(b, other))[i]
    {
      LabelsConcat(a2, ClipAll(Shifted(b2, size)), i);
      ClipLabels(Shifted(b2, size), i);
      LabelsShifted(b2, size, i);
    }
    assert LabelsOf(all, size + other) == LabelsOf(a, size) + LabelsOf(b, other);
  }

  lemma Shortened(items: seq<Entry>, items2: seq<Entry>, size: nat, n: nat)
    requires items2 == Shifted(items, 0 - n)
    ensures LabelsOf(items2, size - Min(n, size)) == LabelsOf(items, size)[Min(n, size)..]
  {
    hide LabelsAt, LabelsOf;
    forall i | 0 <= i < size - Min(n, size)
      ensures LabelsAt(items2, i) == LabelsAt(items, i + n)
    {
      LabelsShifted(items, 0 - n, i);
    }
    assert LabelsOf(items2, size - Min(n, size)) == LabelsOf(items, size)[Min(n, size)..];
  }
}
