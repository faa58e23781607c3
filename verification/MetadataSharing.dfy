/** What an operation on one packet does to the metadata of another one that shares its array. */
module MetadataSharing {
  import opened ByteStrings
  import opened MetadataCodec
  import opened MetadataLabels
  import opened MetadataMemory
  import opened Metadata
  import opened MetadataRejoin
  import opened MetadataRuns

  // ----- Which packets are hit -----

  /** The place is that of an item that is not the last one of the list. */
  ghost predicate Inner(nodes: seq<Node>, off: nat, k: int) {
    0 <= k < |nodes| - 1 && nodes[k].off == off
  }

  ghost predicate HasInner(nodes: seq<Node>, off: nat) {
    exists k :: Inner(nodes, off, k)
  }

  /** A list that has nodes in common with another one uses the last link of that one exactly when that is a link
      between two of its nodes. */
  lemma ClearIsOuter(nodes: seq<Node>, other: seq<Node>, off: nat)
    requires Beside(nodes, other) && Beside(nodes, nodes) && other != [] && off == other[|other| - 1].off
    requires forall i, j :: 0 <= i < j < |nodes| ==> nodes[i].off != nodes[j].off
    ensures Clear(nodes, off) <==> !HasInner(nodes, off)
  {
    forall k | 0 <= k < |nodes|
      ensures ClearAt(nodes, off, k) <==> !Inner(nodes, off, k)
    {
      assert nodes[k] == other[|other| - 1] || Apart(nodes[k], other[|other| - 1]);
    }
    if !HasInner(nodes, off) {
      forall k | 0 <= k < |nodes|
        ensures ClearAt(nodes, off, k)
      {
        assert !Inner(nodes, off, k);
      }
    }
    if k :| Inner(nodes, off, k) {
      assert !ClearAt(nodes, off, k);
    }
  }

  /** Likewise for the first link. */
  lemma ClearIsFirst(nodes: seq<Node>, other: seq<Node>, off: nat)
    requires Beside(nodes, other) && other != [] && off == other[0].off
    ensures Clear(nodes, off + 2) <==> forall k :: 0 < k < |nodes| ==> nodes[k].off != off
  {
    forall k | 0 <= k < |nodes|
      ensures ClearAt(nodes, off + 2, k) <==> k == 0 || nodes[k].off != off
    {
      assert nodes[k] == other[0] || Apart(nodes[k], other[0]);
    }
  }

  /** Of a packet that was the last to write in its array, all others that reach no further than their used part
      lie within the used part. */
  lemma BehindIsWithin(q: PacketMetadata, used: nat)
    requires q.Whole() && q.Overhang() == 0 && Behind(q.nodes, q.used, used)
    ensures Within(q.nodes, used)
  {
    hide Laid;
  }

  /** When packets share an array, an operation that writes in it hits another packet, which does not reach beyond
      its used part, just if the first packet has no items and the other goes on behind its used part, or else, if
      the link that is set is one between two items of the other. */
  lemma WhoIsHit(ms: seq<PacketMetadata>, op: Op, k: nat)
    requires AllWhole(ms) && Names(op, |ms|) && (op.AddHeader? || op.AddTrailer? || op.AddAtEnd?)
    requires k < |ms| && k != op.m && ms[k].data == ms[op.m].data && ms[k].Overhang() == 0
    requires ms[op.m].nodes != [] ==> ms[op.m].Latest()
    ensures var t, q := ms[op.m], ms[k];
      if t.nodes == [] then Hits(t, op, q) <==> !Within(q.nodes, t.used)
      else if op.AddHeader? then Hits(t, op, q) <==> exists j :: 0 < j < |q.nodes| && q.nodes[j].off == t.head
      else Hits(t, op, q) <==> HasInner(q.nodes, t.tail)
  {
    hide PacketMetadata.WholeIn, Within, Clear, Counted, Beside, Behind, HasInner;
    var t, q := ms[op.m], ms[k];
    assert Shots(ms)[k] == ShotOf(q) && Shots(ms)[op.m] == ShotOf(t);
    assert Beside(q.nodes, t.nodes) && Beside(q.nodes, q.nodes);
    if t.nodes == [] {
      NilIsClear(t, q);
    } else {
      BehindIsWithin(q, t.used);
      BytesAre(t);
      WholeOffsets(q);
      if op.AddHeader? {
        ClearIsFirst(q.nodes, t.nodes, t.head);
      } else {
        ClearIsOuter(q.nodes, t.nodes, t.tail);
      }
    }
  }

  lemma NilIsClear(t: PacketMetadata, q: PacketMetadata)
    requires t.Whole() && t.nodes == []
    ensures Within(q.nodes, t.used) ==> Clear(q.nodes, t.tail) && Clear(q.nodes, t.head + 2)
  {
    if Within(q.nodes, t.used) {
      ClearBehind(q.nodes, t.used, t.tail);
      ClearBehind(q.nodes, t.used, t.head + 2);
    }
  }

  lemma WholeOffsets(q: PacketMetadata)
    requires q.Whole()
    ensures forall i, j :: 0 <= i < j < |q.nodes| ==> q.nodes[i].off != q.nodes[j].off
  {
    hide NodeAt, AllLinked;
    LaidIsChained(q.data.bytes, q.nodes);
  }

  // ----- What the other packet reads -----

  /** The items that following the links from the given place reads, at most n of them. */
  ghost function Walk(data: seq<Byte>, current: nat, tail: nat, uid: nat, n: nat): seq<Item>
    decreases n
  {
    if n == 0 || current == NIL || current + 8 > |data| then [] else
      [ReadItem(data[current..], uid)] +
      if current == tail then [] else Walk(data, From16(data[current..]), tail, uid, n - 1)
  }

  /** What a reader of the packet sees. */
  ghost function Seen(m: PacketMetadata, n: nat): seq<Item>
    reads m, m.data`bytes
  {
    Walk(m.data.bytes, m.head, m.tail, m.packetUid, n)
  }

  /** Following the links of a list reads its items: it ends at the tail, or else where there is no link. */
  lemma {:induction false} WalkList(data: seq<Byte>, nodes: seq<Node>, items: seq<Item>, uid: nat, tail: nat, n: nat)
    requires Chained(data, nodes) && Spelled(nodes, items, uid) && nodes != [] && n >= |nodes|
    requires forall k :: 0 <= k < |nodes| ==> nodes[k].off < NIL
    requires forall k :: 0 <= k < |nodes| - 1 ==> nodes[k].off != tail
    requires nodes[|nodes| - 1].off == tail || (n > |nodes| && LinkAt(data, nodes[|nodes| - 1].off, NIL))
    ensures Walk(data, nodes[0].off, tail, uid, n) == items
  {
    hide Walk, Body, ReadItem, LinkAt, NodeAt, Linked, Storable, From16;
    assert NodeAt(data, nodes[0]) && Spells(nodes[0], items[0], uid);
    ReadNode(data, nodes[0], items[0], uid);
    WalkOne(data, nodes[0].off, tail, uid, n);
    if |nodes| > 1 {
      ChainedTail(data, nodes);
      SpelledTail(nodes, items, uid);
      LinkTo(data, nodes);
      ReadLink(data, nodes[0].off, nodes[1].off);
      WalkList(data, nodes[1..], items[1..], uid, tail, n - 1);
      assert items == [items[0]] + items[1..];
    } else {
      assert items == [items[0]];
      if nodes[0].off != tail {
        ReadLink(data, nodes[0].off, NIL);
        NoWalk(data, tail, uid, n - 1);
      }
    }
  }

  lemma WalkOne(data: seq<Byte>, current: nat, tail: nat, uid: nat, n: nat)
    requires n > 0 && current != NIL && current + 8 <= |data|
    ensures Walk(data, current, tail, uid, n) == [ReadItem(data[current..], uid)] +
      if current == tail then [] else Walk(data, From16(data[current..]), tail, uid, n - 1)
  {
  }

  lemma LinkTo(data: seq<Byte>, nodes: seq<Node>)
    requires Chained(data, nodes) && |nodes| > 1
    ensures LinkAt(data, nodes[0].off, nodes[1].off)
  {
    assert Linked(data, nodes[0], nodes[1]);
  }

  lemma ChainedTail(data: seq<Byte>, nodes: seq<Node>)
    requires Chained(data, nodes) && nodes != []
    ensures Chained(data, nodes[1..])
  {
    hide NodeAt, Linked;
    var r := nodes[1..];
    forall k | 0 <= k < |r| - 1
      ensures Linked(data, r[k], r[k + 1])
    {
      assert Linked(data, nodes[k + 1], nodes[k + 2]);
    }
  }

  /** A reader of a packet that is whole sees its items. */
  lemma WholeIsSeen(m: PacketMetadata, n: nat)
    requires m.Whole() && n >= |m.nodes|
    ensures Seen(m, n) == m.items
  {
    hide PacketMetadata.Whole, Walk, Spelled, Chained;
    BytesAre(m);
    WholeIsReadable(m);
    if m.nodes != [] {
      ReadableWalk(m);
      WalkList(m.data.bytes, m.nodes, m.items, m.packetUid, m.tail, n);
    } else {
      NoWalk(m.data.bytes, m.tail, m.packetUid, n);
      assert m.items == [];
    }
  }

  lemma NoWalk(data: seq<Byte>, tail: nat, uid: nat, n: nat)
    ensures Walk(data, NIL, tail, uid, n) == []
  {
  }

  lemma ReadableWalk(m: PacketMetadata)
    requires m.Readable()
    ensures Chained(m.data.bytes, m.nodes) && Spelled(m.nodes, m.items, m.packetUid)
    ensures forall k :: 0 <= k < |m.nodes| ==> m.nodes[k].off < NIL
    ensures forall k :: 0 <= k < |m.nodes| - 1 ==> m.nodes[k].off != m.tail
  {
  }

  /** A reader whose packet goes on from item k to a new one sees that one last. */
  lemma SeenOn(q: PacketMetadata, k: nat, off: nat, x: Item, n: nat)
    requires q.Spelt() && q.nodes != [] && k < |q.nodes| - 1 && n > k + 2 && Storable(x, q.packetUid) && off < NIL
    requires q.head == q.nodes[0].off && Chained(q.data.bytes, q.nodes[..k + 1] + [Node(off, Body(x))])
    requires LinkAt(q.data.bytes, off, NIL) && off != q.tail
    requires forall j :: 0 <= j <= k ==> q.nodes[j].off < NIL && q.nodes[j].off != q.tail
    ensures |q.items| == |q.nodes| && Seen(q, n) == q.items[..k + 1] + [x]
  {
    hide Walk, Chained, Body, LinkAt;
    var nodes, items := q.nodes[..k + 1] + [Node(off, Body(x))], q.items[..k + 1] + [x];
    forall j | 0 <= j < |nodes|
      ensures Spells(nodes[j], items[j], q.packetUid)
    {
      if j <= k {
        assert Spells(q.nodes[j], q.items[j], q.packetUid);
      }
    }
    WalkList(q.data.bytes, nodes, items, q.packetUid, q.tail, n);
  }

  /** A trailer's bytes do not depend on the packet. */
  lemma SameBody(uid: nat, uid2: nat, ty: nat, size: nat, c: nat)
    requires uid < 0x8000_0000 && uid2 < 0x8000_0000 && ty < 0x8000_0000 && size < 0x1_0000_0000 && c < 0x1_0000
    ensures var x, y := NewItem(uid, ty, size, c), NewItem(uid2, ty, size, c);
      Fits(x) && Fits(y) && Body(y) == Body(x) && Storable(y, uid2) && y.fragStart <= y.fragEnd
  {
    hide Uleb128, Le16;
  }

  /** The list up to a node whose link has been set to a new node at the end of the array. */
  lemma TurnedOff(before: seq<Byte>, after: seq<Byte>, nodes: seq<Node>, k: nat, nd: Node)
    requires Laid(before, nodes) && Within(nodes, nd.off) && k < |nodes|
    requires KeptBut(before, after, nd.off, nodes[k].off) && NodeAt(after, nd) && Linked(after, nodes[k], nd)
    ensures Chained(after, nodes[..k + 1] + [nd])
  {
    hide NodeAt, Linked, KeptBut, Clear;
    LaidSlice(before, nodes, 0, k + 1);
    assert nodes[0..k + 1] == nodes[..k + 1];
    ClearEnds(before, nodes[..k + 1]);
    LaidKept(before, after, nd.off, nodes[k].off, nodes[..k + 1]);
    LaidBack(after, nodes[..k + 1], nd);
    LaidIsChained(after, nodes[..k + 1] + [nd]);
  }

  lemma LastPair(m: PacketMetadata)
    requires m.Valid() && |m.nodes| > 1
    ensures var t := |m.nodes| - 1;
      Linked(m.data.bytes, m.nodes[t - 1], m.nodes[t]) && NodeAt(m.data.bytes, m.nodes[t])
  {
  }

  lemma SameLink(data: seq<Byte>, a: Node, b: Node, nd: Node)
    requires Linked(data, a, nd) && b.off == a.off
    ensures Linked(data, b, nd)
  {
  }

  lemma UidOf(m: PacketMetadata)
    requires m.Whole()
    ensures m.packetUid < 0x8000_0000
  {
  }

  /** What the list keeps of its labels when it goes on from item k to a new one. */
  lemma LabelsOn(items: seq<Item>, k: nat, x: Item)
    requires AllFit(items) && k < |items| && x.fragStart <= x.fragEnd
    ensures AllFit(items[..k + 1] + [x]) && AllFit(items[k + 1..])
    ensures Labels(items[..k + 1] + [x]) == Labels(items) <==> ItemLabels(x) == Labels(items[k + 1..])
  {
    hide Labels, ItemLabels;
    FitSlices(items, k + 1);
    OneFits(x);
    Joined(items[..k + 1], [x]);
    Joined(items[..k + 1], items[k + 1..]);
    assert items == items[..k + 1] + items[k + 1..];
    var a, b, c := Labels(items[..k + 1]), ItemLabels(x), Labels(items[k + 1..]);
    assert (a + b)[|a|..] == b && (a + c)[|a|..] == c;
  }

  lemma HitOrClear(q: PacketMetadata, other: seq<Node>, off: nat)
    requires q.Whole() && Beside(q.nodes, other) && other != [] && off == other[|other| - 1].off
    ensures Clear(q.nodes, off) <==> !HasInner(q.nodes, off)
  {
    hide Laid, Beside, Clear, HasInner;
    WholeLaid(q);
    LaidBeside(q.data.bytes, q.nodes);
    WholeOffsets(q);
    ClearIsOuter(q.nodes, other, off);
  }

  /** The one item at a place. */
  lemma InnerOf(q: PacketMetadata, off: nat) returns (k: nat)
    requires q.Whole() && HasInner(q.nodes, off)
    ensures Inner(q.nodes, off, k) && forall j :: Inner(q.nodes, off, j) ==> j == k
  {
    hide PacketMetadata.Whole;
    WholeOffsets(q);
    var i :| Inner(q.nodes, off, i);
    k := i;
  }

  lemma Places(q: PacketMetadata, k: nat, used: nat)
    requires q.Whole() && Within(q.nodes, used) && used < NIL && k < |q.nodes| - 1
    ensures q.head == q.nodes[0].off && used != q.tail
    ensures forall j :: 0 <= j <= k ==> q.nodes[j].off < NIL && q.nodes[j].off != q.tail
  {
    hide PacketMetadata.Whole;
    BytesAre(q);
    WholeOffsets(q);
    assert End(q.nodes[|q.nodes| - 1]) <= used;
    forall j | 0 <= j <= k
      ensures q.nodes[j].off < NIL
    {
      assert End(q.nodes[j]) <= used;
    }
  }

  /** Add a trailer to packet p while packet q shares its array.  A reader of q still sees its items, unless the
      trailer is written in that array and the last item of p is one of q's that others follow: then the reader goes
      on from there to the trailer, and sees the same labels just if those of the trailer are those that are lost. */
  method AddTrailerBeside(p: PacketMetadata, q: PacketMetadata, ty: nat, size: nat, c: nat, n: nat)
    returns (ghost hit: bool, ghost k: nat)
    requires p.Valid() && q.Valid() && p.Whole() && q.Whole() && p != q && p.data == q.data && p.data.count > 1
    requires p.nodes != [] && Beside(q.nodes, p.nodes) && Behind(q.nodes, q.used, p.data.dirtyEnd)
    requires ty < 0x8000_0000 && size < 0x1_0000_0000 && c < 0x1_0000 && p.used + 30 < NIL && n > |q.nodes|
    modifies p, p.data
    ensures p.Valid() && p.Bytes() == old(p.Bytes()) + NewLabels(p.packetUid, ty, size, c)
    ensures |q.items| == |q.nodes| && AllFit(q.items) && AllFit(Seen(q, n))
    ensures hit <==> old(p.InPlace(Length(NewItem(p.packetUid, ty, size, c))) && HasInner(q.nodes, p.tail))
    ensures hit ==> Inner(q.nodes, old(p.tail), k) && AllFit(q.items[k + 1..])
    ensures hit ==> Seen(q, n) == q.items[..k + 1] + [NewItem(q.packetUid, ty, size, c)]
    ensures Labels(Seen(q, n)) == q.Bytes() <==>
      !hit || NewLabels(q.packetUid, ty, size, c) == Labels(q.items[k + 1..])
    ensures !hit ==> q.Whole() && Seen(q, n) == q.items
  {
    hide PacketMetadata.Whole, PacketMetadata.WholeIn, PacketMetadata.Valid, PacketMetadata.Bytes, Labels, ItemLabels,
         AllFit, KeptBut, PacketMetadata.SpoiledBy, PacketMetadata.Readable, Body, Laid, Within, Clear, Behind, Beside,
         LinkAt, NodeAt, Linked, Seen, Length, PacketMetadata.Spelt, Chained, HasInner, Storable, Fits;
    BytesAre(p);
    BytesAre(q);
    ValidIsWhole(p);
    ValidIsWhole(q);
    Unspoiled(p, Links(NIL, p.tail));
    ghost var bytes0, used0, tail0, t, nodes0, q0 := q.data.bytes, p.used, p.tail, |p.nodes| - 1, p.nodes, q.data;
    ghost var here := p.InPlace(Length(NewItem(p.packetUid, ty, size, c)));
    assert p.head != NIL && (here ==> p.used == p.data.dirtyEnd);
    if here {
      BehindIsWithin(q, used0);
      WholeOffsets(q);
    }
    WholeLaid(q);
    UidOf(p);
    UidOf(q);
    HitOrClear(q, p.nodes, tail0);
    hit, k := here && HasInner(q.nodes, tail0), 0;
    if hit {
      k := InnerOf(q, tail0);
      Places(q, k, used0);
    }
    SameBody(p.packetUid, q.packetUid, ty, size, c);
    p.AddTrailer(ty, size, c);
    ghost var x := NewItem(q.packetUid, ty, size, c);
    if hit {
      LastPair(p);
      SameLink(p.data.bytes, nodes0[t], q.nodes[k], Node(used0, Body(x)));
      assert p.nodes == nodes0 + [Node(used0, Body(x))];
      TurnedOff(bytes0, q.data.bytes, q.nodes, k, Node(used0, Body(x)));
      SeenOn(q, k, used0, x, n);
      LabelsOn(q.items, k, x);
      assert NewLabels(q.packetUid, ty, size, c) == ItemLabels(x) && q.Bytes() == Labels(q.items);
    } else {
      if here {
        q.StillWhole(bytes0, used0, tail0);
      }
      WholeIsSeen(q, n);
    }
  }

  // ----- Inputs -----

  lemma WithoutPayload()
    ensures var items := HeaderAndPayload();
      && AllFit(items) && |Labels(items)| == 250 && |items| == 2 && AllFit(items[..1]) && |Labels(items[..1])| == 200
      && DropEnd(items, 50) == items[..1] && !CutsPiece(items, 0, 50)
  {
    hide Labels, DropEnd, CutsEnd, ItemLabels, CutsPiece, AllFit;
    var items := HeaderAndPayload();
    HeaderAndPayloadFit();
    DropEndStep(items, 50);
    DropEndStep(items[..1], 0);
    DropNone(items, 50);
    DropEndLabels(items, 50);
  }

  lemma PartBeside(m: PacketMetadata, k: nat)
    requires m.Whole() && k <= |m.nodes|
    ensures Beside(m.nodes, m.nodes[..k]) && Beside(m.nodes, m.nodes)
  {
    hide Laid;
    WholeLaid(m);
    LaidBeside(m.data.bytes, m.nodes);
  }

  lemma TrailerLength(x: Item)
    requires x == NewItem(7, 2, 4, 2)
    ensures Length(x) == 8 && x.fragStart <= x.fragEnd && |ItemLabels(x)| == 4
  {
  }

  /** A packet of a payload and a 200-byte header, and a copy of it without the payload, which shares its array. */
  method CopyWithoutPayload() returns (p: PacketMetadata, f: PacketMetadata)
    ensures fresh(p) && fresh(f) && fresh(p.data) && p != f && f.data == p.data && p.data.count == 2
    ensures p.Valid() && p.Whole() && f.Valid() && f.Whole() && p.packetUid == 7 && p.items == HeaderAndPayload()
    ensures |p.nodes| == 2 && f.nodes == p.nodes[..1] && Behind(p.nodes, p.used, p.data.dirtyEnd)
    ensures f.used == p.data.dirtyEnd <= 60 && |p.data.bytes| >= 80
  {
    assert NIL == 0xffff;
    hide *;
    p := MakeHeaderAndPayload(80);
    BytesAre(p);
    WithoutPayload();
    LatestIsBehind(p);
    LatestIs(p);
    RoomFor(p);
    f := p.CreateFragment(0, 50);
    BytesAre(f);
  }

  lemma LatestIs(m: PacketMetadata)
    requires m.Latest()
    ensures m.data.dirtyEnd == m.used
  {
  }

  lemma FirstIsInner(nodes: seq<Node>, other: seq<Node>)
    requires |nodes| == 2 && other == nodes[..1]
    ensures Inner(nodes, other[0].off, 0) && HasInner(nodes, other[0].off)
    ensures forall k :: Inner(nodes, other[0].off, k) ==> k == 0
  {
    assert Inner(nodes, other[0].off, 0);
  }

  lemma RoomInPlace(f: PacketMetadata, n: nat)
    requires f.used == f.data.dirtyEnd && f.used + n <= |f.data.bytes|
    ensures f.InPlace(n)
  {
  }

  lemma ThoseSeen(items: seq<Item>, x: Item)
    requires items == HeaderAndPayload() && x == NewItem(7, 2, 4, 2)
    ensures items[..1] + [x] == [NewItem(7, 1, 200, 1), x] && AllFit(items[..1] + [x])
    ensures |Labels(items[..1] + [x])| == 204
  {
    hide Labels, ItemLabels;
    WithoutPayload();
    TrailerLength(x);
    OneFits(x);
    Joined(items[..1], [x]);
  }

  /** When a trailer of four bytes is added to the copy, the first packet reads as its header and that trailer, 204
      bytes instead of 250. */
  method TrailerOnCopy() returns (p: PacketMetadata, f: PacketMetadata)
    ensures fresh(p) && fresh(f) && p.Spelt() && |p.Bytes()| == 250
    ensures Seen(p, 3) == [NewItem(7, 1, 200, 1), NewItem(7, 2, 4, 2)] && AllFit(Seen(p, 3))
    ensures |Labels(Seen(p, 3))| == 204
  {
    assert NIL == 0xffff;
    hide *;
    p, f := CopyWithoutPayload();
    BytesAre(p);
    BytesAre(f);
    WithoutPayload();
    PartBeside(p, 1);
    FirstIsInner(p.nodes, f.nodes);
    TrailerLength(NewItem(7, 2, 4, 2));
    RoomInPlace(f, 8);
    ghost var hit, k := AddTrailerBeside(f, p, 2, 4, 2, 3);
    ThoseSeen(p.items, NewItem(7, 2, 4, 2));
  }

  /** A header for a packet that has no items and has used nothing of its array. */
  method FirstHeader(m: PacketMetadata, ty: nat, size: nat, c: nat)
    requires m.Valid() && m.nodes == [] && m.used == 0 && m.head == NIL && m.data.count > 0
    requires ty < 64 && size < 128 && c < 256 && |m.data.bytes| >= 8
    modifies m, m.data
    ensures m.Valid() && m.Whole() && m.items == [NewItem(m.packetUid, ty, size, c)] && |m.nodes| == 1
    ensures m.data == old(m.data) && m.data.count == old(m.data.count) && |m.data.bytes| == |old(m.data.bytes)|
    ensures m.head == m.tail == 0 && m.packetUid == old(m.packetUid)
  {
    assert NIL == 0xffff;
    hide PacketMetadata.Whole, PacketMetadata.WholeIn, PacketMetadata.Valid, PacketMetadata.Bytes, Labels, ItemLabels,
         PacketMetadata.Readable, Length, PacketMetadata.Spelt, PacketMetadata.SpoiledBy, KeptBut, Fits, NewLabels,
         LinkAt, Body, PacketMetadata.Overhang;
    ValidIsWhole(m);
    BytesAre(m);
    HeaderLength(m.packetUid, ty, size, c);
    m.AddHeader(ty, size, c);
    ValidIsWhole(m);
    BytesAre(m);
  }

  lemma HeaderLength(uid: nat, ty: nat, size: nat, c: nat)
    requires ty < 64 && size < 128 && c < 256
    ensures Length(NewItem(uid, ty, size, c)) == 8
  {
  }

  /** A packet without items and a copy of it; a header is added to each.  A packet without items writes where its
      used part ends even when others have written there, so that the first header is overwritten by the second. */
  method HeadersOnCopies() returns (p: PacketMetadata, q: PacketMetadata)
    ensures fresh(p) && fresh(q) && p.Spelt() && p.items == [NewItem(7, 1, 20, 1)]
    ensures Seen(p, 1) == Seen(q, 1) == [NewItem(7, 2, 30, 2)]
  {
    hide PacketMetadata.Whole, PacketMetadata.WholeIn, PacketMetadata.Valid, PacketMetadata.Spelt, Walk, NewItem;
    p := new PacketMetadata(7, 40);
    ValidIsWhole(p);
    BytesAre(p);
    WholeSafe(p);
    RoomFor(p);
    q := new PacketMetadata.Copy(p);
    SameWhole(q, p);
    FirstHeader(p, 1, 20, 1);
    BytesAre(p);
    StillEmpty(q);
    FirstHeader(q, 2, 30, 2);
    WholeIsSeen(q, 1);
  }

  /** Nothing that is written changes a packet without items. */
  lemma StillEmpty(q: PacketMetadata)
    requires q.nodes == [] && q.items == [] && q.head == q.tail == NIL && q.used == 0 && q.packetUid < 0x8000_0000
    requires q.room <= |q.data.bytes|
    ensures q.Valid()
  {
  }
}
