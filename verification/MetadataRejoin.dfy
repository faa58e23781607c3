/** Cutting a packet in two and joining the pieces: when the metadata comes back. */
module MetadataRejoin {
  import opened ByteStrings
  import opened MetadataCodec
  import opened MetadataLabels
  import opened MetadataMemory
  import opened Metadata

  // ----- Where a cut falls -----

  /** How many bytes the first j items have. */
  ghost function Before(items: seq<Item>, j: nat): nat
    requires AllFit(items) && j <= |items|
  {
    FitSlices(items, j);
    |Labels(items[..j])|
  }

  lemma {:induction false} BeforeRises(items: seq<Item>, i: nat, j: nat)
    requires AllFit(items) && i <= j <= |items|
    ensures Before(items, i) <= Before(items, j)
    ensures i < j ==> Before(items, i) + Size(items[i]) <= Before(items, j)
    ensures Before(items, 0) == 0 && Before(items, |items|) == |Labels(items)|
    decreases j - i
  {
    hide Labels;
    NoLabels();
    assert items[..0] == [] && items[..|items|] == items;
    if i < j {
      OneMoreLabelled(items, i);
      BeforeRises(items, i + 1, j);
    }
  }

  /** What is left after n bytes are gone from the start: all items from j on, or part of item j, less its first
      o bytes, and those after it. */
  lemma {:induction false} StartForm(items: seq<Item>, n: nat) returns (j: nat, o: nat)
    requires AllFit(items) && n <= |Labels(items)|
    ensures j <= |items| && n == Before(items, j) + o && (o > 0 ==> j < |items| && o < Size(items[j]))
    ensures o == 0 ==> DropStart(items, n) == items[j..] && !CutsStart(items, n)
    ensures o > 0 ==> CutsStart(items, n)
    ensures o > 0 ==>
      DropStart(items, n) == [Bigged(items[j]).(fragStart := items[j].fragStart + o)] + AllBigged(items[j + 1..])
  {
    hide Labels, AllBigged, DropStart, ItemLabels, CutsStart;
    NoLabels();
    BeforeRises(items, 0, 0);
    DropStartStep(items, n);
    if n == 0 {
      j, o := 0, 0;
      assert items[0..] == items;
    } else if Size(items[0]) > n {
      j, o := 0, n;
    } else {
      var rest := items[1..];
      var i;
      i, o := StartForm(rest, n - Size(items[0]));
      j := i + 1;
      BeforeNext(items, i);
      assert rest[i..] == items[j..] && (i < |rest| ==> rest[i + 1..] == items[j + 1..]);
    }
  }

  lemma BeforeNext(items: seq<Item>, i: nat)
    requires AllFit(items) && i < |items| && AllFit(items[1..])
    ensures Before(items, i + 1) == Size(items[0]) + Before(items[1..], i)
  {
    hide Labels, ItemLabels;
    FitSlices(items, i + 1);
    FitSlices(items[1..], i);
    FirstLabels(items[..i + 1]);
    assert items[..i + 1][1..] == items[1..][..i];
    var a := ItemLabels(items[0]);
  }

  /** Likewise for the end: the first j items, or these in big form and the first o bytes of item j. */
  lemma {:induction false} EndForm(items: seq<Item>, n: nat) returns (j: nat, o: nat)
    requires AllFit(items) && n <= |Labels(items)|
    ensures j <= |items| && |Labels(items)| - n == Before(items, j) + o && (o > 0 ==> j < |items| && o < Size(items[j]))
    ensures o == 0 ==> DropEnd(items, n) == items[..j] && !CutsEnd(items, n)
    ensures o > 0 ==> CutsEnd(items, n)
    ensures o > 0 ==>
      DropEnd(items, n) == AllBigged(items[..j]) + [Bigged(items[j]).(fragEnd := items[j].fragStart + o)]
  {
    hide Labels, AllBigged, DropEnd, ItemLabels, CutsEnd;
    BeforeRises(items, 0, 0);
    DropEndStep(items, n);
    var t := |items| - 1;
    if n == 0 {
      j, o := |items|, 0;
      assert items[..j] == items;
    } else {
      OneMoreLabelled(items, t);
      assert items[..t + 1] == items;
      if Size(items[t]) > n {
        j, o := t, Size(items[t]) - n;
      } else {
        var rest := items[..t];
        j, o := EndForm(rest, n - Size(items[t]));
        assert rest[..j] == items[..j];
      }
    }
  }

  /** A place inside an item is in no other item and not between two. */
  lemma SamePlace(items: seq<Item>, i: nat, o: nat, j: nat, p: nat)
    requires AllFit(items) && i <= |items| && j <= |items| && Before(items, i) + o == Before(items, j) + p
    requires o > 0 ==> i < |items| && o < Size(items[i])
    requires p > 0 ==> j < |items| && p < Size(items[j])
    ensures o > 0 || p > 0 ==> i == j && o == p
  {
    hide Before;
    if i < j {
      BeforeRises(items, i, j);
    } else {
      BeforeRises(items, j, i);
    }
  }

  // ----- When the labels come back -----

  /** The cut is inside an item. */
  ghost predicate InsideItem(items: seq<Item>, k: nat)
    requires AllFit(items)
  {
    exists j :: 0 <= j < |items| && Before(items, j) < k < Before(items, j) + Size(items[j])
  }

  /** An item without bytes lies at the cut; it would be part of both pieces. */
  ghost predicate EmptyAt(items: seq<Item>, k: nat)
    requires AllFit(items)
  {
    exists j :: 0 <= j < |items| && Before(items, j) == k && Size(items[j]) == 0
  }

  predicate FitsAll(items: seq<Item>) {
    forall k :: 0 <= k < |items| ==> Fits(items[k])
  }

  /** Cutting the items after k bytes and joining the pieces spoils labels, when the array of the first piece has
      the given size: the first item is cut, its end takes more bytes where the item is whole, there is room for
      them, more items follow, and their links are not what is written over. */
  predicate RejoinSpoils(items: seq<Item>, k: nat, size: nat)
    requires FitsAll(items)
  {
    |items| > 1 && 0 < k < Size(items[0]) &&
    (PieceFits(items[0], k);
    var y, l := Bigged(items[0]), Length(Bigged(items[0]).(fragEnd := items[0].fragStart + k));
    l < Length(y) <= size && Overwrites(y, 0, if l < Length(y) - 4 then Length(y) - 4 else l, AllBigged(items[1..])))
  }

  lemma PieceFits(x: Item, k: nat)
    requires Fits(x) && 0 < k < Size(x)
    ensures Fits(Bigged(x)) && Length(Bigged(x)) <= 30
    ensures var c := Bigged(x).(fragEnd := x.fragStart + k); Fits(c) && Length(c) <= Length(Bigged(x))
  {
  }

  lemma SpelledFits(m: PacketMetadata)
    requires m.Spelt()
    ensures FitsAll(m.items)
  {
    hide Body;
    forall k | 0 <= k < |m.items|
      ensures Fits(m.items[k])
    {
      assert Spells(m.nodes[k], m.items[k], m.packetUid);
    }
  }

  /** The pieces of a packet that was cut between items share its array, so that nothing is written over an item. */
  lemma CutBetween(a: PacketMetadata, b: PacketMetadata)
    requires a.Valid() && b.Valid() && a.Whole() && b.Whole() && a.used + 90 < NIL && a.data.count > 1
    ensures !a.Spoiled(b)
  {
    hide Laid, Within, Spelled, Length, Overwrites, AllBigged, Body, Chained;
    ValidIsWhole(a);
    SpoiledCases(a, b);
    MergesIs(a, b);
    LastRoom(a);
    if a.nodes != [] && b.nodes != [] && !a.Merges(b) {
      NotOver(a.items[|a.nodes| - 1], a.tail, a.used, b.items);
    }
  }

  /** The first nodes of a list and the others. */
  lemma CutSpares(data: seq<Byte>, nodes: seq<Node>, i: nat, used: nat)
    requires Laid(data, nodes) && Within(nodes, used) && i <= |nodes|
    ensures Within(nodes[i..], used) && (i > 0 ==> Clear(nodes[i..], nodes[i - 1].off))
  {
    hide NodeAt, AllLinked;
    var r := nodes[i..];
    forall k | 0 <= k < |r|
      ensures End(r[k]) <= used
      ensures i > 0 ==> nodes[i - 1].off + 2 <= r[k].off || End(r[k]) <= nodes[i - 1].off
    {
      assert r[k] == nodes[i + k] && (i > 0 ==> Apart(nodes[i - 1], nodes[i + k]));
    }
  }

  lemma JointBound(a: PacketMetadata, b: PacketMetadata)
    requires a.Whole() && b.Whole() && a.Merges(b) && a.used + 90 < NIL
    ensures a.tail + Length(a.Joint(b)) <= a.UsedWith(a.Joint(b)) + 4 && a.UsedWith(a.Joint(b)) + 30 < NIL
    ensures a.tail < NIL
  {
    hide *;
    LastRoom(a);
    SpoiledCases(a, b);
  }

  /** The items have been cut in two after the first o bytes of item j. */
  predicate CutIn(items: seq<Item>, j: nat, o: nat, front: seq<Item>, back: seq<Item>) {
    && j < |items| && 0 < o < Size(items[j])
    && front == AllBigged(items[..j]) + [Bigged(items[j]).(fragEnd := items[j].fragStart + o)]
    && back == [Bigged(items[j]).(fragStart := items[j].fragStart + o)] + AllBigged(items[j + 1..])
  }

  /** The pieces of a packet that was cut inside item j. */
  lemma CutInside(a: PacketMetadata, b: PacketMetadata, items: seq<Item>, j: nat, o: nat)
    requires FitsAll(items) && CutIn(items, j, o, a.items, b.items)
    requires a.Valid() && b.Valid() && a.used + 90 < NIL && a.FreshTail()
    ensures a.Spoiled(b) <==> j == 0 && RejoinSpoils(items, o, |a.data.bytes|)
  {
    hide Laid, Within, Spelled, Length, Overwrites, AllBigged, Body;
    ValidIsWhole(a);
    ValidIsWhole(b);
    ValidLength(a);
    ValidLength(b);
    SpoiledCases(a, b);
    MergesIs(a, b);
    LastRoom(a);
    LastBody(a);
    PieceFits(items[j], o);
    var x := items[j];
    var c := Bigged(x).(fragEnd := x.fragStart + o);
    assert a.items[|a.nodes| - 1] == c;
    assert a.Merges(b) && a.Joint(b) == Bigged(x);
    assert b.items[1..] == AllBigged(items[j + 1..]);
    if j > 0 {
      assert a.TailRoom() == Length(c);
    } else {
      assert a.TailRoom() == |a.data.bytes|;
      assert items[0 + 1..] == items[1..];
    }
    JointBound(a, b);
    NotOver(Bigged(x), a.tail, a.UsedWith(Bigged(x)), b.items[1..]);
  }

  /** Cut a packet after k bytes: inside item j after o of its bytes, or between items, where the pieces share the
      array of the packet. */
  method CutUp(p: PacketMetadata, k: nat) returns (a: PacketMetadata, b: PacketMetadata, ghost j: nat, ghost o: nat)
    requires p.Whole() && k <= |p.Bytes()| && p.used + 90 * (|p.nodes| + 4) < NIL && p.data.count > 0
    requires InsideItem(p.items, k) || (p.Valid() && !EmptyAt(p.items, k))
    modifies p.data`count
    ensures fresh(a) && fresh(b) && a != b && a.Valid() && a.Whole() && b.Valid() && b.Whole() && a.room == p.room
    ensures |p.items| == |p.nodes| && j <= |p.items| && k == Before(p.items, j) + o
    ensures a.used + 30 * (|a.nodes| + |b.nodes| + 3) < NIL && a.used + 90 < NIL
    ensures a.Bytes() == p.Bytes()[..k] && b.Bytes() == p.Bytes()[k..]
    ensures (InsideItem(p.items, k) <==> o > 0) && (o > 0 ==> j < |p.items| && o < Size(p.items[j]))
    ensures o > 0 ==> CutIn(p.items, j, o, a.items, b.items) && a.FreshTail()
    ensures o > 0 ==> fresh(a.data) && fresh(b.data) && a.data != b.data && a.data.count == 1
    ensures o == 0 ==> a.data == b.data == p.data && a.data.count > 1 && (a.nodes != [] ==> a.Spares(b))
  {
    hide *;
    BytesAre(p);
    SpelledFits(p);
    var total, count := p.GetTotalSize();
    j, o := EndForm(p.items, |Labels(p.items)| - k);
    ghost var i, q := StartForm(p.items, k);
    SamePlace(p.items, j, o, i, q);
    CutWhere(p.items, j, o, k);
    DropNone(p.items, |Labels(p.items)| - k);
    a := p.CreateFragment(0, total - k);
    ghost var aData := a.data;
    b := p.CreateFragment(k, 0);
    BytesAre(a);
    BytesAre(b);
    if o > 0 {
      IsCutIn(p.items, j, o, a.items, b.items);
    } else {
      SameCut(p.items, j, i, k);
      PiecesSpare(p, a, b, j);
    }
    assert p.Bytes()[0..|p.Bytes()| - (|p.Bytes()| - k)] == p.Bytes()[..k];
    assert p.Bytes()[k..|p.Bytes()| - 0] == p.Bytes()[k..];
  }

  lemma PiecesSpare(p: PacketMetadata, a: PacketMetadata, b: PacketMetadata, j: nat)
    requires p.Valid() && a.Whole() && a.used == p.used && j <= |p.nodes|
    requires a.nodes == p.nodes[..j] && b.nodes == p.nodes[j..]
    ensures a.nodes != [] ==> a.Spares(b)
  {
    hide Laid, Within, Clear;
    CutSpares(p.data.bytes, p.nodes, j, p.used);
    BytesAre(a);
  }

  /** Cut a packet after k bytes and join the pieces: the labels come back exactly when RejoinSpoils does not say
      that an item is spoiled. */
  method CutAndRejoin(p: PacketMetadata, k: nat) returns (a: PacketMetadata, size: nat)
    requires p.Whole() && k <= |p.Bytes()| && p.used + 90 * (|p.nodes| + 4) < NIL && p.data.count > 0
    requires InsideItem(p.items, k) || (p.Valid() && !EmptyAt(p.items, k))
    modifies p.data
    ensures fresh(a) && a.Readable() && size >= p.room && FitsAll(p.items)
    ensures a.Bytes() == p.Bytes() <==> !RejoinSpoils(p.items, k, size)
    ensures InsideItem(p.items, k) ==> p.data.bytes == old(p.data.bytes)
  {
    hide *;
    BytesAre(p);
    SpelledFits(p);
    var b;
    ghost var j, o;
    a, b, j, o := CutUp(p, k);
    BytesAre(a);
    BytesAre(b);
    size := |a.data.bytes|;
    RoomFor(a);
    WhereSpoiled(p.items, j, o, k, size);
    if o > 0 {
      CutInside(a, b, p.items, j, o);
    } else {
      CutBetween(a, b);
      AppendsWhere(a, b);
    }
    assert p.Bytes()[..k] + p.Bytes()[k..] == p.Bytes();
    a.AddAtEnd(b);
  }

  lemma RoomFor(m: PacketMetadata)
    requires m.Whole()
    ensures m.room <= |m.data.bytes|
  {
  }

  lemma AppendsWhere(a: PacketMetadata, b: PacketMetadata)
    requires a.Spelt() && b.Spelt()
    ensures a.AppendsHere(b) ==> a.nodes != []
  {
  }

  /** Nothing is cut where nothing goes. */
  lemma DropNone(items: seq<Item>, end: nat)
    requires AllFit(items) && end <= |Labels(items)|
    ensures CutsPiece(items, 0, end) <==> CutsEnd(items, end)
    ensures CutsPiece(items, |Labels(items)| - end, 0) <==> CutsStart(items, |Labels(items)| - end)
  {
    hide Labels, DropEnd, CutsEnd, CutsStart;
    DropStartNone(items);
    DropStartStep(items, 0);
    DropStartLabels(items, |Labels(items)| - end);
    DropEndStep(DropStart(items, |Labels(items)| - end), 0);
  }

  lemma ValidParts(p: PacketMetadata)
    requires p.Valid()
    ensures Laid(p.data.bytes, p.nodes) && Within(p.nodes, p.used)
    ensures p.nodes != [] ==> p.tail == p.nodes[|p.nodes| - 1].off
  {
  }

  /** Whether the cut is inside an item. */
  lemma CutWhere(items: seq<Item>, i: nat, o: nat, k: nat)
    requires AllFit(items) && i <= |items| && k == Before(items, i) + o && (o > 0 ==> i < |items| && o < Size(items[i]))
    ensures InsideItem(items, k) <==> o > 0
  {
    hide Before;
    if InsideItem(items, k) {
      var j :| 0 <= j < |items| && Before(items, j) < k < Before(items, j) + Size(items[j]);
      SamePlace(items, i, o, j, k - Before(items, j));
    }
  }

  /** There is one place between items to cut at. */
  lemma SameCut(items: seq<Item>, i: nat, j: nat, k: nat)
    requires AllFit(items) && i <= |items| && j <= |items| && Before(items, i) == k == Before(items, j)
    requires !EmptyAt(items, k)
    ensures i == j
  {
    hide Before;
    BeforeRises(items, Min(i, j), if i < j then j else i);
  }

  lemma IsCutIn(items: seq<Item>, j: nat, o: nat, front: seq<Item>, back: seq<Item>)
    requires j < |items| && 0 < o < Size(items[j])
    requires front == AllBigged(items[..j]) + [Bigged(items[j]).(fragEnd := items[j].fragStart + o)]
    requires back == [Bigged(items[j]).(fragStart := items[j].fragStart + o)] + AllBigged(items[j + 1..])
    ensures CutIn(items, j, o, front, back)
  {
  }

  lemma WhereSpoiled(items: seq<Item>, j: nat, o: nat, k: nat, size: nat)
    requires AllFit(items) && FitsAll(items) && j <= |items| && k == Before(items, j) + o
    requires o > 0 ==> j < |items| && o < Size(items[j])
    ensures j == 0 ==> k == o
    ensures j > 0 || o == 0 ==> !RejoinSpoils(items, k, size)
  {
    BeforeRises(items, 0, j);
  }

  /** A header of 200 bytes in front of a payload of 50. */
  function HeaderAndPayload(): seq<Item> {
    [NewItem(7, 1, 200, 1), NewItem(7, 0, 50, 0)]
  }

  lemma HeaderAndPayloadFit()
    ensures var items := HeaderAndPayload(); FitsAll(items) && AllFit(items) && |Labels(items)| == 250
    ensures InsideItem(HeaderAndPayload(), 100)
  {
    hide Labels, ItemLabels;
    var items := HeaderAndPayload();
    NoLabels();
    FirstLabels(items);
    FirstLabels(items[1..]);
    assert items[1..][1..] == [];
    var a, b := ItemLabels(items[0]), ItemLabels(items[1]);
    BeforeRises(items, 0, 0);
    assert Before(items, 0) < 100 < Before(items, 0) + Size(items[0]);
  }

  /** After a cut at 100 the end of the header takes one byte, and two when the pieces are joined. */
  lemma HeaderSpoils(size: nat)
    requires size >= 16 && FitsAll(HeaderAndPayload())
    ensures RejoinSpoils(HeaderAndPayload(), 100, size)
  {
    var items := HeaderAndPayload();
    var y := Bigged(items[0]);
    PieceFits(items[0], 100);
    assert y == Item(3, 200, 1, 0, 200, 7) && Length(y) == 16;
    assert Length(y.(fragEnd := 100)) == 15;
    assert |AllBigged(items[1..])| == 1;
    HeaderByte();
  }

  lemma HeaderByte()
    ensures Links(NIL, 0)[..1] == [0xff] && Le32(7)[4 - 1..] == [0]
  {
  }

  method MakeHeaderAndPayload(room: nat) returns (p: PacketMetadata)
    ensures fresh(p) && fresh(p.data) && p.data.count == 1 && p.Latest() && p.Valid() && p.Whole()
    ensures p.items == HeaderAndPayload() && p.used <= 60 && p.room == room && p.packetUid == 7
  {
    hide PacketMetadata.Whole, PacketMetadata.WholeIn, PacketMetadata.Readable, PacketMetadata.Valid, NewLabels,
         PacketMetadata.SpoiledBy, PacketMetadata.Spelt, PacketMetadata.Bytes, Labels, Fits, Length, KeptBut;
    p := new PacketMetadata(7, room);
    ValidIsWhole(p);
    p.AddHeader(0, 50, 0);
    ValidIsWhole(p);
    LengthBound(NewItem(7, 0, 50, 0));
    p.AddHeader(1, 200, 1);
    ValidIsWhole(p);
    LengthBound(NewItem(7, 1, 200, 1));
    HeaderIs();
  }

  lemma HeaderIs()
    ensures [NewItem(7, 1, 200, 1)] + ([NewItem(7, 0, 50, 0)] + []) == HeaderAndPayload()
    ensures |HeaderAndPayload()| == 2
  {
  }

  lemma HeaderRoom(p: PacketMetadata)
    requires p.Whole() && p.items == HeaderAndPayload() && p.used <= 60
    ensures p.Spelt() && |p.Bytes()| == 250 && AllFit(p.items) && p.used + 90 * (|p.nodes| + 4) < NIL
    ensures InsideItem(p.items, 100)
  {
    assert NIL == 0xffff;
    hide *;
    BytesAre(p);
    HeaderIs();
    HeaderAndPayloadFit();
  }

  /** Cut after 100 bytes and joined again, the packet has lost the origin of its header. */
  method CutHeader(p: PacketMetadata) returns (a: PacketMetadata)
    requires p.Whole() && p.items == HeaderAndPayload() && p.used <= 60 && p.room == 16 && p.data.count > 0
    modifies p.data
    ensures fresh(a) && a.Readable() && a.Bytes() != p.Bytes() && p.data.bytes == old(p.data.bytes)
  {
    hide *;
    HeaderRoom(p);
    var size;
    a, size := CutAndRejoin(p, 100);
    HeaderSpoils(size);
  }

  /** Such a packet, made of nothing. */
  method CutThatLoses() returns (p: PacketMetadata, a: PacketMetadata)
    ensures fresh(p) && fresh(a) && p.Valid() && a.Readable()
    ensures a.Bytes() != p.Bytes()
  {
    hide *;
    p := MakeHeaderAndPayload(16);
    a := CutHeader(p);
  }
}
