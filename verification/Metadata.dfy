/** Packet metadata: the list of headers and pieces of headers that a packet is made of.

The items of the list are written one after the other into an array of bytes,
each with the offsets of its neighbours, so that the list order is independent of
the order in the array.  Items are not removed from the array: a shorter list is
made by writing new items for the pieces that are left.  Copies of a packet share
the array, and whoever has written last goes on writing in it.  Each byte of a
packet is labelled by the header it comes from and its place there; what an
operation does is stated as what it does to these labels, and to the array.
*/
module Metadata {
  import opened ByteStrings
  import opened MetadataCodec
  import opened MetadataLabels
  import opened MetadataMemory

  /** An array of bytes, how many packets use it, and where the used part of the packet that wrote last ends. */
  class Data {
    var bytes: seq<Byte>
    var count: nat
    var dirtyEnd: nat

    /** An array that is not smaller than either size, new or used before. */
    constructor (size: nat, room: nat)
      ensures |bytes| >= size && |bytes| >= room && count == 1
    {
      assert |Zeros(size + room)| == size + room;
      var content: seq<Byte> :| |content| >= size && |content| >= room;
      bytes, count, dirtyEnd := content, 1, *;
    }
  }

  /** The list has grown by nodes that hold the given items, the first of them at the given offset. */
  ghost predicate GrownBy(a: seq<Node>, b: seq<Node>, off: nat, more: seq<Item>, uid: nat) {
    && |b| == |a| + |more| && b[..|a|] == a && Spelled(b[|a|..], more, uid)
    && (more != [] ==> b[|a|].off == off)
    && (|more| > 1 ==> b[|a| + 1].off == off + Length(more[0]))
    && forall k :: |a| <= k < |b| ==> b[k].off >= off
  }

  /** As Spelled, but for the last d bytes of node t, which holds a big item. */
  ghost predicate NearlySpelled(nodes: seq<Node>, items: seq<Item>, uid: nat, t: nat, d: nat) {
    && |nodes| == |items| && t < |nodes| && d <= 4
    && (forall k :: 0 <= k < |nodes| && k != t ==> Spells(nodes[k], items[k], uid))
    && Storable(items[t], uid) && IsBig(items[t]) && |Body(items[t])| >= 10
    && nodes[t].body == Body(items[t])[..|Body(items[t])| - d]
  }

  class PacketMetadata {
    var data: Data
    var head: nat
    var tail: nat
    var used: nat
    var packetUid: nat

    /** No array is shorter than this. */
    var room: nat

    /** The nodes in the array, in list order, and the items they hold. */
    ghost var nodes: seq<Node>
    ghost var items: seq<Item>

    /** Head and tail lie within the used part, and that within the array. */
    ghost predicate SafeIn(bytes: seq<Byte>)
      reads this
    {
      && used <= |bytes| && used < NIL && room <= |bytes| && (head == NIL <==> tail == NIL)
      && (head != NIL ==> head + 4 <= used && tail + 4 <= used)
    }

    ghost predicate Ends()
      reads this
    {
      && (nodes == [] ==> head == NIL && tail == NIL)
      && (nodes != [] ==> head == nodes[0].off && tail == nodes[|nodes| - 1].off)
    }

    /** The nodes are in the used part of the array. */
    ghost predicate Tidy()
      reads this, data`bytes
    {
      SafeIn(data.bytes) && Laid(data.bytes, nodes) && Within(nodes, used) && Ends()
    }

    ghost predicate Spelt()
      reads this
    {
      packetUid < 0x8000_0000 && Spelled(nodes, items, packetUid)
    }

    ghost predicate Valid()
      reads this, data`bytes
    {
      Tidy() && Spelt()
    }

    /** How far the last node reaches beyond the used part. */
    ghost function Overhang(): nat
      reads this
    {
      if nodes != [] && End(nodes[|nodes| - 1]) > used then End(nodes[|nodes| - 1]) - used else 0
    }

    /** The list can be read from an array with the given bytes, and only its last item may reach beyond the used
        part, by what ReplaceTail does not count. */
    ghost predicate WholeIn(bytes: seq<Byte>)
      reads this
    {
      && SafeIn(bytes) && Laid(bytes, nodes) && Ends() && Spelt() && Overhang() <= 4
      && (nodes != [] ==> Within(nodes[..|nodes| - 1], used))
      && (Overhang() > 0 ==> IsBig(items[|nodes| - 1]))
    }

    ghost predicate Whole()
      reads this, data`bytes
    {
      WholeIn(data.bytes)
    }

    /** The list can be read, although an item may have been written over the end of another. */
    ghost predicate Readable()
      reads this, data`bytes
    {
      && SafeIn(data.bytes) && Chained(data.bytes, nodes) && Ends() && Spelt()
      && forall k :: 0 <= k < |nodes| ==> nodes[k].off + 4 <= used
    }

    /** The labels of the bytes of the packet. */
    ghost function Bytes(): seq<Label>
      reads this
      requires Spelt()
    {
      SpelledFit(nodes, items, packetUid);
      Labels(items)
    }

    // ----- Sharing -----

    /** An item of n bytes is written where the used part ends.  A packet without items writes there even when
        others have gone on writing in the array. */
    predicate InPlace(n: nat)
      reads this, data
    {
      used + n <= |data.bytes| && (head == NIL || data.count == 1 || used == data.dirtyEnd)
    }

    /** The packet still uses the array it used, of which only bytes behind the used part and one link may have
        changed. */
    twostate predicate Stays(link: nat)
      reads this, data
    {
      && data == old(data) && data.count == old(data.count) && |data.bytes| == |old(data.bytes)|
      && KeptBut(old(data.bytes), data.bytes, old(used), link)
    }

    /** The packet has left the array it used for one of its own. */
    twostate predicate Leaves(before: Data)
      reads this, data, before
    {
      && before == old(data) && fresh(data) && data.count == 1 && before.count == old(data.count) - 1
      && before.dirtyEnd == old(data.dirtyEnd)
    }

    /** The packet uses the same array as before or has left it for one of its own. */
    twostate predicate Keeps(before: Data)
      reads this, data, before
    {
      && before == old(data)
      && (data == before ==> before.count == old(data.count))
      && (data != before ==> fresh(data) && data.count == 1 && before.count == old(data.count) - 1)
    }

    /** In the array it used, only bytes behind the used part and one link may have changed. */
    twostate predicate Adds(before: Data, link: nat)
      reads this, data, before
    {
      && before == old(data) && |before.bytes| == |old(data.bytes)|
      && KeptBut(old(data.bytes), before.bytes, old(used), link)
      && (before.dirtyEnd == old(data.dirtyEnd) || before.dirtyEnd >= old(used))
    }

    /** Writing in place at the end of this list does not change the other list. */
    ghost predicate Spares(q: PacketMetadata)
      reads this, q
    {
      Within(q.nodes, used) && Clear(q.nodes, tail)
    }

    /** The packet was the last to write in its array. */
    ghost predicate Latest()
      reads this, data
    {
      data.dirtyEnd == used
    }

    constructor (uid: nat, room: nat)
      requires uid < 0x8000_0000
      ensures Valid() && items == [] && packetUid == uid && used == 0 && this.room == room
      ensures fresh(data) && data.count == 1
    {
      head, tail, used, packetUid, this.room := NIL, NIL, 0, uid, room;
      nodes, items := [], [];
      data := new Data(10, room);
    }

    /** The copy constructor: the copy shares the array. */
    constructor Copy(o: PacketMetadata)
      requires o.SafeIn(o.data.bytes)
      modifies o.data`count
      ensures data == o.data && head == o.head && tail == o.tail && used == o.used && packetUid == o.packetUid
      ensures room == o.room && nodes == o.nodes && items == o.items && data.count == old(o.data.count) + 1
    {
      data, head, tail, used, packetUid, room := o.data, o.head, o.tail, o.used, o.packetUid, o.room;
      nodes, items := o.nodes, o.items;
      new;
      data.count := data.count + 1;
    }

    /** Use the array of another packet. */
    method Assign(o: PacketMetadata)
      requires data.count > 0
      modifies this, data`count, o.data`count
      ensures data == o.data == old(o.data) && head == o.head && tail == o.tail && used == o.used
      ensures packetUid == o.packetUid && room == o.room && nodes == o.nodes && items == o.items
      ensures old(data) != o.data ==> old(data).count == old(data.count) - 1 && data.count == old(o.data.count) + 1
      ensures old(data) == o.data ==> data.count == old(data.count)
    {
      if data != o.data {
        data.count := data.count - 1;
        data := o.data;
        data.count := data.count + 1;
      }
      head, tail, used, packetUid, room := o.head, o.tail, o.used, o.packetUid, o.room;
      nodes, items := o.nodes, o.items;
    }

    /** The packet is not used any more. */
    method Destroy()
      requires data.count > 0
      modifies data`count
      ensures data.count == old(data.count) - 1
    {
      data.count := data.count - 1;
    }

    // ----- Writing items -----

    /** Copy the used part to an array of this packet's own. */
    method ReserveCopy(size: nat)
      requires Tidy() && data.count > 0
      modifies this`data, data`count
      ensures Tidy() && |data.bytes| >= used + size && Leaves(old(data))
    {
      hide Le16, Patch, Laid, NodeAt, KeptBut;
      var newData := new Data(used + size, room);
      newData.bytes := data.bytes[..used] + newData.bytes[used..];
      newData.dirtyEnd := used;
      CopyKept(data.bytes, newData.bytes, used);
      data.count := data.count - 1;
      ghost var before := data.bytes;
      data := newData;
      if head != NIL {
        // Clear the next field of the tail and the prev field of the head.
        Copied(before, data.bytes, nodes, used);
        data.bytes := Patch(data.bytes, tail, Le16(NIL));
        data.bytes := Patch(data.bytes, head + 2, Le16(NIL));
      } else {
        NoneLaid(data.bytes, nodes);
      }
    }

    /** Write an item behind the used part, here or in an array of this packet's own; how many bytes it takes. */
    method AddItem(next: nat, prev: nat, x: Item) returns (n: nat)
      requires Tidy() && Fits(x) && next < 0x1_0000 && prev < 0x1_0000 && data.count > 0
      modifies this`data, data
      ensures n == Length(x) && used + n <= |data.bytes| && Tidy() && At(data.bytes, used, Encode(next, prev, x))
      ensures old(InPlace(Length(x))) ==> Stays(NIL)
      ensures !old(InPlace(Length(x))) ==> Leaves(old(data)) && old(data).bytes == old(data.bytes)
    {
      hide Laid, NodeAt, Encode, Patch, KeptBut;
      n := Length(x);
      if used + n > |data.bytes| || (head != NIL && data.count != 1 && used != data.dirtyEnd) {
        ReserveCopy(n);
      }
      ghost var before := data.bytes;
      var s := Encode(next, prev, x);
      PatchKept(before, used, s, used, NIL);
      ClearBehind(nodes, used, NIL);
      LaidKept(before, Patch(before, used, s), used, NIL, nodes);
      data.bytes := Patch(data.bytes, used, s);
    }

    /** Make the item just written the tail of the list. */
    method UpdateTail(written: nat, ghost x: Item, ghost prev: nat)
      requires Tidy() && written >= 8 && used + written <= |data.bytes| && used + written < NIL
      requires Fits(x) && written == Length(x) && prev == tail < 0x1_0000 && At(data.bytes, used, Encode(NIL, prev, x))
      modifies this, data`bytes, data`dirtyEnd
      ensures Tidy() && used == old(used) + written == data.dirtyEnd && packetUid == old(packetUid) && room == old(room)
      ensures tail == old(used) && items == old(items) && nodes == old(nodes) + [Node(old(used), Body(x))]
      ensures head == if old(nodes) == [] then old(used) else old(head)
      ensures LinkAt(data.bytes, old(used), NIL) && LinkAt(data.bytes, old(used) + 2, prev) && Stays(old(tail))
    {
      hide Laid, NodeAt, Encode, Patch, Le16, Body, At, KeptBut;
      EncodeIsWritten(NIL, prev, x);
      Appended(data.bytes, nodes, used, prev, Body(x));
      if head == NIL {
        head := used;
        tail := used;
      } else {
        data.bytes := Patch(data.bytes, tail, Le16(used));
        tail := used;
      }
      nodes := nodes + [Node(used, Body(x))];
      used := used + written;
      data.dirtyEnd := used;
    }

    /** Make the item just written the head of the list. */
    method UpdateHead(written: nat, ghost x: Item, ghost next: nat)
      requires Tidy() && written >= 8 && used + written <= |data.bytes| && used + written < NIL
      requires Fits(x) && written == Length(x) && next == head < 0x1_0000 && At(data.bytes, used, Encode(next, NIL, x))
      modifies this, data`bytes, data`dirtyEnd
      ensures Tidy() && used == old(used) + written == data.dirtyEnd && packetUid == old(packetUid) && room == old(room)
      ensures tail == if old(nodes) == [] then old(used) else old(tail)
      ensures items == old(items) && nodes == [Node(old(used), Body(x))] + old(nodes)
      ensures LinkAt(data.bytes, old(used), next) && LinkAt(data.bytes, old(used) + 2, NIL) && Stays(old(head) + 2)
    {
      hide Laid, NodeAt, Encode, Patch, Le16, Body, At, KeptBut;
      EncodeIsWritten(next, NIL, x);
      Prepended(data.bytes, nodes, used, next, Body(x));
      if head == NIL {
        head := used;
        tail := used;
      } else {
        data.bytes := Patch(data.bytes, head + 2, Le16(used));
        head := used;
      }
      nodes := [Node(used, Body(x))] + nodes;
      used := used + written;
      data.dirtyEnd := used;
    }

    /** Add an item at the end of the list. */
    method PushBack(x: Item)
      requires Tidy() && Fits(x) && used + Length(x) < NIL && data.count > 0
      modifies this, data
      ensures Tidy() && used == old(used) + Length(x) == data.dirtyEnd && packetUid == old(packetUid)
      ensures tail == old(used) && items == old(items) + [x] && room == old(room)
      ensures nodes == old(nodes) + [Node(old(used), Body(x))]
      ensures LinkAt(data.bytes, old(used), NIL) && LinkAt(data.bytes, old(used) + 2, old(tail))
      ensures old(InPlace(Length(x))) ==> Stays(old(tail))
      ensures !old(InPlace(Length(x))) ==> Leaves(old(data)) && old(data).bytes == old(data.bytes)
      ensures old(Spelt()) && Storable(x, packetUid) ==> Spelt()
    {
      hide Laid, NodeAt, Encode, Body, Within, Storable, At, KeptBut;
      ghost var spelt, items0, before := Spelt() && Storable(x, packetUid), items, nodes;
      ghost var bytes0, used0 := data.bytes, used;
      var prev := tail;
      var written := AddItem(NIL, tail, x);
      ghost var bytes1 := data.bytes;
      UpdateTail(written, x, prev);
      if data == old(data) {
        KeptTrans(bytes0, bytes1, data.bytes, used0, used0, NIL, prev, prev);
      }
      items := items + [x];
      if spelt {
        SpelledBack(before, nodes, items0, x, packetUid);
      }
    }

    /** Add an item at the front of the list. */
    method PushFront(x: Item)
      requires Tidy() && Fits(x) && used + Length(x) < NIL && data.count > 0
      modifies this, data
      ensures Tidy() && used == old(used) + Length(x) == data.dirtyEnd && packetUid == old(packetUid)
      ensures tail == if old(nodes) == [] then old(used) else old(tail)
      ensures items == [x] + old(items) && room == old(room)
      ensures nodes == [Node(old(used), Body(x))] + old(nodes)
      ensures LinkAt(data.bytes, old(used), old(head)) && LinkAt(data.bytes, old(used) + 2, NIL)
      ensures old(InPlace(Length(x))) ==> Stays(old(head) + 2)
      ensures !old(InPlace(Length(x))) ==> Leaves(old(data)) && old(data).bytes == old(data.bytes)
      ensures old(Spelt()) && Storable(x, packetUid) ==> Spelt()
    {
      hide Laid, NodeAt, Encode, Body, Within, Storable, At, KeptBut;
      ghost var spelt, items0, before := Spelt() && Storable(x, packetUid), items, nodes;
      ghost var bytes0, used0 := data.bytes, used;
      var next := head;
      var written := AddItem(head, NIL, x);
      ghost var bytes1 := data.bytes;
      UpdateHead(written, x, next);
      if data == old(data) {
        KeptTrans(bytes0, bytes1, data.bytes, used0, used0, NIL, next + 2, next + 2);
      }
      items := [x] + items;
      if spelt {
        SpelledFront(before, nodes, items0, x, packetUid);
      }
    }

    /** Read an item and its links. */
    method ReadItems(current: nat, ghost k: nat) returns (x: Item, next: nat, prev: nat)
      requires Readable() && k < |nodes| && current == nodes[k].off
      ensures x == items[k] && Storable(x, packetUid) && next < 0x1_0000 && prev < 0x1_0000
      ensures k + 1 < |nodes| ==> next == nodes[k + 1].off < NIL && current != tail
      ensures k > 0 ==> prev == nodes[k - 1].off < NIL && current != head
    {
      hide Encode, Body, ReadItem, Le16;
      WalkStep(this, k);
      assert NodeAt(data.bytes, nodes[k]) && Spells(nodes[k], items[k], packetUid);
      ReadNode(data.bytes, nodes[k], items[k], packetUid);
      x := ReadItem(data.bytes[current..], packetUid);
      next := From16(data.bytes[current..]);
      prev := From16(data.bytes[current + 2..]);
      if k + 1 < |nodes| {
        assert Linked(data.bytes, nodes[k], nodes[k + 1]);
        ReadLink(data.bytes, current, nodes[k + 1].off);
      }
      if k > 0 {
        assert Linked(data.bytes, nodes[k - 1], nodes[k]);
        ReadLink(data.bytes, current + 2, nodes[k - 1].off);
      }
    }

    // ----- Writing when the last item reaches beyond the used part -----

    /** From here on the last node is taken without the bytes beyond the used part. */
    ghost method Detach()
      requires Whole()
      modifies this`nodes
      ensures Tidy() && |nodes| == |old(nodes)|
      ensures nodes == old(if Overhang() > 0 then Stub(nodes, Overhang()) else nodes)
      ensures old(Overhang()) == 0 ==> Valid()
      ensures old(Overhang()) > 0 ==> NearlySpelled(nodes, items, packetUid, |nodes| - 1, old(Overhang()))
      ensures old(Overhang()) > 0 ==> End(nodes[|nodes| - 1]) == used
    {
      hide Laid, NodeAt, Body;
      if Overhang() > 0 {
        ghost var d, nodes0 := Overhang(), nodes;
        LastBody(this);
        StubLaid(data.bytes, nodes, used, d);
        nodes := Stub(nodes, d);
        StubSpelled(nodes0, items, packetUid, d);
      } else {
        WholeIsWithin(this);
      }
    }

    /** Node t, which was cut back by d bytes, is taken with what now follows it in the array, the given links: its
        item reads accordingly. */
    ghost method Reattach(t: nat, d: nat, next: nat, prev: nat)
      requires Tidy() && packetUid < 0x8000_0000 && 0 < d && NearlySpelled(nodes, items, packetUid, t, d)
      requires LinkAt(data.bytes, End(nodes[t]), next) && LinkAt(data.bytes, End(nodes[t]) + 2, prev)
      modifies this`nodes, this`items
      ensures Readable() && Fits(old(items)[t])
      ensures items == old(items)[t := Lapped(old(items)[t], d, Links(next, prev))]
    {
      hide Laid, NodeAt, Body, Lapped, Le16, Storable, At;
      StorableFits(items[t], packetUid);
      AtJoined(data.bytes, End(nodes[t]), Le16(next), Le16(prev));
      LongChained(data.bytes, nodes, t, d, Links(next, prev));
      LappedBody(items[t], d, Links(next, prev), packetUid);
      TidyOffsets(this);
      nodes := nodes[t := nodes[t].(body := nodes[t].body + Links(next, prev)[..d])];
      items := items[t := Lapped(items[t], d, Links(next, prev))];
    }

    /** Writing an item that starts with the given bytes behind the used part changes labels. */
    ghost predicate SpoiledBy(bytes: seq<Byte>)
      reads this
      requires Spelt() && |bytes| == 4 && Overhang() <= 4
    {
      nodes != [] && (LastFits(this); Spoils(items[|items| - 1], Overhang(), bytes))
    }

    // ----- Operations -----

    /** A header of this packet, with a number that tells it from others of its type. */
    method AddHeader(headerType: nat, size: nat, chunkUid: nat)
      requires Whole() && headerType < 0x8000_0000 && size < 0x1_0000_0000 && chunkUid < 0x1_0000 && used + 30 < NIL
      requires data.count > 0
      modifies this, data
      ensures Readable() && packetUid == old(packetUid) && room == old(room)
      ensures var x := NewItem(packetUid, headerType, size, chunkUid);
        && Fits(x) && used == old(used) + Length(x) == data.dirtyEnd
        && (old(Overhang()) == 0 ==> Valid() && items == [x] + old(items))
        && (old(Overhang()) == 0 ==> nodes == [Node(old(used), Body(x))] + old(nodes))
        && (old(InPlace(Length(x))) ==> Stays(old(head) + 2))
        && (!old(InPlace(Length(x))) ==> Leaves(old(data)) && old(data).bytes == old(data.bytes))
      ensures Bytes() == NewLabels(packetUid, headerType, size, chunkUid) + old(Bytes())
         <==> !old(SpoiledBy(Links(head, NIL)))
    {
      hide Laid, NodeAt, Body, Length, Storable, NearlySpelled, Spoils, Lapped, Labels, ItemLabels, Spelled, KeptBut,
           LinkAt;
      var x := NewItem(packetUid, headerType, size, chunkUid);
      NewItemFits(x, packetUid);
      ghost var d, t, items0, head0 := Overhang(), |nodes|, items, head;
      ghost var link := Links(head0, NIL);
      LastFits(this);
      SpelledFit(nodes, items, packetUid);
      Detach();
      ghost var nodes1 := nodes;
      PushFront(x);
      if d > 0 {
        NearlyFront(nodes1, nodes, items0, x, packetUid, t - 1, d);
        Reattach(t, d, head0, NIL);
        assert items == [x] + LapLast(items0, d, link);
      } else {
        ValidIsReadable(this);
        LapNone(items0, link);
      }
      LappedAll([x], items0, d, link, []);
      Joined([x], items0);
      assert [x] + items0 + [] == [x] + items0 && items + [] == items;
      SpelledFit(nodes, items, packetUid);
    }

    method AddTrailer(headerType: nat, size: nat, chunkUid: nat)
      requires Whole() && headerType < 0x8000_0000 && size < 0x1_0000_0000 && chunkUid < 0x1_0000 && used + 30 < NIL
      requires data.count > 0
      modifies this, data
      ensures Readable() && packetUid == old(packetUid) && room == old(room)
      ensures var x := NewItem(packetUid, headerType, size, chunkUid);
        && Fits(x) && used == old(used) + Length(x) == data.dirtyEnd && LinkAt(data.bytes, old(used), NIL)
        && (old(Overhang()) == 0 ==> Valid() && items == old(items) + [x])
        && (old(Overhang()) == 0 ==> nodes == old(nodes) + [Node(old(used), Body(x))])
        && (old(InPlace(Length(x))) ==> Stays(old(tail)))
        && (!old(InPlace(Length(x))) ==> Leaves(old(data)) && old(data).bytes == old(data.bytes))
      ensures Bytes() == old(Bytes()) + NewLabels(packetUid, headerType, size, chunkUid)
         <==> !old(SpoiledBy(Links(NIL, tail)))
    {
      hide Laid, NodeAt, Body, Length, Storable, NearlySpelled, Spoils, Lapped, Labels, ItemLabels, Spelled, KeptBut,
           LinkAt, Within, IsBig, Stub;
      var x := NewItem(packetUid, headerType, size, chunkUid);
      NewItemFits(x, packetUid);
      ghost var d, t, items0, tail0 := Overhang(), |nodes|, items, tail;
      ghost var link := Links(NIL, tail0);
      LastFits(this);
      SpelledFit(nodes, items, packetUid);
      Detach();
      ghost var nodes1 := nodes;
      PushBack(x);
      if d > 0 {
        NearlyBack(nodes1, nodes, items0, x, packetUid, t - 1, d);
        Reattach(t - 1, d, NIL, tail0);
        assert items == LapLast(items0, d, link) + [x];
      } else {
        ValidIsReadable(this);
        LapNone(items0, link);
      }
      LappedAll([], items0, d, link, [x]);
      Joined(items0, [x]);
      assert [] + items0 + [x] == items0 + [x];
      assert items0 != [] ==> [] + LapLast(items0, d, link) == LapLast(items0, d, link);
      SpelledFit(nodes, items, packetUid);
    }

    /** Remove bytes from the start: items that go as a whole are unlinked, and the one that is cut makes a new
        list of it and what follows, in an array of its own. */
    method RemoveAtStart(start: nat)
      requires Whole() && start <= |Bytes()| && 30 * |nodes| < NIL && data.count > 0
      modifies this, data`count
      ensures Whole() && packetUid == old(packetUid) && room == old(room) && |nodes| <= |old(nodes)|
      ensures old(Valid()) ==> Valid()
      ensures AllFit(old(items)) && items == DropStart(old(items), start)
      ensures Bytes() == old(Bytes())[start..]
      ensures used <= old(used) || used <= 30 * |old(nodes)|
      ensures CutsStart(old(items), start) ==> Valid() && Leaves(old(data)) && Latest()
      ensures !CutsStart(old(items), start) ==> data == old(data) && data.count == old(data.count) && used == old(used)
      ensures !CutsStart(old(items), start) ==> |nodes| <= |old(nodes)| && nodes == old(nodes)[|old(nodes)| - |nodes|..]
    {
      hide Labels, ItemLabels, Length, DropStart, AllBigged, Whole, Readable, Valid, Spelt, Bytes, CutsStart, Latest,
           Bigged;
      var leftToRemove := start;
      var current := head;
      BytesAre(this);
      DropStartLabels(items, start);
      WholeIsReadable(this);
      DropStartStep(items, leftToRemove);
      ghost var cut := false;
      while current != NIL && leftToRemove > 0
        invariant 0 <= leftToRemove <= start && Whole() && Readable()
        invariant packetUid == old(packetUid) && room == old(room)
        invariant |items| == |nodes| <= |old(nodes)| && AllFit(items) && leftToRemove <= |Labels(items)|
        invariant old(Valid()) ==> Valid()
        invariant used <= old(used) || used <= 30 * |old(nodes)|
        invariant DropStart(items, leftToRemove) == DropStart(old(items), start)
        invariant leftToRemove > 0 ==> current == head < NIL && nodes != []
        invariant cut ==> leftToRemove == 0 && CutsStart(old(items), start)
        invariant cut ==> Valid() && Leaves(old(data)) && Latest()
        invariant !cut ==> (CutsStart(old(items), start) <==> CutsStart(items, leftToRemove))
        invariant !cut ==> data == old(data) && data.count == old(data.count) && used == old(used)
        invariant !cut ==> nodes == old(nodes)[|old(nodes)| - |nodes|..]
        decreases leftToRemove, |nodes|
      {
        DropStartStep(items, leftToRemove);
        WalkStep(this, 0);
        var x, next, prev := ReadItems(current, 0);
        var itemRealSize := x.fragEnd - x.fragStart;
        if itemRealSize <= leftToRemove {
          UnlinkHead(next);
          leftToRemove := leftToRemove - itemRealSize;
          DropStartStep(items, leftToRemove);
        } else {
          CutFirst(current, x, next, leftToRemove);
          leftToRemove := 0;
          cut := true;
          DropStartLabels(old(items), start);
          DropStartStep(items, 0);
        }
        if current == tail {
          assert leftToRemove == 0 || nodes == [];
          break;
        }
        current := next;
      }
      DropStartStep(items, leftToRemove);
      BytesAre(this);
    }

    /** The first item goes. */
    method UnlinkHead(next: nat)
      requires Whole() && nodes != [] && (|nodes| > 1 ==> next == nodes[1].off && head != tail)
      modifies this`head, this`tail, this`nodes, this`items
      ensures Whole() && Readable() && nodes == old(nodes)[1..] && items == old(items)[1..]
      ensures old(Valid()) ==> Valid()
      ensures nodes != [] ==> head == next && tail == old(tail)
      ensures nodes == [] ==> tail == NIL
    {
      hide Laid, NodeAt, Length, Spelled;
      WholeIsReadable(this);
      LaidSlice(data.bytes, nodes, 1, |nodes|);
      SpelledTail(nodes, items, packetUid);
      WithinTail(nodes, used);
      LastFits(this);
      if head == tail {
        head := NIL;
        tail := NIL;
      } else {
        head := next;
      }
      assert nodes[1..|nodes|] == nodes[1..];
      nodes, items := nodes[1..], items[1..];
      assert nodes != [] ==> nodes[|nodes| - 1] == old(nodes)[|old(nodes)| - 1];
      assert nodes != [] ==> nodes[..|nodes| - 1] == old(nodes)[..|old(nodes)| - 1][1..];
      WholeIsReadable(this);
    }

    /** A new list of the first item, less its first n bytes, and all others. */
    method CutFirst(first: nat, x0: Item, next0: nat, n: nat)
      requires Readable() && nodes != [] && first == nodes[0].off && x0 == items[0] && data.count > 0
      requires |nodes| > 1 ==> next0 == nodes[1].off
      requires x0.fragStart + n < x0.fragEnd && 30 * |nodes| < NIL
      modifies this, data`count
      ensures Valid() && Whole() && Readable() && packetUid == old(packetUid) && room == old(room)
      ensures |nodes| == |old(nodes)| && used <= 30 * |nodes| && Leaves(old(data)) && Latest()
      ensures items == [Bigged(x0).(fragStart := x0.fragStart + n)] + AllBigged(old(items)[1..])
    {
      hide Laid, NodeAt, Within, Length, Fits, Body, Spelled, KeptBut;
      var fragment := new PacketMetadata(packetUid, room);
      var x := x0.(fragStart := x0.fragStart + n);
      NodeStorable(nodes, items, packetUid, 0);
      CutStorable(x0, n, packetUid);
      fragment.PushBack(Bigged(x));
      ValidLength(fragment);
      CopyAfter(fragment, first, next0);
      ValidLength(fragment);
      ValidLength(this);
      Become(fragment);
      ValidIsReadable(this);
    }

    /** Take over the list and the array of a packet that goes. */
    method Become(fragment: PacketMetadata)
      requires data.count > 0 && fragment.data != data && fragment.data.count == 1
      modifies this, data`count, fragment.data`count
      ensures data == old(fragment.data) && data.count == 1 && old(data).count == old(data.count) - 1
      ensures head == fragment.head && tail == fragment.tail && used == fragment.used && room == fragment.room
      ensures packetUid == fragment.packetUid && nodes == fragment.nodes && items == fragment.items
    {
      Assign(fragment);
      fragment.Destroy();
    }

    /** Add all items after the first to the end of another list. */
    method CopyAfter(fragment: PacketMetadata, first: nat, next0: nat)
      requires Readable() && nodes != [] && first == nodes[0].off && 30 * |nodes| < NIL
      requires |nodes| > 1 ==> next0 == nodes[1].off
      requires fragment != this && fragment.Valid() && fragment.packetUid == packetUid && fragment.used <= 30
      requires fragment.data != data && fragment.data.count == 1 && fragment.Latest()
      modifies fragment, fragment.data
      ensures fragment.Valid() && fragment.packetUid == packetUid && fragment.room == old(fragment.room)
      ensures fragment.used <= 30 * |nodes| && |items| == |nodes|
      ensures fragment.items == old(fragment.items) + AllBigged(items[1..])
      ensures fragment.data == old(fragment.data) || fresh(fragment.data)
      ensures fragment.data.count == 1 && fragment.Latest()
    {
      hide Laid, NodeAt, Fits, Within, AllBigged, Length, Body, Spelled, Chained, KeptBut;
      LastFits(this);
      var current, next := first, next0;
      ghost var k, front := 0, fragment.items;
      assert front + AllBigged(items[1..1]) == front;
      while current != NIL && current != tail
        invariant 0 <= k < |nodes| && current == nodes[k].off && (k + 1 < |nodes| ==> next == nodes[k + 1].off)
        invariant fragment.Valid() && fragment.packetUid == packetUid && fragment.used <= 30 * (k + 1)
        invariant fragment.room == old(fragment.room) && fragment.items == front + AllBigged(items[1..k + 1])
        invariant fragment.data == old(fragment.data) || fresh(fragment.data)
        invariant fragment.data != data && fragment.data.count == 1 && fragment.Latest()
        decreases |nodes| - k
      {
        WalkStep(this, k);
        current := next;
        var x, prev;
        x, next, prev := ReadItems(current, k + 1);
        BiggedStorable(x, packetUid);
        fragment.PushBack(Bigged(x));
        BiggedNext(items, 1, k + 1);
        k := k + 1;
      }
      WalkStep(this, k);
      assert items[1..k + 1] == items[1..];
    }

    /** Remove bytes from the end, likewise. */
    method RemoveAtEnd(end: nat)
      requires Whole() && end <= |Bytes()| && 30 * |nodes| < NIL && data.count > 0
      modifies this, data`count
      ensures Whole() && packetUid == old(packetUid) && room == old(room) && |nodes| <= |old(nodes)|
      ensures old(Valid()) ==> Valid()
      ensures AllFit(old(items)) && items == DropEnd(old(items), end)
      ensures Bytes() == old(Bytes())[..|old(Bytes())| - end]
      ensures used <= old(used) || used <= 30 * |old(nodes)|
      ensures CutsEnd(old(items), end) ==> Valid() && Leaves(old(data)) && Latest() && FreshTail()
      ensures !CutsEnd(old(items), end) ==> data == old(data) && data.count == old(data.count) && used == old(used)
      ensures !CutsEnd(old(items), end) ==> |nodes| <= |old(nodes)| && nodes == old(nodes)[..|nodes|]
    {
      hide Labels, ItemLabels, Length, DropEnd, CutsEnd, AllBigged, Whole, Readable, Valid, Spelt, Bytes, FreshTail;
      hide AllFit, Bigged, Overhang, Tidy, SafeIn, Storable, Latest;
      var leftToRemove := end;
      var current := tail;
      BytesAre(this);
      DropEndLabels(items, end);
      WholeIsReadable(this);
      DropEndStep(items, leftToRemove);
      ghost var cut := false;
      while current != NIL && leftToRemove > 0
        invariant 0 <= leftToRemove <= end && Whole() && Readable() && packetUid == old(packetUid) && room == old(room)
        invariant |items| == |nodes| <= |old(nodes)| && AllFit(items) && leftToRemove <= |Labels(items)|
        invariant old(Valid()) ==> Valid()
        invariant used <= old(used) || used <= 30 * |old(nodes)|
        invariant DropEnd(items, leftToRemove) == DropEnd(old(items), end)
        invariant cut ==> leftToRemove == 0 && CutsEnd(old(items), end) && FreshTail()
        invariant cut ==> Valid() && Leaves(old(data)) && Latest()
        invariant !cut ==> (CutsEnd(old(items), end) <==> CutsEnd(items, leftToRemove))
        invariant !cut ==> data == old(data) && data.count == old(data.count) && used == old(used)
        invariant !cut ==> nodes == old(nodes)[..|nodes|]
        invariant leftToRemove > 0 ==> current == tail < NIL && nodes != []
        decreases leftToRemove, |nodes|
      {
        DropEndStep(items, leftToRemove);
        WalkStep(this, |nodes| - 1);
        var x, next, prev := ReadItems(current, |nodes| - 1);
        var itemRealSize := x.fragEnd - x.fragStart;
        if itemRealSize <= leftToRemove {
          UnlinkTail(prev);
          leftToRemove := leftToRemove - itemRealSize;
          DropEndStep(items, leftToRemove);
        } else {
          CutLast(current, x, prev, leftToRemove);
          leftToRemove := 0;
          cut := true;
          DropEndLabels(old(items), end);
          DropEndStep(items, 0);
        }
        if current == head {
          assert leftToRemove == 0 || nodes == [];
          break;
        }
        current := prev;
      }
      DropEndStep(items, leftToRemove);
      BytesAre(this);
    }

    /** The last item was the first to be written into an array that is this packet's own. */
    ghost predicate FreshTail()
      reads this, data
    {
      && nodes != [] && |items| == |nodes| && tail == 0 && data.count == 1 && data.dirtyEnd == used
      && (|nodes| == 1 ==> used == Length(items[0]))
      && (|nodes| > 1 ==> used > Length(items[|nodes| - 1]))
    }

    /** The last item goes. */
    method UnlinkTail(prev: nat)
      requires Whole() && nodes != [] && (|nodes| > 1 ==> prev == nodes[|nodes| - 2].off && head != tail)
      modifies this`head, this`tail, this`nodes, this`items
      ensures Valid() && Whole() && Readable()
      ensures nodes == old(nodes)[..|old(nodes)| - 1] && |old(items)| == |old(nodes)|
      ensures items == old(items)[..|old(nodes)| - 1]
      ensures nodes != [] ==> tail == prev && head == old(head)
      ensures nodes == [] ==> head == NIL
    {
      hide Laid, NodeAt, Length, Spelled;
      WholeIsReadable(this);
      LaidSlice(data.bytes, nodes, 0, |nodes| - 1);
      SpelledInit(nodes, items, packetUid);
      LastFits(this);
      if head == tail {
        head := NIL;
        tail := NIL;
      } else {
        tail := prev;
      }
      assert nodes[0..|nodes| - 1] == nodes[..|nodes| - 1];
      nodes, items := nodes[..|nodes| - 1], items[..|nodes| - 1];
      if nodes != [] {
        InitOffset(this);
      }
      ValidIsReadable(this);
    }

    /** A new list of all items, the last less its last n bytes. */
    method CutLast(last: nat, x0: Item, prev0: nat, n: nat)
      requires Readable() && nodes != [] && 30 * |nodes| < NIL && n > 0 && data.count > 0
      requires var t := |nodes| - 1; last == nodes[t].off && x0 == items[t] && (t > 0 ==> prev0 == nodes[t - 1].off)
      requires x0.fragStart + n < x0.fragEnd
      modifies this, data`count
      ensures Valid() && Whole() && Readable() && packetUid == old(packetUid) && room == old(room)
      ensures |nodes| == |old(nodes)| == |old(items)| && used <= 30 * |nodes|
      ensures Leaves(old(data)) && Latest() && FreshTail()
      ensures items == AllBigged(old(items)[..|old(nodes)| - 1]) + [Bigged(x0).(fragEnd := x0.fragEnd - n)]
    {
      hide Laid, NodeAt, Within, Length, Fits, Body, Spelled, KeptBut, WholeIn, Storable, Bigged, Chained;
      var fragment := new PacketMetadata(packetUid, room);
      var x := x0.(fragEnd := x0.fragEnd - n);
      LastFits(this);
      NodeStorable(nodes, items, packetUid, |nodes| - 1);
      CutStorable(x0, n, packetUid);
      fragment.PushFront(Bigged(x));
      ValidLength(fragment);
      CopyBefore(fragment, last, prev0);
      ValidLength(fragment);
      Become(fragment);
      ValidIsReadable(this);
    }

    /** Add an item in big form to the front of another list of the same packet. */
    method PushBig(fragment: PacketMetadata, x: Item)
      requires fragment.Valid() && fragment.packetUid == packetUid && Storable(x, packetUid)
      requires fragment.used + 30 < NIL && fragment.nodes != [] && fragment.data.count == 1
      modifies fragment, fragment.data
      ensures fragment.Valid() && fragment.packetUid == packetUid && fragment.room == old(fragment.room)
      ensures fragment.nodes != [] && fragment.tail == old(fragment.tail)
      ensures old(fragment.used) < fragment.used <= old(fragment.used) + 30
      ensures fragment.items == [Bigged(x)] + old(fragment.items)
      ensures fragment.data == old(fragment.data) || fresh(fragment.data)
      ensures fragment.data.count == 1 && fragment.Latest()
    {
      hide Laid, NodeAt, Fits, Within, Length, Body, Spelled, Storable, Bigged, KeptBut;
      BiggedStorable(x, packetUid);
      LengthBound(Bigged(x));
      fragment.PushFront(Bigged(x));
    }

    /** Add all items before the last to the front of another list. */
    method CopyBefore(fragment: PacketMetadata, last: nat, prev0: nat)
      requires Readable() && nodes != [] && 30 * |nodes| < NIL && last == nodes[|nodes| - 1].off
      requires |nodes| > 1 ==> prev0 == nodes[|nodes| - 2].off
      requires fragment != this && fragment.Valid() && fragment.packetUid == packetUid && fragment.used <= 30
      requires fragment.nodes != [] && fragment.data != data && fragment.data.count == 1 && fragment.Latest()
      modifies fragment, fragment.data
      ensures fragment.Valid() && fragment.packetUid == packetUid && fragment.room == old(fragment.room)
      ensures fragment.used <= 30 * |nodes| && |items| == |nodes| && fragment.tail == old(fragment.tail)
      ensures if |nodes| > 1 then fragment.used > old(fragment.used) else fragment.used == old(fragment.used)
      ensures fragment.items == AllBigged(items[..|nodes| - 1]) + old(fragment.items)
      ensures fragment.data == old(fragment.data) || fresh(fragment.data)
      ensures fragment.data.count == 1 && fragment.Latest()
    {
      hide Laid, NodeAt, Fits, AllBigged, Length, Body, Valid, Readable, Storable, Bigged, SafeIn, Spelt, Latest,
           Within;
      ReadableParts(this);
      var current, prev := last, prev0;
      ghost var t, back := |nodes| - 1, fragment.items;
      ghost var k := t;
      assert AllBigged(items[t..t]) + back == back;
      while current != NIL && current != head
        invariant 0 <= k <= t && current == nodes[k].off && (k > 0 ==> prev == nodes[k - 1].off)
        invariant fragment.Valid() && fragment.packetUid == packetUid && fragment.used <= 30 * (t - k + 1)
        invariant fragment.room == old(fragment.room) && fragment.nodes != [] && fragment.tail == old(fragment.tail)
        invariant if k < t then fragment.used > old(fragment.used) else fragment.used == old(fragment.used)
        invariant fragment.items == AllBigged(items[k..t]) + back
        invariant fragment.data == old(fragment.data) || fresh(fragment.data)
        invariant fragment.data != data && fragment.data.count == 1 && fragment.Latest()
        decreases k
      {
        WalkStep(this, k);
        current := prev;
        var x, next;
        x, next, prev := ReadItems(current, k - 1);
        PushBig(fragment, x);
        BiggedPrev(items, k, t);
        k := k - 1;
      }
      WalkStep(this, k);
      assert items[0..t] == items[..t];
    }

    // ----- Appending -----

    /** How many bytes the last item can take where it is. */
    ghost function TailRoom(): nat
      reads this, data
      requires Whole() && nodes != []
    {
      LastBody(this);
      if End(nodes[|nodes| - 1]) == used == data.dirtyEnd then |data.bytes| - tail else Length(items[|nodes| - 1])
    }

    /** An item can be written over the last one: there is room, and nobody else uses the array. */
    ghost predicate InTail(y: Item)
      reads this, data
      requires Whole() && nodes != []
    {
      data.count == 1 && TailRoom() >= Length(y)
    }

    /** The used part that is recorded when the last item is written anew where it is. */
    ghost function UsedWith(y: Item): nat
      reads this
    {
      if used < tail + Length(y) - 4 then tail + Length(y) - 4 else used
    }

    /** Write x in place of the last item if there is room in an array of this packet's own, else in a new list.
        The used part that is recorded in the first case does not count the last four bytes of x. */
    method ReplaceTail(x: Item, next: nat, prev: nat, available0: nat)
      requires Whole() && nodes != [] && 30 * |nodes| < NIL && used + 30 < NIL && data.count > 0
      requires var t := |nodes| - 1; (t > 0 ==> prev == nodes[t - 1].off) && available0 == Length(items[t])
      requires next < 0x1_0000 && prev < 0x1_0000
      requires Storable(x, packetUid) && Length(items[|nodes| - 1]) <= Length(Bigged(x))
      modifies this, data
      ensures Whole() && packetUid == old(packetUid) && room == old(room) && |nodes| == |old(nodes)| == |old(items)|
      ensures used <= old(used) + 30 || used <= 30 * |nodes|
      ensures !old(InTail(Bigged(x))) ==>
        && Valid() && items == AllBigged(old(items)[..|nodes| - 1]) + [Bigged(x)]
        && Leaves(old(data)) && old(data).bytes == old(data.bytes)
      ensures old(InTail(Bigged(x))) ==>
        && items == old(items)[|nodes| - 1 := Bigged(x)] && tail == old(tail) && used == old(UsedWith(Bigged(x)))
        && data == old(data) && data.count == 1
      ensures old(Valid()) && Length(Bigged(x)) == old(Length(items[|nodes| - 1])) ==> Valid()
      ensures Latest()
    {
      hide Laid, NodeAt, Spelled, Length, Body, Within, TailRoom, KeptBut, Bigged, Storable, Labels;
      BytesAre(this);
      RoomIs(this);
      BiggedKept(x, packetUid);
      var available := available0;
      if tail + available == used && used == data.dirtyEnd {
        available := |data.bytes| - tail;
      }
      if available >= Length(Bigged(x)) && data.count == 1 {
        WriteTail(Bigged(x), next, prev);
      } else {
        MoveTo(x);
      }
    }

    /** Write y over the last item. */
    method WriteTail(y: Item, next: nat, prev: nat)
      requires Whole() && nodes != [] && used + 30 < NIL && Fits(y) && IsBig(y) && Storable(y, packetUid)
      requires var t := |nodes| - 1; (t > 0 ==> prev == nodes[t - 1].off) && Length(items[t]) <= Length(y)
      requires next < 0x1_0000 && prev < 0x1_0000 && TailRoom() >= Length(y)
      modifies this, data`bytes, data`dirtyEnd
      ensures Whole() && packetUid == old(packetUid) && room == old(room) && |nodes| == |old(nodes)| == |old(items)|
      ensures items == old(items)[|nodes| - 1 := y] && tail == old(tail) && used == old(UsedWith(y)) <= old(used) + 30
      ensures old(Valid()) && Length(y) == old(Length(items[|nodes| - 1])) ==> Valid()
      ensures data == old(data) && Latest()
    {
      hide Laid, NodeAt, Written, Encode, Patch, Length, Storable, Spelled, Body, TailRoom, Readable, Within, IsBig;
      LastBody(this);
      RoomIs(this);
      LastRoom(this);
      ValidIsWhole(this);
      LengthBound(y);
      ghost var t, nodes0 := |nodes| - 1, nodes;
      var n := Length(y);
      EncodeIsWritten(next, prev, y);
      FreeBehind(data.bytes, nodes, used, n);
      LaidReplace(data.bytes, nodes, next, prev, Body(y));
      SpelledReplace(nodes, items, packetUid, y);
      data.bytes := Patch(data.bytes, tail, Encode(next, prev, y));
      nodes := BodySet(nodes, Body(y));
      items := items[t := y];
      if used < tail + n - 4 {
        used := tail + n - 4;
      }
      data.dirtyEnd := used;
      WithinMore(nodes0, nodes, old(used), used);
    }

    /** The list anew, with x as the last item. */
    method MoveTo(x: Item)
      requires Whole() && nodes != [] && 30 * |nodes| < NIL && Storable(x, packetUid) && data.count > 0
      modifies this, data`count
      ensures Valid() && Whole() && packetUid == old(packetUid) && room == old(room) && used <= 30 * |nodes|
      ensures |nodes| == |old(nodes)| == |old(items)| && Leaves(old(data)) && Latest()
      ensures items == AllBigged(old(items)[..|nodes| - 1]) + [Bigged(x)]
    {
      hide Laid, NodeAt, Fits, Within, AllBigged, Length, Body, Spelled, Chained, KeptBut, WholeIn, Storable;
      BytesAre(this);
      WholeIsReadable(this);
      NoneBigged(items);
      var h := new PacketMetadata(packetUid, room);
      CopyFront(h);
      BiggedStorable(x, packetUid);
      h.PushBack(Bigged(x));
      BiggedCount(items, |nodes| - 1, Bigged(x));
      ValidLength(h);
      Become(h);
      ValidIsReadable(this);
    }

    /** Add all items before the last to the end of an empty list. */
    method CopyFront(h: PacketMetadata)
      requires Readable() && nodes != [] && 30 * |nodes| < NIL && |items| == |nodes|
      requires h != this && h.Valid() && h.packetUid == packetUid && h.used == 0 && h.items == []
      requires h.data != data && h.data.count == 1
      modifies h, h.data
      ensures h.Valid() && h.packetUid == packetUid && h.room == old(h.room) && h.used <= 30 * (|nodes| - 1)
      ensures h.items == AllBigged(items[..|nodes| - 1])
      ensures (h.data == old(h.data) || fresh(h.data)) && h.data.count == 1
    {
      hide Laid, NodeAt, Fits, Within, AllBigged, Length, Body, Spelled, Chained, KeptBut;
      var current := head;
      ghost var k, t := 0, |nodes| - 1;
      NoneBigged(items);
      WalkStep(this, 0);
      while current != NIL && current != tail
        invariant 0 <= k <= t && current == nodes[k].off && h.data != data
        invariant h.Valid() && h.packetUid == packetUid && h.room == old(h.room) && h.used <= 30 * k
        invariant h.items == AllBigged(items[..k])
        invariant (h.data == old(h.data) || fresh(h.data)) && h.data.count == 1
        decreases t - k
      {
        WalkStep(this, k);
        var y, next, prev := ReadItems(current, k);
        BiggedStorable(y, packetUid);
        h.PushBack(Bigged(y));
        BiggedFront(items, k);
        current := next;
        k := k + 1;
      }
      WalkStep(this, k);
    }

    /** The list is still whole after a write that spares it. */
    lemma StillWhole(before: seq<Byte>, from: nat, link: nat)
      requires WholeIn(before) && Within(nodes, from) && Clear(nodes, link)
      requires KeptBut(before, data.bytes, from, link) && |data.bytes| >= |before|
      ensures Whole()
    {
      hide Laid, Within, Clear, KeptBut, Spelled;
      LaidKept(before, data.bytes, from, link, nodes);
    }

    /** Add an item at the end of the list, sparing another one. */
    method AppendOne(o: PacketMetadata, x: Item)
      requires Tidy() && Fits(x) && used + Length(x) < NIL && data.count > 0 && Storable(x, packetUid)
      requires o.Whole() && o != this && (o.data == data && InPlace(Length(x)) ==> Spares(o))
      modifies this, data
      ensures Tidy() && used == old(used) + Length(x) == data.dirtyEnd && packetUid == old(packetUid)
      ensures tail == old(used) && items == old(items) + [x] && room == old(room)
      ensures nodes == old(nodes) + [Node(old(used), Body(x))] && LinkAt(data.bytes, tail, NIL)
      ensures old(InPlace(Length(x))) ==> Stays(old(tail))
      ensures !old(InPlace(Length(x))) ==> Leaves(old(data)) && unchanged(old(data)`bytes)
      ensures old(Spelt()) ==> Spelt()
      ensures o.Whole() && data.count > 0 && Latest()
    {
      hide Laid, NodeAt, Fits, Within, Length, Body, Spelled, Storable, KeptBut, LinkAt, WholeIn, Clear;
      ghost var obytes, used1, tail1, stays, d1 := o.data.bytes, used, tail, InPlace(Length(x)), data;
      PushBack(x);
      if stays && o.data == d1 {
        o.StillWhole(obytes, used1, tail1);
      }
    }

    /** Append the items of another packet from its item k0 on. */
    method AppendFrom(o: PacketMetadata, first: nat, ghost k0: nat)
      requires Tidy() && packetUid < 0x8000_0000 && data.count > 0
      requires o.Whole() && o != this && k0 < |o.nodes| && first == o.nodes[k0].off
      requires used + 30 * |o.nodes| < NIL
      requires o.data == data && InPlace(Length(Bigged(o.items[k0]))) ==> Spares(o)
      modifies this, data
      ensures Tidy() && packetUid == old(packetUid) && room == old(room) && |o.items| == |o.nodes|
      ensures used <= old(used) + 30 * |o.nodes| && items == old(items) + AllBigged(o.items[k0..])
      ensures GrownBy(old(nodes), nodes, old(used), AllBigged(o.items[k0..]), packetUid)
      ensures LinkAt(data.bytes, tail, NIL) && Latest() && o.Whole()
      ensures Keeps(old(data)) && Adds(old(data), old(tail))
      ensures !old(InPlace(Length(Bigged(o.items[k0])))) ==>
        data != old(data) && unchanged(old(data)`bytes) && unchanged(old(data)`dirtyEnd)
      ensures old(Spelt()) ==> Spelt()
    {
      hide Laid, NodeAt, Fits, Within, AllBigged, Length, Body, Spelled, Chained, Storable, GrownBy, KeptBut, LinkAt,
           Whole, WholeIn, Clear, Bigged, Tidy, Labels, InPlace;
      BytesAre(o);
      WholeIsReadable(o);
      var current := first;
      ghost var k, nodes0, items0, u, d0, tail0 := k0, nodes, items, used, data, tail;
      ghost var here, bytes0 := InPlace(Length(Bigged(o.items[k0]))), data.bytes;
      ghost var finished := false;
      GrownNot(nodes, used, o.items, k0, packetUid);
      NothingWritten(data.bytes, used, tail);
      assert items0 + AllBigged(o.items[k0..k0]) == items0;
      while current != NIL
        invariant k0 <= k < |o.nodes| && current == o.nodes[k].off && !finished
        invariant Tidy() && packetUid == old(packetUid) && room == old(room) && used <= u + 30 * (k - k0)
        invariant k == k0 ==> used == u && tail == tail0 && data == d0 && unchanged(d0)
        invariant k == k0 ==> here == InPlace(Length(Bigged(o.items[k0])))
        invariant k == k0 + 1 ==> used == u + Length(Bigged(o.items[k0]))
        invariant k > k0 ==> tail >= u && used >= u && Latest() && LinkAt(data.bytes, tail, NIL)
        invariant k > k0 && !here ==> data != d0 && unchanged(d0`bytes) && unchanged(d0`dirtyEnd)
        invariant items == items0 + AllBigged(o.items[k0..k])
        invariant GrownBy(nodes0, nodes, u, AllBigged(o.items[k0..k]), packetUid)
        invariant Keeps(d0) && Adds(d0, tail0) && data.count > 0 && o.Whole()
        invariant old(Spelt()) ==> Spelt()
        decreases |o.nodes| - k
      {
        WholeIsReadable(o);
        WalkStep(o, k);
        ghost var between, at := nodes, used;
        var x, next, prev := o.ReadItems(current, k);
        BiggedStorable(x, o.packetUid);
        BigAnywhere(x, packetUid);
        ghost var d1, bytes1, used1, tail1, stays := data, data.bytes, used, tail, InPlace(Length(Bigged(x)));
        if stays && o.data == d1 {
          WithinUp(o.nodes, u, used);
          if k > k0 {
            ClearBehind(o.nodes, u, tail);
          }
        }
        AppendOne(o, Bigged(x));
        if stays && d1 == d0 {
          KeptTrans(bytes0, bytes1, data.bytes, u, used1, tail0, tail1, tail0);
        }
        GrownMore(nodes0, between, nodes, u, at, o.items, k0, k, packetUid);
        BiggedNext(o.items, k0, k);
        if current == o.tail {
          assert o.items[k0..k + 1] == o.items[k0..];
          finished := true;
          break;
        }
        current := next;
        k := k + 1;
      }
      if !finished {
        assert false;
      }
    }

    /** Append the items of another packet from its item k0 on, over the end of the last item here when that
        reaches beyond the used part. */
    method AppendOver(o: PacketMetadata, first: nat, ghost k0: nat)
      requires Whole() && nodes != [] && o.Whole() && o != this && k0 < |o.nodes| && first == o.nodes[k0].off
      requires used + 30 * (|o.nodes| + 1) < NIL && data.count > 0
      requires o.data == data && InPlace(Length(Bigged(o.items[k0]))) ==> Spares(o)
      modifies this, data
      ensures Readable() && packetUid == old(packetUid) && room == old(room) && |o.items| == |o.nodes|
      ensures old(Overhang()) == 0 ==> Valid() && GrownPast(old(nodes), nodes, old(used))
      ensures used <= old(used) + 30 * |o.nodes| && Latest() && Keeps(old(data)) && Adds(old(data), old(tail))
      ensures !old(InPlace(Length(Bigged(o.items[k0])))) ==>
        data != old(data) && unchanged(old(data)`bytes) && unchanged(old(data)`dirtyEnd)
      ensures |old(items)| == |old(nodes)| && Fits(old(items[|nodes| - 1]))
      ensures AllFit(old(items)) && AllFit(o.items[k0..])
      ensures Labels(items) == Labels(old(items)) + Labels(o.items[k0..])
         <==> !Overwrites(old(items[|nodes| - 1]), old(tail), old(used), o.items[k0..])
    {
      hide Laid, NodeAt, Body, Length, Storable, NearlySpelled, Spoils, Lapped, Labels, ItemLabels, Spelled,
           AllBigged, GrownBy, Within, Chained, KeptBut, Clear, WholeIn, SafeIn, At, Links;
      LastBody(this);
      BytesAre(this);
      BytesAre(o);
      LastRoom(this);
      ghost var d, t, items0, off, used0 := Overhang(), |nodes| - 1, items, tail, used;
      ghost var more := o.items[k0..];
      SpelledFit(nodes, items, packetUid);
      SpelledFit(o.nodes, o.items, o.packetUid);
      FitSlices(o.items, k0);
      Detach();
      ghost var nodes1 := nodes;
      AppendFrom(o, first, k0);
      GrownFurther(nodes1, nodes, used0, AllBigged(more), packetUid);
      ghost var next := if |more| == 1 then NIL else used0 + Length(Bigged(more[0]));
      if d > 0 {
        NearlyGrown(nodes1, nodes, items0, used0, AllBigged(more), packetUid, t, d);
        GrownLinks(this, nodes1, used0, AllBigged(more), packetUid);
        Reattach(t, d, next, off);
      } else {
        ValidIsReadable(this);
        LapNone(items0, Links(next, off));
      }
      LappedAppend(items0, more, d, Links(next, off));
      assert items == LapLast(items0, d, Links(next, off)) + AllBigged(more);
    }

    /** The first item of the other list continues the last one here. */
    ghost predicate Merges(o: PacketMetadata)
      reads this, o
      requires Spelt() && o.Spelt()
    {
      nodes != [] && o.nodes != [] && Continues(items[|nodes| - 1], o.items[0])
    }

    /** What the last item becomes when the first of the other list is merged with it. */
    ghost function Joint(o: PacketMetadata): (y: Item)
      reads this, o
      requires Spelt() && o.Spelt() && Merges(o)
      ensures Fits(y) && Storable(y, packetUid) && IsBig(y) && Length(items[|nodes| - 1]) <= Length(y) <= 30
    {
      JointFits(this, o);
      Bigged(Merged(items[|nodes| - 1], o.items[0]))
    }

    /** The last item is merged, takes more bytes than before, and stays in its place. */
    ghost predicate Grows(o: PacketMetadata)
      reads this, data, o, o.data`bytes
      requires Whole() && o.Whole()
    {
      Merges(o) && InTail(Joint(o)) && Length(Joint(o)) > Length(items[|nodes| - 1])
    }

    /** Items are appended after one that reaches beyond the used part. */
    ghost predicate WritesOver(o: PacketMetadata)
      reads this, data, o, o.data`bytes
      requires Whole() && o.Whole()
    {
      if Merges(o) then |o.nodes| > 1 && InTail(Joint(o)) && tail + Length(Joint(o)) > UsedWith(Joint(o))
      else nodes != [] && o.nodes != [] && Overhang() > 0
    }

    /** In that case, the bytes written over its end are not those that were there, and belong to an item that has
        labels. */
    ghost predicate Spoiled(o: PacketMetadata)
      reads this, data, o, o.data`bytes
      requires Whole() && o.Whole() && used + 90 < NIL
    {
      LastRoom(this);
      if Merges(o) then
        |o.nodes| > 1 && InTail(Joint(o)) && Overwrites(Joint(o), tail, UsedWith(Joint(o)), o.items[1..])
      else nodes != [] && o.nodes != [] && Overwrites(items[|nodes| - 1], tail, used, o.items)
    }

    /** Items are appended in an array that others may use. */
    ghost predicate AppendsHere(o: PacketMetadata)
      reads this, data, o
      requires Spelt() && o.Spelt()
    {
      nodes != [] && o.nodes != [] && !Merges(o) && InPlace(Length(Bigged(o.items[0])))
    }

    /** Append the items of another packet; when its first continues the last one, the two become one.  The
        labels are those of both packets one after the other exactly when no item with labels is spoiled. */
    method AddAtEnd(o: PacketMetadata)
      requires Whole() && o.Whole() && o != this && data.count > 0
      requires used + 30 * (|nodes| + |o.nodes| + 3) < NIL
      requires o.data == data ==> data.count > 1 && (AppendsHere(o) ==> Spares(o))
      modifies this, data, o.data`count
      ensures Readable() && packetUid == old(if nodes == [] then o.packetUid else packetUid)
      ensures Bytes() == old(Bytes()) + old(o.Bytes()) <==> !old(Spoiled(o))
      ensures !old(WritesOver(o)) ==> Whole()
      ensures old(Valid()) && old(o.Valid()) && !old(Grows(o)) ==> Valid()
      ensures old(nodes) == [] ==> Same(o)
      ensures old(nodes) == [] && old(data) != o.data ==>
        old(data).count == old(data.count) - 1 && data.count == old(o.data.count) + 1
      ensures old(nodes) == [] && old(data) == o.data ==> data.count == old(data.count)
      ensures old(nodes) == [] || o.nodes == [] ==> unchanged(old(data)`bytes) && unchanged(old(data)`dirtyEnd)
      ensures o.nodes == [] && old(nodes) != [] ==> unchanged(this)
      ensures old(nodes) != [] ==> Keeps(old(data)) && (o.data != old(data) ==> o.data.count == old(o.data.count))
      ensures old(nodes) != [] && o.nodes != [] ==> Latest()
      ensures old(data.count) > 1 && old(AppendsHere(o)) ==> Adds(old(data), old(tail))
      ensures old(data.count) > 1 && !old(AppendsHere(o)) ==>
        && unchanged(old(data)`bytes) && unchanged(old(data)`dirtyEnd)
        && (old(nodes) != [] && o.nodes != [] ==> data != old(data))
      ensures old(nodes) != [] && old(data.count) > 1 && data == old(data) && old(Overhang()) == 0 ==>
        GrownPast(old(nodes), nodes, old(used))
    {
      hide Whole, WholeIn, Readable, Valid, Tidy, Spelt, Bytes, Labels, Overhang, Merges, Joint, Grows,
           WritesOver, Spoiled, GrownPast, InTail, TailRoom, UsedWith, Ends, Within, Clear, Laid, Chained, KeptBut,
           AllFit, Continues, Merged, Length, Bigged, Overwrites, Spelled, SafeIn, AllBigged, Fits, Storable;
      BytesAre(this);
      BytesAre(o);
      ReadableParts(this);
      ReadableParts(o);
      SpoiledCases(this, o);
      ValidIsWhole(this);
      if tail == NIL {
        Assign(o);
        SameWhole(this, o);
        BytesAre(this);
        WholeIsReadable(this);
        NoLabels();
        assert [] + o.Bytes() == o.Bytes();
        return;
      }
      if o.head == NIL {
        NoLabels();
        GrownNone(nodes, used);
        assert Bytes() + [] == Bytes();
        return;
      }
      var t, tailNext, tailPrev := ReadItems(tail, |nodes| - 1);
      var x, next, prev := o.ReadItems(o.head, 0);
      MergesIs(this, o);
      if Continues(t, x) {
        AppendMerged(o, t, x, tailNext, tailPrev, next);
      } else {
        assert o.items[0..] == o.items;
        AppendOver(o, o.head, 0);
        ReadableParts(this);
        if old(Overhang()) == 0 {
          ValidIsReadable(this);
        }
      }
    }

    /** The same list in the same array. */
    ghost predicate Same(o: PacketMetadata)
      reads this, o
    {
      && data == o.data && head == o.head && tail == o.tail && used == o.used && packetUid == o.packetUid
      && room == o.room && nodes == o.nodes && items == o.items
    }

    /** Append the items of another packet, of which the first continues the last one here. */
    method AppendMerged(o: PacketMetadata, t: Item, x: Item, tailNext: nat, tailPrev: nat, next: nat)
      requires Whole() && o.Whole() && o != this && Merges(o) && data.count > 0
      requires used + 30 * (|nodes| + |o.nodes| + 3) < NIL
      requires o.data == data ==> data.count > 1
      requires var k := |nodes| - 1; t == items[k] && (k > 0 ==> tailPrev == nodes[k - 1].off)
      requires x == o.items[0] && (|o.nodes| > 1 ==> next == o.nodes[1].off)
      requires tailNext < 0x1_0000 && tailPrev < 0x1_0000
      modifies this, data
      ensures Readable() && packetUid == old(packetUid) && Keeps(old(data)) && Latest()
      ensures Bytes() == old(Bytes()) + old(o.Bytes()) <==> !old(Spoiled(o))
      ensures !old(WritesOver(o)) ==> Whole()
      ensures old(Valid()) && !old(Grows(o)) ==> Valid()
      ensures old(data.count) > 1 ==>
        data != old(data) && unchanged(old(data)`bytes) && unchanged(old(data)`dirtyEnd)
    {
      hide Whole, WholeIn, Readable, Valid, Tidy, Spelt, Bytes, Labels, Overhang, Merges, Joint, Grows,
           WritesOver, Spoiled, GrownPast, TailRoom, UsedWith, Ends, Within, Clear, Laid, Chained, KeptBut,
           AllFit, Continues, Merged, Length, Bigged, Overwrites, Spelled, SafeIn, AllBigged, Fits, Storable,
           IsBig, AppendsHere;
      BytesAre(this);
      BytesAre(o);
      ReadableParts(o);
      SpoiledCases(this, o);
      MergesIs(this, o);
      ghost var items0, more := items, o.items;
      JointFits(this, o);
      MergedSum(items0, more, t, x);
      ReplaceTail(Merged(t, x), tailNext, tailPrev, Length(t));
      BytesAre(this);
      WholeIsReadable(this);
      WalkStep(o, 0);
      LastRoom(this);
      ghost var over := Overhang();
      if o.head == o.tail {
        // There is only one item to append.
        NoLabels();
        assert more[1..] == [] && Labels(items) + [] == Labels(items);
        ValidIsWhole(this);
        return;
      }
      ValidIsWhole(this);
      NotOver(items[|items| - 1], tail, used, more[1..]);
      AppendOver(o, next, 1);
      ReadableParts(this);
      if over == 0 {
        ValidIsReadable(this);
      }
    }

    /** A packet of its own that is less start bytes at the start and end bytes at the end.  It shares the array
        exactly when no item is cut. */
    method CreateFragment(start: nat, end: nat) returns (fragment: PacketMetadata)
      requires Whole() && start + end <= |Bytes()| && 30 * |nodes| < NIL && data.count > 0
      modifies data`count
      ensures fresh(fragment) && fragment.Whole() && (Valid() ==> fragment.Valid())
      ensures fragment.packetUid == packetUid && fragment.room == room && |fragment.nodes| <= |nodes|
      ensures fragment.used <= used || fragment.used <= 30 * |nodes|
      ensures AllFit(items) && |Labels(items)| == |Bytes()|
      ensures start == 0 ==> fragment.items == DropEnd(items, end) && (CutsEnd(items, end) ==> fragment.FreshTail())
      ensures end == 0 ==> fragment.items == DropStart(items, start)
      ensures fragment.Bytes() == Bytes()[start..|Bytes()| - end]
      ensures if CutsPiece(items, start, end)
        then fragment.Valid() && fresh(fragment.data) && fragment.data.count == 1 && fragment.Latest() &&
             data.count == old(data.count)
        else fragment.data == data && data.count == old(data.count) + 1 && fragment.used == used &&
             exists lo, hi :: 0 <= lo <= hi <= |nodes| && fragment.nodes == nodes[lo..hi]
      ensures !CutsPiece(items, start, end) && start == 0 ==> fragment.nodes == nodes[..|fragment.nodes|]
      ensures !CutsPiece(items, start, end) && end == 0 ==> fragment.nodes == nodes[|nodes| - |fragment.nodes|..]
    {
      hide Whole, WholeIn, Readable, Valid, Tidy, Spelt, Bytes, Labels, Overhang, Ends, Within, Laid, Chained,
           AllFit, Spelled, SafeIn, DropStart, DropEnd, CutsStart, CutsEnd, FreshTail;
      WholeSafe(this);
      BytesAre(this);
      fragment := new PacketMetadata.Copy(this);
      SameWhole(fragment, this);
      BytesAre(fragment);
      fragment.RemoveAtStart(start);
      BytesAre(fragment);
      ghost var rest, mid := fragment.items, fragment.nodes;
      DropStartNone(items);
      ghost var cutStart := fragment.data != data;
      assert data.count == if cutStart then old(data.count) else old(data.count) + 1;
      assert !cutStart ==> mid == nodes[|nodes| - |mid|..];
      ghost var cutEnd := CutsEnd(rest, end);
      fragment.RemoveAtEnd(end);
      assert data.count == if cutStart || cutEnd then old(data.count) else old(data.count) + 1;
      assert CutsPiece(items, start, end) <==> cutStart || cutEnd;
      DropEndNone(rest);
      BytesAre(fragment);
      if fragment.data == data {
        ghost var lo := |nodes| - |mid|;
        assert fragment.nodes == nodes[lo..][..|fragment.nodes|] == nodes[lo..lo + |fragment.nodes|];
      }
      assert Bytes()[start..][..|Bytes()| - start - end] == Bytes()[start..|Bytes()| - end];
    }

    /** How far the last item reaches beyond the used part. */
    method Reach() returns (d: nat)
      requires Whole()
      ensures d == Overhang()
    {
      hide *;
      BytesAre(this);
      WholeIsReadable(this);
      LastRoom(this);
      NoReach(this);
      d := 0;
      if tail != NIL {
        var t, next, prev := ReadItems(tail, |nodes| - 1);
        d := if tail + Length(t) > used then tail + Length(t) - used else 0;
      }
    }

    /** Whether appending the other list would write over the end of an item. */
    method WouldWriteOver(o: PacketMetadata) returns (over: bool)
      requires Whole() && o.Whole() && used + 90 < NIL
      ensures over <==> WritesOver(o)
    {
      hide *;
      BytesAre(this);
      BytesAre(o);
      WholeIsReadable(this);
      WholeIsReadable(o);
      SpoiledCases(this, o);
      MergesIs(this, o);
      RoomIs(this);
      over := false;
      if tail != NIL && o.head != NIL {
        var t, tailNext, tailPrev := ReadItems(tail, |nodes| - 1);
        var x, next, prev := o.ReadItems(o.head, 0);
        WalkStep(o, 0);
        if Continues(t, x) {
          var n := Length(Bigged(Merged(t, x)));
          var available := if tail + Length(t) == used == data.dirtyEnd then |data.bytes| - tail else Length(t);
          over := o.head != o.tail && data.count == 1 && available >= n &&
            tail + n > (if used < tail + n - 4 then tail + n - 4 else used);
        } else {
          var d := Reach();
          over := d > 0;
        }
      }
    }

    /** Whether items would be appended in an array that others may use. */
    method WouldAppendHere(o: PacketMetadata) returns (here: bool)
      requires Whole() && o.Whole()
      ensures Spelt() && o.Spelt() && (here <==> AppendsHere(o))
    {
      hide Whole, WholeIn, Readable, Valid, Tidy, Spelt, Bytes, Labels, Merges, Joint, Continues, Length, Bigged;
      BytesAre(this);
      BytesAre(o);
      WholeIsReadable(this);
      WholeIsReadable(o);
      MergesIs(this, o);
      here := false;
      if tail != NIL && o.head != NIL {
        var t, tailNext, tailPrev := ReadItems(tail, |nodes| - 1);
        var x, next, prev := o.ReadItems(o.head, 0);
        here := !Continues(t, x) && InPlace(Length(Bigged(x)));
      }
    }

    /** Whether the list is left alone by writing behind a place and setting a link. */
    method Spared(from: nat, link: nat) returns (spared: bool)
      requires Whole()
      ensures spared <==> Within(nodes, from) && Clear(nodes, link)
    {
      hide Whole, WholeIn, Readable, Laid, Chained, Length, Spelled, Storable;
      BytesAre(this);
      WholeIsReadable(this);
      var current := head;
      ghost var k := 0;
      spared := true;
      while current != NIL && spared
        invariant k <= |nodes| && (current == NIL ==> k == |nodes|)
        invariant current != NIL && spared ==> k < |nodes| && current == nodes[k].off
        invariant spared ==> Within(nodes[..k], from) && forall j :: 0 <= j < k ==> ClearAt(nodes, link, j)
        invariant !spared ==> !(Within(nodes, from) && Clear(nodes, link))
        decreases |nodes| - k, spared
      {
        WalkStep(this, k);
        EndIs(this, k);
        var x, next, prev := ReadItems(current, k);
        var end := current + Length(x);
        spared := end <= from && (link + 2 <= current || end <= link || (link == current && current == tail)
                                  || (link == current + 2 && current == head));
        assert spared <==> End(nodes[k]) <= from && ClearAt(nodes, link, k);
        assert nodes[..k + 1] == nodes[..k] + [nodes[k]];
        k := k + 1;
        if current == tail {
          break;
        }
        current := next;
      }
      assert nodes[..|nodes|] == nodes;
    }

    /** The number of bytes of the packet, and how many items they are in. */
    method GetTotalSize() returns (totalSize: nat, count: nat)
      requires Whole()
      ensures totalSize == |Bytes()| && count == |nodes|
    {
      hide *;
      BytesAre(this);
      WholeIsReadable(this);
      NoLabels();
      totalSize, count := 0, 0;
      var current := head;
      assert items[..0] == [] && items[..|items|] == items;
      FitSlices(items, 0);
      while current != NIL
        invariant count <= |nodes| && (current == NIL ==> count == |nodes|)
        invariant current != NIL ==> count < |nodes| && current == nodes[count].off
        invariant AllFit(items[..count]) && totalSize == |Labels(items[..count])|
        decreases |nodes| - count
      {
        WalkStep(this, count);
        var x, next, prev := ReadItems(current, count);
        OneMoreLabelled(items, count);
        totalSize := totalSize + (x.fragEnd - x.fragStart);
        count := count + 1;
        if current == tail {
          break;
        }
        current := next;
      }
    }
  }

  /** The list has grown at its end by nodes behind the given place. */
  ghost predicate GrownPast(a: seq<Node>, b: seq<Node>, used: nat) {
    |b| >= |a| && b[..|a|] == a && forall k :: |a| <= k < |b| ==> b[k].off >= used
  }

  /** The labels of a header or trailer that is added to a packet. */
  function NewLabels(uid: nat, headerType: nat, size: nat, chunkUid: nat): seq<Label> {
    ItemLabels(NewItem(uid, headerType, size, chunkUid))
  }

  function NewItem(uid: nat, headerType: nat, size: nat, chunkUid: nat): Item {
    Item(2 * headerType, size, chunkUid, 0, size, uid)
  }

  // ----- Lemmas -----

  lemma SpelledFit(nodes: seq<Node>, items: seq<Item>, uid: nat)
    requires Spelled(nodes, items, uid)
    ensures AllFit(items)
  {
    hide Body;
    forall k | 0 <= k < |items|
      ensures items[k].fragStart <= items[k].fragEnd
    {
      assert Spells(nodes[k], items[k], uid);
    }
  }

  lemma EncodeIsWritten(next: nat, prev: nat, x: Item)
    requires next < 0x1_0000 && prev < 0x1_0000 && Fits(x)
    ensures Encode(next, prev, x) == Written(next, prev, Body(x)) && |Body(x)| == Length(x) - 4 >= 4
  {
    hide Body, Le16;
  }

  lemma SpelledBack(a: seq<Node>, b: seq<Node>, items: seq<Item>, x: Item, uid: nat)
    requires Spelled(a, items, uid) && |b| == |a| + 1 && b[..|a|] == a
    requires Storable(x, uid) && b[|a|].body == Body(x)
    ensures Spelled(b, items + [x], uid)
  {
    hide Body, Storable;
    forall k | 0 <= k < |b|
      ensures Spells(b[k], (items + [x])[k], uid)
    {
      if k < |a| {
        assert Spells(b[..|a|][k], items[k], uid);
      }
    }
  }

  lemma SpelledFront(a: seq<Node>, b: seq<Node>, items: seq<Item>, x: Item, uid: nat)
    requires Spelled(a, items, uid) && |b| == |a| + 1 && b[1..] == a
    requires Storable(x, uid) && b[0].body == Body(x)
    ensures Spelled(b, [x] + items, uid)
  {
    hide Body, Storable;
    forall k | 0 <= k < |b|
      ensures Spells(b[k], ([x] + items)[k], uid)
    {
      if k > 0 {
        assert Spells(b[1..][k - 1], items[k - 1], uid);
      }
    }
  }

  /** Walking the list ends just at its ends. */
  lemma WalkStep(m: PacketMetadata, k: nat)
    requires m.Readable() && k < |m.nodes|
    ensures m.nodes[k].off < NIL
    ensures k + 1 < |m.nodes| <==> m.nodes[k].off != m.tail
    ensures k > 0 <==> m.nodes[k].off != m.head
    ensures k + 1 < |m.nodes| ==> m.nodes[k + 1].off < NIL
    ensures k > 0 ==> m.nodes[k - 1].off < NIL
  {
    hide NodeAt, Spelled, AllLinked;
    var nodes := m.nodes;
    if k + 1 < |nodes| {
      assert nodes[k].off != nodes[|nodes| - 1].off;
    }
    if k > 0 {
      assert nodes[0].off != nodes[k].off;
    }
  }

  lemma WholeIsWithin(m: PacketMetadata)
    requires m.Whole() && m.Overhang() == 0
    ensures m.Valid()
  {
    hide Laid, Spelled;
    forall k | 0 <= k < |m.nodes|
      ensures End(m.nodes[k]) <= m.used
    {
      if k < |m.nodes| - 1 {
        assert m.nodes[..|m.nodes| - 1][k] == m.nodes[k];
      }
    }
  }

  lemma StorableFits(x: Item, uid: nat)
    requires Storable(x, uid)
    ensures Fits(x) && x.fragStart <= x.fragEnd
  {
  }

  /** The last node, if it reaches beyond the used part, holds an item in big form. */
  lemma LastBody(m: PacketMetadata)
    requires m.Whole() && m.nodes != []
    ensures var t := |m.nodes| - 1;
      && NodeAt(m.data.bytes, m.nodes[t]) && Spells(m.nodes[t], m.items[t], m.packetUid)
      && |m.nodes[t].body| == Length(m.items[t]) - 4
      && |m.nodes[t].body| >= 4 && End(m.nodes[t]) <= |m.data.bytes| && (IsBig(m.items[t]) ==> |m.nodes[t].body| >= 10)
  {
    hide Uleb128, Le16, Le32, Uleb128Size, Apart;
    var t := |m.nodes| - 1;
    assert NodeAt(m.data.bytes, m.nodes[t]) && Spells(m.nodes[t], m.items[t], m.packetUid);
  }

  lemma TidyOffsets(m: PacketMetadata)
    requires m.Tidy()
    ensures forall k :: 0 <= k < |m.nodes| ==> m.nodes[k].off + 4 <= m.used
  {
    forall k | 0 <= k < |m.nodes|
      ensures m.nodes[k].off + 4 <= m.used
    {
      assert End(m.nodes[k]) <= m.used;
    }
  }

  lemma NewItemFits(x: Item, uid: nat)
    requires x.typeUid % 2 == 0 && x.typeUid < 0x1_0000_0000 && x.size < 0x1_0000_0000 && x.chunkUid < 0x1_0000
    requires x.fragStart == 0 && x.fragEnd == x.size && x.packetUid == uid < 0x8000_0000
    ensures Storable(x, uid) && Fits(x) && AllFit([x]) && Length(x) <= 30 && 8 <= Length(x)
  {
  }

  lemma LastFits(m: PacketMetadata)
    requires m.Spelt()
    ensures |m.items| == |m.nodes|
    ensures m.nodes != [] ==> Fits(m.items[|m.items| - 1])
  {
    hide Body;
    if m.nodes != [] {
      assert Spells(m.nodes[|m.nodes| - 1], m.items[|m.nodes| - 1], m.packetUid);
    }
  }

  lemma ValidIsReadable(m: PacketMetadata)
    requires m.Valid()
    ensures m.Readable() && m.Whole()
  {
    hide Spelled, Laid;
    LaidIsChained(m.data.bytes, m.nodes);
    TidyOffsets(m);
    assert m.nodes != [] ==> End(m.nodes[|m.nodes| - 1]) <= m.used;
  }

  lemma WholeIsReadable(m: PacketMetadata)
    requires m.Whole()
    ensures m.Readable()
  {
    hide Spelled, Laid;
    LaidIsChained(m.data.bytes, m.nodes);
    forall k | 0 <= k < |m.nodes|
      ensures m.nodes[k].off + 4 <= m.used
    {
      if k < |m.nodes| - 1 {
        assert m.nodes[..|m.nodes| - 1][k] == m.nodes[k];
        assert End(m.nodes[..|m.nodes| - 1][k]) <= m.used;
      }
    }
  }

  lemma StubSpelled(nodes: seq<Node>, items: seq<Item>, uid: nat, d: nat)
    requires Spelled(nodes, items, uid) && nodes != [] && IsBig(items[|nodes| - 1]) && d <= 4
    requires |nodes[|nodes| - 1].body| >= 10
    ensures NearlySpelled(Stub(nodes, d), items, uid, |nodes| - 1, d)
  {
    hide Body;
    var t := |nodes| - 1;
    assert Spells(nodes[t], items[t], uid);
  }

  lemma NearlyFront(a: seq<Node>, b: seq<Node>, items: seq<Item>, x: Item, uid: nat, t: nat, d: nat)
    requires NearlySpelled(a, items, uid, t, d) && |b| == |a| + 1 && b[1..] == a
    requires Storable(x, uid) && b[0].body == Body(x)
    ensures NearlySpelled(b, [x] + items, uid, t + 1, d)
  {
    hide Body, Storable;
    forall k | 0 <= k < |b| && k != t + 1
      ensures Spells(b[k], ([x] + items)[k], uid)
    {
      if k > 0 {
        assert Spells(a[k - 1], items[k - 1], uid) && b[1..][k - 1] == b[k];
      }
    }
    assert b[1..][t] == b[t + 1];
  }

  lemma NearlyBack(a: seq<Node>, b: seq<Node>, items: seq<Item>, x: Item, uid: nat, t: nat, d: nat)
    requires NearlySpelled(a, items, uid, t, d) && |b| == |a| + 1 && b[..|a|] == a
    requires Storable(x, uid) && b[|a|].body == Body(x)
    ensures NearlySpelled(b, items + [x], uid, t, d)
  {
    hide Body, Storable;
    forall k | 0 <= k < |b| && k != t
      ensures Spells(b[k], (items + [x])[k], uid)
    {
      if k < |a| {
        assert Spells(a[k], items[k], uid) && b[..|a|][k] == b[k];
      }
    }
    assert b[..|a|][t] == b[t];
  }

  lemma LapNone(items: seq<Item>, bytes: seq<Byte>)
    requires |bytes| == 4 && (items != [] ==> Fits(items[|items| - 1]))
    ensures items != [] ==> LapLast(items, 0, bytes) == items && !Spoils(items[|items| - 1], 0, bytes)
  {
  }

  /** As LapLabels, also for an empty list. */
  lemma LappedAll(front: seq<Item>, items: seq<Item>, d: nat, bytes: seq<Byte>, rest: seq<Item>)
    requires AllFit(front) && AllFit(items) && AllFit(rest) && d <= 4 && |bytes| == 4
    requires items != [] ==> Fits(items[|items| - 1])
    ensures var r := front + (if items == [] then [] else LapLast(items, d, bytes)) + rest;
      && AllFit(r) && AllFit(front + items + rest)
      && (Labels(r) == Labels(front + items + rest) <==> items == [] || !Spoils(items[|items| - 1], d, bytes))
  {
    hide Labels, ItemLabels, Lapped, Spoils, Fits;
    if items == [] {
      assert front + [] == front + items;
      Joined(front, items);
      Joined(front + items, rest);
    } else {
      LapLabels(front, items, d, bytes, rest);
    }
  }

  lemma BiggedStorable(x: Item, uid: nat)
    requires Storable(x, uid)
    ensures Fits(Bigged(x)) && Storable(Bigged(x), uid) && Length(Bigged(x)) <= 30
  {
  }

  /** A piece of an item can be stored in big form. */
  lemma CutStorable(x: Item, n: nat, uid: nat)
    requires Storable(x, uid) && x.fragStart + n < x.fragEnd
    ensures var y := Bigged(x.(fragStart := x.fragStart + n)); Fits(y) && Storable(y, uid) && Length(y) <= 30
    ensures var y := Bigged(x.(fragEnd := x.fragEnd - n)); Fits(y) && Storable(y, uid) && Length(y) <= 30
    ensures Bigged(x.(fragStart := x.fragStart + n)) == Bigged(x).(fragStart := x.fragStart + n)
    ensures Bigged(x.(fragEnd := x.fragEnd - n)) == Bigged(x).(fragEnd := x.fragEnd - n)
  {
  }

  lemma BiggedNext(items: seq<Item>, a: nat, k: nat)
    requires a <= k < |items|
    ensures AllBigged(items[a..k + 1]) == AllBigged(items[a..k]) + [Bigged(items[k])]
  {
  }

  lemma BiggedPrev(items: seq<Item>, k: nat, t: nat)
    requires 0 < k <= t <= |items|
    ensures AllBigged(items[k - 1..t]) == [Bigged(items[k - 1])] + AllBigged(items[k..t])
  {
  }

  lemma NodeStorable(nodes: seq<Node>, items: seq<Item>, uid: nat, k: nat)
    requires Spelled(nodes, items, uid) && k < |nodes|
    ensures Storable(items[k], uid)
  {
    hide Body;
    assert Spells(nodes[k], items[k], uid);
  }

  lemma BytesAre(m: PacketMetadata)
    requires m.Whole()
    ensures m.Spelt() && |m.items| == |m.nodes| && AllFit(m.items) && m.Bytes() == Labels(m.items)
    ensures m.nodes == [] ==> m.head == NIL && m.tail == NIL
    ensures m.nodes != [] ==> m.head == m.nodes[0].off < NIL && m.tail == m.nodes[|m.nodes| - 1].off < NIL
  {
    hide Laid, Labels, Spelled;
    SpelledFit(m.nodes, m.items, m.packetUid);
    LastFits(m);
    if m.nodes != [] {
      WholeIsReadable(m);
      WalkStep(m, 0);
      WalkStep(m, |m.nodes| - 1);
    }
  }

  lemma ValidLength(m: PacketMetadata)
    requires m.Spelt()
    ensures |m.items| == |m.nodes|
  {
  }

  lemma SpelledTail(nodes: seq<Node>, items: seq<Item>, uid: nat)
    requires Spelled(nodes, items, uid) && nodes != []
    ensures Spelled(nodes[1..], items[1..], uid)
  {
    hide Spells;
  }

  lemma SpelledInit(nodes: seq<Node>, items: seq<Item>, uid: nat)
    requires Spelled(nodes, items, uid) && nodes != []
    ensures Spelled(nodes[..|nodes| - 1], items[..|nodes| - 1], uid)
  {
    hide Spells;
  }

  lemma WithinTail(nodes: seq<Node>, used: nat)
    requires nodes != [] && Within(nodes[..|nodes| - 1], used)
    ensures |nodes| > 1 ==> Within(nodes[..|nodes| - 1][1..], used)
    ensures Within(nodes, used) ==> Within(nodes[1..], used)
  {
  }

  /** The node that is now the last one is linked to from the one that was. */
  lemma InitOffset(m: PacketMetadata)
    requires m.nodes != [] && Within(m.nodes, m.used)
    ensures m.nodes[|m.nodes| - 1].off + 4 <= m.used && m.nodes[0].off + 4 <= m.used
  {
    assert End(m.nodes[|m.nodes| - 1]) <= m.used && End(m.nodes[0]) <= m.used;
  }

  lemma DropStartStep(items: seq<Item>, n: nat)
    requires AllFit(items) && n <= |Labels(items)|
    ensures n == 0 ==> DropStart(items, n) == items && !CutsStart(items, n)
    ensures n > 0 ==> items != [] && AllFit(items[1..])
    ensures n > 0 && Size(items[0]) <= n ==> var k := n - Size(items[0]);
      && k <= |Labels(items[1..])| && DropStart(items, n) == DropStart(items[1..], k)
      && (CutsStart(items, n) <==> CutsStart(items[1..], k))
    ensures n > 0 && Size(items[0]) > n ==> var y := Bigged(items[0]).(fragStart := items[0].fragStart + n);
      DropStart(items, n) == [y] + AllBigged(items[1..]) && CutsStart(items, n)
  {
    hide ItemLabels, AllBigged;
    NoLabels();
    if n > 0 {
      FirstLabels(items);
    }
  }

  lemma DropEndStep(items: seq<Item>, n: nat)
    requires AllFit(items) && n <= |Labels(items)|
    ensures n == 0 ==> DropEnd(items, n) == items && !CutsEnd(items, n)
    ensures n > 0 ==> items != [] && AllFit(items[..|items| - 1]) && Size(items[|items| - 1]) >= 0
    ensures n > 0 && Size(items[|items| - 1]) <= n ==> var t := |items| - 1;
      && n - Size(items[t]) <= |Labels(items[..t])|
      && DropEnd(items, n) == DropEnd(items[..t], n - Size(items[t]))
      && (CutsEnd(items, n) <==> CutsEnd(items[..t], n - Size(items[t])))
    ensures n > 0 && Size(items[|items| - 1]) > n ==> var t := |items| - 1;
      DropEnd(items, n) == AllBigged(items[..t]) + [Bigged(items[t]).(fragEnd := items[t].fragEnd - n)]
    ensures n > 0 && Size(items[|items| - 1]) > n ==> CutsEnd(items, n)
  {
    hide Labels, ItemLabels, AllBigged;
    NoLabels();
    if n > 0 && items != [] {
      LastLabels(items);
    }
  }

  lemma BiggedKept(x: Item, uid: nat)
    requires Storable(x, uid)
    ensures Fits(Bigged(x)) && IsBig(Bigged(x)) && Storable(Bigged(x), uid) && 14 <= Length(Bigged(x)) <= 30
  {
  }

  lemma NoneBigged(items: seq<Item>)
    ensures AllBigged(items[..0]) == []
  {
  }

  lemma BiggedFront(items: seq<Item>, k: nat)
    requires k < |items|
    ensures AllBigged(items[..k + 1]) == AllBigged(items[..k]) + [Bigged(items[k])]
  {
  }

  lemma BiggedCount(items: seq<Item>, t: nat, x: Item)
    requires t < |items|
    ensures |AllBigged(items[..t]) + [x]| == t + 1
  {
  }

  /** A big item reads the same in every packet. */
  lemma BigAnywhere(x: Item, uid: nat)
    requires Fits(Bigged(x))
    ensures Storable(Bigged(x), uid)
  {
  }

  /** The labels after items have been appended over the last d bytes of the last item. */
  lemma LappedAppend(items: seq<Item>, more: seq<Item>, d: nat, bytes: seq<Byte>)
    requires AllFit(items) && AllFit(more) && items != [] && Fits(items[|items| - 1]) && d <= 4 && |bytes| == 4
    ensures var r := LapLast(items, d, bytes) + AllBigged(more);
      AllFit(r) && (Labels(r) == Labels(items) + Labels(more) <==> !Spoils(items[|items| - 1], d, bytes))
    ensures d == 0 ==> LapLast(items, d, bytes) == items
  {
    hide Labels, Spoils, Lapped, AllBigged;
    BiggedLabels(more);
    LapNone(items, bytes);
    LapLabels([], items, d, bytes, AllBigged(more));
    Joined(items, AllBigged(more));
    assert [] + items + AllBigged(more) == items + AllBigged(more);
    assert [] + LapLast(items, d, bytes) == LapLast(items, d, bytes);
  }

  lemma SpelledReplace(nodes: seq<Node>, items: seq<Item>, uid: nat, y: Item)
    requires Spelled(nodes, items, uid) && nodes != [] && Storable(y, uid)
    ensures Spelled(BodySet(nodes, Body(y)), items[|nodes| - 1 := y], uid)
  {
    hide Body, Storable;
    StorableFits(y, uid);
    forall k | 0 <= k < |nodes|
      ensures Spells(BodySet(nodes, Body(y))[k], items[|nodes| - 1 := y][k], uid)
    {
      assert Spells(nodes[k], items[k], uid);
    }
  }

  lemma WithinMore(a: seq<Node>, b: seq<Node>, used: nat, used2: nat)
    requires a != [] && |b| == |a| && a[..|a| - 1] == b[..|b| - 1] && Within(a[..|a| - 1], used) && used <= used2
    ensures Within(b[..|b| - 1], used2)
    ensures Within(a, used) && End(b[|b| - 1]) <= used2 ==> Within(b, used2)
  {
    if End(b[|b| - 1]) <= used2 {
      forall k | 0 <= k < |b|
        ensures End(b[k]) <= used2
      {
        assert k < |b| - 1 ==> b[k] == b[..|b| - 1][k];
      }
    }
  }

  lemma JointFits(m: PacketMetadata, o: PacketMetadata)
    requires m.Spelt() && o.Spelt() && m.Merges(o)
    ensures |m.items| == |m.nodes| && |o.items| == |o.nodes|
    ensures var t, x := m.items[|m.nodes| - 1], o.items[0]; var y := Bigged(Merged(t, x));
      && Storable(Merged(t, x), m.packetUid) && Fits(y) && Storable(y, m.packetUid) && IsBig(y)
      && Length(t) <= Length(y) <= 30
  {
    hide Spells;
    NodeStorable(m.nodes, m.items, m.packetUid, |m.nodes| - 1);
    NodeStorable(o.nodes, o.items, o.packetUid, 0);
  }

  /** Where the last item is and how far it reaches. */
  lemma LastRoom(m: PacketMetadata)
    requires m.Whole()
    ensures m.nodes != [] ==> |m.items| == |m.nodes| && Fits(m.items[|m.nodes| - 1]) && m.tail + 4 <= m.used
    ensures m.nodes != [] ==> m.tail + Length(m.items[|m.nodes| - 1]) <= m.used + 4
    ensures m.nodes != [] ==>
      m.Overhang() == if m.tail + Length(m.items[|m.nodes| - 1]) > m.used
                      then m.tail + Length(m.items[|m.nodes| - 1]) - m.used else 0
  {
    hide Laid, Spelled, Length;
    LastFits(m);
    if m.nodes != [] {
      LastBody(m);
      WholeIsReadable(m);
      WalkStep(m, |m.nodes| - 1);
    }
  }

  /** The labels after the last item has been merged, and those of the items that follow. */
  lemma MergedSum(items: seq<Item>, more: seq<Item>, t: Item, x: Item)
    requires items != [] && more != [] && AllFit(items) && AllFit(more)
    requires t == items[|items| - 1] && x == more[0] && Continues(t, x)
    ensures AllFit(more[1..])
    ensures var y, n := Bigged(Merged(t, x)), |items| - 1;
      && AllFit(AllBigged(items[..n]) + [y]) && AllFit(items[n := y])
      && Labels(AllBigged(items[..n]) + [y]) + Labels(more[1..]) == Labels(items) + Labels(more)
      && Labels(items[n := y]) + Labels(more[1..]) == Labels(items) + Labels(more)
  {
    hide Labels, AllBigged, Bigged, Merged;
    var y, n, rest := Bigged(Merged(t, x)), |items| - 1, AllBigged(more[1..]);
    MergedLabels(items, more, t, x);
    FitSlices(more, 1);
    BiggedLabels(more[1..]);
    FitFront(AllBigged(items[..n]) + [y], rest);
    FitFront(items[n := y], rest);
    Joined(AllBigged(items[..n]) + [y], rest);
    Joined(items[n := y], rest);
  }

  lemma FitFront(a: seq<Item>, b: seq<Item>)
    requires AllFit(a + b)
    ensures AllFit(a) && AllFit(b)
  {
    forall k | 0 <= k < |a|
      ensures a[k].fragStart <= a[k].fragEnd
    {
      assert a[k] == (a + b)[k];
    }
    forall k | 0 <= k < |b|
      ensures b[k].fragStart <= b[k].fragEnd
    {
      assert b[k] == (a + b)[|a| + k];
    }
  }

  lemma ReadableParts(m: PacketMetadata)
    requires m.Whole() || m.Readable()
    ensures m.Readable() && m.Spelt() && |m.items| == |m.nodes| && AllFit(m.items) && m.Bytes() == Labels(m.items)
    ensures m.SafeIn(m.data.bytes)
    ensures m.nodes != [] ==> m.head == m.nodes[0].off && m.tail == m.nodes[|m.nodes| - 1].off
  {
    hide Laid, Labels, Spelled, Chained;
    if m.Whole() {
      WholeIsReadable(m);
    }
    SpelledFit(m.nodes, m.items, m.packetUid);
    LastFits(m);
  }

  lemma ValidIsWhole(m: PacketMetadata)
    ensures m.Valid() ==> m.Whole() && m.Overhang() == 0
  {
    if m.Valid() {
      ValidIsReadable(m);
      assert m.nodes != [] ==> End(m.nodes[|m.nodes| - 1]) <= m.used;
    }
  }

  lemma MergesIs(m: PacketMetadata, o: PacketMetadata)
    requires m.Spelt() && o.Spelt()
    ensures |m.items| == |m.nodes| && |o.items| == |o.nodes|
    ensures m.Merges(o) <==> m.nodes != [] && o.nodes != [] && Continues(m.items[|m.nodes| - 1], o.items[0])
  {
  }

  /** What appending does to the end of the last item, case by case. */
  lemma SpoiledCases(m: PacketMetadata, o: PacketMetadata)
    requires m.Whole() && o.Whole() && m.used + 90 < NIL
    ensures m.Spelt() && o.Spelt() && |m.items| == |m.nodes| && |o.items| == |o.nodes|
    ensures m.nodes == [] || o.nodes == [] ==> !m.Spoiled(o) && !m.WritesOver(o) && !m.Merges(o) && !m.Grows(o)
    ensures m.nodes != [] && o.nodes != [] ==> var t := m.items[|m.nodes| - 1];
      && Fits(t) && m.tail + 4 <= m.used && m.tail + Length(t) <= m.used + 4 && Length(t) <= 30
      && (!m.Merges(o) ==> (m.Spoiled(o) <==> Overwrites(t, m.tail, m.used, o.items)))
      && (!m.Merges(o) ==> (m.WritesOver(o) <==> m.Overhang() > 0) && !m.Grows(o))
    ensures m.Merges(o) ==> var y := m.Joint(o);
      && y == Bigged(Merged(m.items[|m.nodes| - 1], o.items[0])) && m.tail + Length(y) <= m.UsedWith(y) + 4
      && m.UsedWith(y) <= m.used + 30
      && (!m.InTail(y) ==> !m.Spoiled(o) && !m.WritesOver(o) && !m.Grows(o))
      && (|o.nodes| == 1 ==> !m.Spoiled(o) && !m.WritesOver(o))
      && (m.InTail(y) ==> m.data.count == 1 && (m.Grows(o) <==> Length(y) > Length(m.items[|m.nodes| - 1])))
    ensures m.Merges(o) && |o.nodes| > 1 && m.InTail(m.Joint(o)) ==> var y := m.Joint(o);
      && (m.Spoiled(o) <==> Overwrites(y, m.tail, m.UsedWith(y), o.items[1..]))
      && (m.WritesOver(o) <==> m.tail + Length(y) > m.UsedWith(y))
  {
    hide Laid, Within, Spelled, Overwrites, Length, Bigged;
    LastRoom(m);
    ValidLength(m);
    ValidLength(o);
    if m.nodes != [] {
      LastBody(m);
      LengthBound(m.items[|m.nodes| - 1]);
    }
  }

  lemma LengthBound(x: Item)
    ensures 8 <= Length(x) <= 30
  {
  }

  lemma NotOver(y: Item, tail: nat, used: nat, more: seq<Item>)
    requires Fits(y) && tail < NIL && tail + Length(y) <= used + 4 && used + 30 < NIL
    ensures tail + Length(y) <= used ==> !Overwrites(y, tail, used, more)
  {
  }

  lemma DropStartNone(items: seq<Item>)
    requires AllFit(items)
    ensures DropStart(items, 0) == items
  {
  }

  lemma DropEndNone(items: seq<Item>)
    requires AllFit(items)
    ensures DropEnd(items, 0) == items
  {
  }

  lemma OneMoreLabelled(items: seq<Item>, k: nat)
    requires AllFit(items) && k < |items|
    ensures AllFit(items[..k]) && AllFit(items[..k + 1]) && 0 <= Size(items[k])
    ensures |Labels(items[..k + 1])| == |Labels(items[..k])| + items[k].fragEnd - items[k].fragStart
  {
    hide Labels, ItemLabels;
    FitSlices(items, k);
    FitSlices(items, k + 1);
    LastLabels(items[..k + 1]);
    assert items[..k + 1][..k] == items[..k];
    var a := ItemLabels(items[k]);
  }

  lemma NoReach(m: PacketMetadata)
    ensures m.nodes == [] ==> m.Overhang() == 0
  {
  }

  lemma RoomIs(m: PacketMetadata)
    requires m.Whole()
    ensures m.nodes != [] ==> var l := Length(m.items[|m.nodes| - 1]);
      && (m.tail + l == m.used == m.data.dirtyEnd ==>
            |m.data.bytes| >= m.tail && m.TailRoom() == |m.data.bytes| - m.tail)
      && (!(m.tail + l == m.used == m.data.dirtyEnd) ==> m.TailRoom() == l)
      && forall y :: m.InTail(y) <==> m.data.count == 1 && m.TailRoom() >= Length(y)
    ensures forall y :: m.UsedWith(y) == if m.used < m.tail + Length(y) - 4 then m.tail + Length(y) - 4 else m.used
  {
    hide Laid, Spelled, Length;
    LastRoom(m);
    if m.nodes != [] {
      LastBody(m);
    }
  }

  lemma WholeSafe(m: PacketMetadata)
    requires m.Whole()
    ensures m.SafeIn(m.data.bytes)
  {
  }

  lemma SameWhole(m: PacketMetadata, o: PacketMetadata)
    requires o.Whole() && m.Same(o)
    ensures m.Whole() && (o.Valid() ==> m.Valid())
  {
    hide Laid, Within, Spelled;
  }

  lemma CopyKept(before: seq<Byte>, after: seq<Byte>, used: nat)
    requires used <= |before| && used <= |after| && after[..used] == before[..used]
    ensures KeptBut(before, after, used, used)
  {
    forall i | 0 <= i < used
      ensures after[i] == before[i]
    {
      assert after[i] == after[..used][i];
    }
  }

  lemma NoneLaid(data: seq<Byte>, nodes: seq<Node>)
    requires nodes == []
    ensures Laid(data, nodes)
  {
  }

  /** Where a node ends. */
  lemma EndIs(m: PacketMetadata, k: nat)
    requires m.Spelt() && k < |m.nodes|
    ensures |m.items| == |m.nodes| && End(m.nodes[k]) == m.nodes[k].off + Length(m.items[k])
  {
    assert Spells(m.nodes[k], m.items[k], m.packetUid);
  }

  lemma WithinUp(nodes: seq<Node>, used: nat, used2: nat)
    requires Within(nodes, used) && used <= used2
    ensures Within(nodes, used2)
  {
  }

  lemma GrownNot(a: seq<Node>, off: nat, items: seq<Item>, k: nat, uid: nat)
    requires k <= |items|
    ensures GrownBy(a, a, off, AllBigged(items[k..k]), uid)
  {
  }

  lemma GrownMore(a: seq<Node>, b: seq<Node>, c: seq<Node>, off: nat, at: nat, items: seq<Item>, k0: nat, k: nat,
      uid: nat)
    requires k0 <= k < |items| && GrownBy(a, b, off, AllBigged(items[k0..k]), uid)
    requires Storable(Bigged(items[k]), uid) && Fits(Bigged(items[k])) && c == b + [Node(at, Body(Bigged(items[k])))]
    requires (k == k0 ==> at == off) && at >= off
    requires k == k0 + 1 ==> at == off + Length(Bigged(items[k0]))
    ensures GrownBy(a, c, off, AllBigged(items[k0..k + 1]), uid)
  {
    hide Storable, Body, Bigged, Length;
    var more, x := AllBigged(items[k0..k]), Bigged(items[k]);
    BiggedNext(items, k0, k);
    assert c[|a|..][..|more|] == b[|a|..];
    SpelledBack(b[|a|..], c[|a|..], more, x, uid);
  }

  lemma NearlyGrown(a: seq<Node>, b: seq<Node>, items: seq<Item>, off: nat, more: seq<Item>, uid: nat, t: nat, d: nat)
    requires NearlySpelled(a, items, uid, t, d) && GrownBy(a, b, off, more, uid)
    ensures NearlySpelled(b, items + more, uid, t, d)
  {
    hide Body, Storable;
    forall k | 0 <= k < |b| && k != t
      ensures Spells(b[k], (items + more)[k], uid)
    {
      if k < |a| {
        assert Spells(a[k], items[k], uid) && b[..|a|][k] == b[k];
      } else {
        assert Spells(b[|a|..][k - |a|], more[k - |a|], uid);
      }
    }
    assert b[..|a|][t] == b[t];
  }

  lemma GrownNone(nodes: seq<Node>, used: nat)
    ensures GrownPast(nodes, nodes, used)
  {
  }

  lemma GrownFurther(a: seq<Node>, b: seq<Node>, off: nat, more: seq<Item>, uid: nat)
    requires GrownBy(a, b, off, more, uid)
    ensures GrownPast(a, b, off)
  {
  }

  /** The links of the first node that has been appended. */
  lemma GrownLinks(m: PacketMetadata, a: seq<Node>, off: nat, more: seq<Item>, uid: nat)
    requires m.Tidy() && GrownBy(a, m.nodes, off, more, uid) && a != [] && more != []
    requires LinkAt(m.data.bytes, m.tail, NIL)
    ensures m.nodes[..|a|] == a
    ensures LinkAt(m.data.bytes, off, if |more| == 1 then NIL else off + Length(more[0]))
    ensures LinkAt(m.data.bytes, off + 2, a[|a| - 1].off)
  {
    hide NodeAt, Apart, Spelled, LinkAt;
    assert Linked(m.data.bytes, m.nodes[|a| - 1], m.nodes[|a|]) && m.nodes[..|a|][|a| - 1] == m.nodes[|a| - 1];
    if |more| > 1 {
      assert Linked(m.data.bytes, m.nodes[|a|], m.nodes[|a| + 1]);
    }
  }
}
