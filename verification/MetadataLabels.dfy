/** The labels that metadata items give to the bytes of a packet, and what operations do to lists of items. */
module MetadataLabels {
  import opened ByteStrings
  import opened MetadataCodec

  // ----- Labels -----

  /** Which byte of which header, of which packet, a byte of a packet is. */
  datatype Label = Label(packetUid: nat, headerType: nat, chunkUid: nat, size: nat, offset: nat)

  /** Four bytes read as a signed number and widened to 64 bits. */
  function Widened(v: nat): nat {
    if v < 0x8000_0000 then v else v + 0xffff_ffff_0000_0000
  }

  function ItemLabels(x: Item): (r: seq<Label>)
    requires x.fragStart <= x.fragEnd
    ensures |r| == x.fragEnd - x.fragStart
  {
    seq(x.fragEnd - x.fragStart, i requires 0 <= i =>
      Label(Widened(x.packetUid), x.typeUid / 2, x.chunkUid, x.size, x.fragStart + i))
  }

  predicate AllFit(items: seq<Item>) {
    forall k :: 0 <= k < |items| ==> items[k].fragStart <= items[k].fragEnd
  }

  function Labels(items: seq<Item>): seq<Label>
    requires AllFit(items)
  {
    if items == [] then [] else ItemLabels(items[0]) + Labels(items[1..])
  }

  lemma {:induction false} LabelsConcat(a: seq<Item>, b: seq<Item>)
    requires AllFit(a) && AllFit(b)
    ensures AllFit(a + b) && Labels(a + b) == Labels(a) + Labels(b)
  {
    if a == [] {
      assert a + b == b;
    } else {
      assert (a + b)[1..] == a[1..] + b;
      LabelsConcat(a[1..], b);
    }
  }

  lemma OneLabelled(x: Item)
    requires x.fragStart <= x.fragEnd
    ensures Labels([x]) == ItemLabels(x)
  {
    assert [x][1..] == [];
  }

  /** The form in which items are written again: with their piece and their packet. */
  function Bigged(x: Item): Item {
    if IsBig(x) then x else x.(typeUid := x.typeUid + 1)
  }

  function AllBigged(items: seq<Item>): (r: seq<Item>)
    ensures |r| == |items|
    ensures forall k :: 0 <= k < |items| ==> r[k] == Bigged(items[k])
  {
    seq(|items|, k requires 0 <= k < |items| => Bigged(items[k]))
  }

  lemma {:induction false} BiggedLabels(items: seq<Item>)
    requires AllFit(items)
    ensures AllFit(AllBigged(items)) && Labels(AllBigged(items)) == Labels(items)
  {
    if items != [] {
      assert AllBigged(items)[1..] == AllBigged(items[1..]);
      BiggedLabels(items[1..]);
      assert ItemLabels(Bigged(items[0])) == ItemLabels(items[0]);
    }
  }

  lemma Joined(a: seq<Item>, b: seq<Item>)
    requires AllFit(a) && AllFit(b)
    ensures AllFit(a + b) && Labels(a + b) == Labels(a) + Labels(b)
    ensures |a| == 1 ==> Labels(a) == ItemLabels(a[0])
    ensures |b| == 1 ==> Labels(b) == ItemLabels(b[0])
  {
    LabelsConcat(a, b);
    if |a| == 1 {
      assert a == [a[0]];
      OneLabelled(a[0]);
    }
    if |b| == 1 {
      assert b == [b[0]];
      OneLabelled(b[0]);
    }
  }

  lemma FirstWhole(a: seq<Label>, b: seq<Label>, n: nat)
    requires |a| <= n <= |a + b|
    ensures b[n - |a|..] == (a + b)[n..]
  {
  }

  lemma FirstPart(a: seq<Label>, b: seq<Label>, n: nat)
    requires n <= |a|
    ensures a[n..] + b == (a + b)[n..]
  {
  }

  lemma CutLabelsStart(x: Item, n: nat)
    requires x.fragStart + n <= x.fragEnd
    ensures ItemLabels(Bigged(x).(fragStart := x.fragStart + n)) == ItemLabels(x)[n..]
  {
  }

  lemma CutLabelsEnd(x: Item, n: nat)
    requires x.fragStart + n <= x.fragEnd
    ensures ItemLabels(Bigged(x).(fragEnd := x.fragEnd - n)) == ItemLabels(x)[..x.fragEnd - x.fragStart - n]
  {
  }

  lemma LastWhole(a: seq<Label>, b: seq<Label>, n: nat)
    requires |b| <= n <= |a + b|
    ensures a[..|a| - (n - |b|)] == (a + b)[..|a + b| - n]
  {
  }

  lemma LastPart(a: seq<Label>, b: seq<Label>, n: nat)
    requires n <= |b|
    ensures a + b[..|b| - n] == (a + b)[..|a + b| - n]
  {
  }

  function Size(x: Item): int {
    x.fragEnd - x.fragStart
  }

  lemma OneFits(x: Item)
    requires x.fragStart <= x.fragEnd
    ensures AllFit([x])
  {
  }

  lemma FitSlices(items: seq<Item>, k: nat)
    requires AllFit(items) && k <= |items|
    ensures AllFit(items[..k]) && AllFit(items[k..])
  {
  }

  // ----- Taking bytes away -----

  /** Less n bytes at the start: items that go as a whole are left out, and the one that is cut makes all items
      big. */
  function DropStart(items: seq<Item>, n: nat): seq<Item>
    requires AllFit(items) && n <= |Labels(items)|
  {
    if n == 0 || items == [] then items else
      var size := Size(items[0]);
      FirstLabels(items);
      if size <= n then DropStart(items[1..], n - size)
      else [Bigged(items[0]).(fragStart := items[0].fragStart + n)] + AllBigged(items[1..])
  }

  lemma FirstLabels(items: seq<Item>)
    requires AllFit(items) && items != []
    ensures AllFit(items[1..]) && Labels(items) == ItemLabels(items[0]) + Labels(items[1..])
  {
  }

  /** Less n bytes at the end, likewise. */
  function DropEnd(items: seq<Item>, n: nat): seq<Item>
    requires AllFit(items) && n <= |Labels(items)|
  {
    if n == 0 || items == [] then items else
      var t := |items| - 1;
      var size := Size(items[t]);
      LastLabels(items);
      if size <= n then DropEnd(items[..t], n - size)
      else AllBigged(items[..t]) + [Bigged(items[t]).(fragEnd := items[t].fragEnd - n)]
  }

  lemma LastLabels(items: seq<Item>)
    requires AllFit(items) && items != []
    ensures AllFit(items[..|items| - 1])
    ensures Labels(items) == Labels(items[..|items| - 1]) + ItemLabels(items[|items| - 1])
  {
    var t := |items| - 1;
    FitSlices(items, t);
    OneFits(items[t]);
    assert items == items[..t] + [items[t]];
    Joined(items[..t], [items[t]]);
  }

  /** An item is cut, rather than all items kept or left out as a whole. */
  predicate CutsEnd(items: seq<Item>, n: nat)
    requires AllFit(items) && n <= |Labels(items)|
  {
    n > 0 && items != [] &&
    var t := |items| - 1;
    LastLabels(items);
    Size(items[t]) > n || CutsEnd(items[..t], n - Size(items[t]))
  }

  predicate CutsStart(items: seq<Item>, n: nat)
    requires AllFit(items) && n <= |Labels(items)|
  {
    n > 0 && items != [] &&
    (FirstLabels(items);
     Size(items[0]) > n || CutsStart(items[1..], n - Size(items[0])))
  }

  lemma {:induction false} DropStartLabels(items: seq<Item>, n: nat)
    requires AllFit(items) && n <= |Labels(items)|
    ensures AllFit(DropStart(items, n)) && Labels(DropStart(items, n)) == Labels(items)[n..]
    ensures |DropStart(items, n)| <= |items|
  {
    hide Labels, ItemLabels, AllBigged;
    NoLabels();
    if n > 0 && items != [] {
      var x := items[0];
      FirstLabels(items);
      if Size(x) <= n {
        DropStartLabels(items[1..], n - Size(x));
        FirstWhole(ItemLabels(x), Labels(items[1..]), n);
      } else {
        var y := Bigged(x).(fragStart := x.fragStart + n);
        BiggedLabels(items[1..]);
        OneFits(y);
        Joined([y], AllBigged(items[1..]));
        CutLabelsStart(x, n);
        FirstPart(ItemLabels(x), Labels(items[1..]), n);
      }
    }
  }

  lemma NoLabels()
    ensures Labels([]) == []
  {
  }

  lemma {:induction false} DropEndLabels(items: seq<Item>, n: nat)
    requires AllFit(items) && n <= |Labels(items)|
    ensures AllFit(DropEnd(items, n)) && Labels(DropEnd(items, n)) == Labels(items)[..|Labels(items)| - n]
    ensures |DropEnd(items, n)| <= |items|
  {
    hide Labels, ItemLabels, AllBigged;
    NoLabels();
    if n > 0 && items != [] {
      var t := |items| - 1;
      var x := items[t];
      LastLabels(items);
      if Size(x) <= n {
        DropEndLabels(items[..t], n - Size(x));
        LastWhole(Labels(items[..t]), ItemLabels(x), n);
      } else {
        var y := Bigged(x).(fragEnd := x.fragEnd - n);
        BiggedLabels(items[..t]);
        OneFits(y);
        Joined(AllBigged(items[..t]), [y]);
        CutLabelsEnd(x, n);
        LastPart(Labels(items[..t]), ItemLabels(x), n);
      }
    }
  }

  /** An item is cut when bytes are taken away at both ends. */
  predicate CutsPiece(items: seq<Item>, start: nat, end: nat)
    requires AllFit(items) && start + end <= |Labels(items)|
  {
    DropStartLabels(items, start);
    CutsStart(items, start) || CutsEnd(DropStart(items, start), end)
  }

  // ----- Merging -----

  /** Two items are pieces of the same header, and the second begins where the first ends. */
  predicate Continues(t: Item, x: Item) {
    && x.packetUid == t.packetUid && x.typeUid == t.typeUid && x.chunkUid == t.chunkUid && x.size == t.size
    && x.fragStart == t.fragEnd
  }

  function Merged(t: Item, x: Item): Item {
    t.(fragEnd := x.fragEnd)
  }

  lemma MergedItem(t: Item, x: Item)
    requires Continues(t, x) && t.fragStart <= t.fragEnd && x.fragStart <= x.fragEnd
    ensures Bigged(Merged(t, x)).fragStart <= Bigged(Merged(t, x)).fragEnd
    ensures ItemLabels(Bigged(Merged(t, x))) == ItemLabels(t) + ItemLabels(x)
  {
  }

  /** The labels after the last item has been merged with the first of the others, whether or not the items
      before it have been made big. */
  lemma MergedLabels(items: seq<Item>, more: seq<Item>, t: Item, x: Item)
    requires items != [] && more != [] && AllFit(items) && AllFit(more)
    requires t == items[|items| - 1] && x == more[0] && Continues(t, x)
    ensures var y, n, rest := Bigged(Merged(t, x)), |items| - 1, AllBigged(more[1..]);
      && AllFit(AllBigged(items[..n]) + [y] + rest) && AllFit(items[n := y] + rest)
      && Labels(AllBigged(items[..n]) + [y] + rest) == Labels(items) + Labels(more)
      && Labels(items[n := y] + rest) == Labels(items) + Labels(more)
  {
    hide Labels, ItemLabels, AllBigged, Bigged, Merged;
    var y, n := Bigged(Merged(t, x)), |items| - 1;
    var front := items[..n];
    assert items == front + [t] && more == [x] + more[1..] && items[n := y] == front + [y];
    FitSlices(items, n);
    FitSlices(more, 1);
    BiggedLabels(front);
    BiggedLabels(more[1..]);
    MergedItem(t, x);
    MergedList(front, front, t, x, y, more[1..], AllBigged(more[1..]));
    MergedList(front, AllBigged(front), t, x, y, more[1..], AllBigged(more[1..]));
  }

  lemma MergedList(front: seq<Item>, front2: seq<Item>, t: Item, x: Item, y: Item, rest: seq<Item>, rest2: seq<Item>)
    requires AllFit(front) && AllFit(front2) && Labels(front2) == Labels(front)
    requires AllFit(rest) && AllFit(rest2) && Labels(rest2) == Labels(rest)
    requires t.fragStart <= t.fragEnd && x.fragStart <= x.fragEnd && y.fragStart <= y.fragEnd
    requires ItemLabels(y) == ItemLabels(t) + ItemLabels(x)
    ensures AllFit(front2 + [y] + rest2) && AllFit(front + [t]) && AllFit([x] + rest)
    ensures Labels(front2 + [y] + rest2) == Labels(front + [t]) + Labels([x] + rest)
  {
    hide Labels, ItemLabels, AllFit;
    OneFits(t);
    OneFits(x);
    OneFits(y);
    Joined(front, [t]);
    Joined([x], rest);
    Joined(front2, [y]);
    Joined(front2 + [y], rest2);
  }

  // ----- Writing over the end of an item -----

  /** What is read of an item whose last d bytes are those given. */
  function Lapped(y: Item, d: nat, bytes: seq<Byte>): Item
    requires Fits(y) && d <= 4 && |bytes| == 4
  {
    if d == 0 then y else y.(packetUid := From32(Le32(y.packetUid)[..4 - d] + bytes[..d]))
  }

  /** The first bytes of an item: its links. */
  function Links(next: nat, prev: nat): (s: seq<Byte>)
    requires next < 0x1_0000 && prev < 0x1_0000
    ensures |s| == 4
  {
    Le16(next) + Le16(prev)
  }

  lemma Rebuilt32(b: seq<Byte>)
    requires |b| == 4
    ensures From32(b) < 0x1_0000_0000 && Le32(From32(b)) == b
  {
    var b0: int, b1: int, b2: int, b3: int := b[0], b[1], b[2], b[3];
    Digits256(b0, b1 + 0x100 * b2 + 0x1_0000 * b3);
    Digits256(b1, b2 + 0x100 * b3);
    Digits256(b2, b3);
    Quotients(From32(b));
    assert Le32(From32(b)) == [b[0], b[1], b[2], b[3]];
  }

  lemma Digits256(d: int, v: int)
    requires 0 <= d < 256 && v >= 0
    ensures (d + 0x100 * v) / 0x100 == v && (d + 0x100 * v) % 256 == d
  {
  }

  lemma Quotients(v: nat)
    ensures v / 0x1_0000 == v / 0x100 / 0x100 && v / 0x100_0000 == v / 0x100 / 0x100 / 0x100
  {
  }

  /** A big item up to its packet. */
  function Front(y: Item): seq<Byte>
    requires Fits(y)
  {
    Uleb128(y.typeUid) + (Uleb128(y.size) + (Le16(y.chunkUid) + (Uleb128(y.fragStart) + Uleb128(y.fragEnd))))
  }

  /** The last bytes of a big item are its packet. */
  lemma BigBody(y: Item)
    requires Fits(y) && IsBig(y)
    ensures Body(y) == Front(y) + Le32(y.packetUid) && |Front(y)| >= 6
  {
    hide Uleb128, Le16, Le32, Uleb128Size;
  }

  lemma LappedBody(y: Item, d: nat, bytes: seq<Byte>, uid: nat)
    requires Storable(y, uid) && IsBig(y) && d <= 4 && |bytes| == 4
    ensures |Body(y)| >= 10 && Storable(Lapped(y, d, bytes), uid)
    ensures Body(Lapped(y, d, bytes)) == Body(y)[..|Body(y)| - d] + bytes[..d]
  {
    hide Body, Le32, From32, Uleb128, Le16, Length;
    var z := Lapped(y, d, bytes);
    BigBody(y);
    if d > 0 {
      var b := Le32(y.packetUid)[..4 - d] + bytes[..d];
      Rebuilt32(b);
      BigBody(z);
      assert Front(z) == Front(y);
    } else {
      assert bytes[..0] == [];
    }
  }

  /** The item reads the same exactly when the bytes written are those that were there. */
  lemma LappedSame(y: Item, d: nat, bytes: seq<Byte>)
    requires Fits(y) && d <= 4 && |bytes| == 4
    ensures Lapped(y, d, bytes) == y <==> bytes[..d] == Le32(y.packetUid)[4 - d..]
    ensures Lapped(y, d, bytes).packetUid < 0x1_0000_0000
    ensures Lapped(y, d, bytes) == y.(packetUid := Lapped(y, d, bytes).packetUid)
  {
    hide Le32, From32;
    var u := Le32(y.packetUid);
    var b := u[..4 - d] + bytes[..d];
    Rebuilt32(b);
    Rebuilt32Back(y.packetUid);
    assert u == u[..4 - d] + u[4 - d..];
    assert b[4 - d..] == bytes[..d];
  }

  lemma Rebuilt32Back(v: nat)
    requires v < 0x1_0000_0000
    ensures From32(Le32(v)) == v
  {
    LittleEndian32(v);
  }

  lemma WidenedDiffers(p: nat, q: nat)
    requires p < 0x1_0000_0000 && q < 0x1_0000_0000 && p != q
    ensures Widened(p) != Widened(q)
  {
  }

  /** Whether the labels of an item change with its packet. */
  lemma PacketShows(y: Item, p: nat)
    requires Fits(y) && p < 0x1_0000_0000
    ensures ItemLabels(y.(packetUid := p)) == ItemLabels(y) <==> p == y.packetUid || Size(y) == 0
  {
    var z := y.(packetUid := p);
    if p != y.packetUid && Size(y) > 0 {
      WidenedDiffers(p, y.packetUid);
      assert ItemLabels(z)[0] != ItemLabels(y)[0];
    }
  }

  /** The list whose last item has been written over. */
  function LapLast(items: seq<Item>, d: nat, bytes: seq<Byte>): seq<Item>
    requires items != [] && Fits(items[|items| - 1]) && d <= 4 && |bytes| == 4
  {
    items[|items| - 1 := Lapped(items[|items| - 1], d, bytes)]
  }

  /** Writing the given bytes over the last d bytes of the item changes the labels of its bytes. */
  predicate Spoils(y: Item, d: nat, bytes: seq<Byte>)
    requires Fits(y) && d <= 4 && |bytes| == 4
  {
    Size(y) > 0 && bytes[..d] != Le32(y.packetUid)[4 - d..]
  }

  lemma LapLabels(front: seq<Item>, items: seq<Item>, d: nat, bytes: seq<Byte>, rest: seq<Item>)
    requires AllFit(front) && AllFit(items) && AllFit(rest)
    requires items != [] && Fits(items[|items| - 1]) && d <= 4 && |bytes| == 4
    ensures AllFit(front + items + rest) && AllFit(front + LapLast(items, d, bytes) + rest)
    ensures Labels(front + LapLast(items, d, bytes) + rest) == Labels(front + items + rest)
       <==> !Spoils(items[|items| - 1], d, bytes)
  {
    hide Labels, ItemLabels, Lapped, Spoils, Fits;
    var t := |items| - 1;
    var y, z := items[t], Lapped(items[t], d, bytes);
    LapItem(y, d, bytes);
    FitSlices(items, t);
    OneFits(y);
    OneFits(z);
    assert items == items[..t] + [y] && LapLast(items, d, bytes) == items[..t] + [z];
    Joined(front, items[..t]);
    Joined(front + items[..t], [y]);
    Joined(front + items[..t], [z]);
    assert front + items == front + items[..t] + [y];
    assert front + LapLast(items, d, bytes) == front + items[..t] + [z];
    Joined(front + items, rest);
    Joined(front + LapLast(items, d, bytes), rest);
    Between(Labels(front + items[..t]), ItemLabels(y), ItemLabels(z), Labels(rest));
  }

  lemma LapItem(y: Item, d: nat, bytes: seq<Byte>)
    requires Fits(y) && d <= 4 && |bytes| == 4
    ensures var z := Lapped(y, d, bytes);
      && z.fragStart == y.fragStart && z.fragEnd == y.fragEnd && y.fragStart <= y.fragEnd
      && (ItemLabels(z) == ItemLabels(y) <==> !Spoils(y, d, bytes))
  {
    hide ItemLabels, Lapped;
    LappedSame(y, d, bytes);
    PacketShows(y, Lapped(y, d, bytes).packetUid);
  }

  lemma Between(a: seq<Label>, b: seq<Label>, c: seq<Label>, e: seq<Label>)
    requires |b| == |c|
    ensures a + c + e == a + b + e <==> c == b
  {
    assert (a + b + e)[|a|..|a| + |b|] == b && (a + c + e)[|a|..|a| + |c|] == c;
  }

  /** The last item y is at offset tail and reaches beyond the used part; appending further items writes over its
      end and changes its labels. */
  predicate Overwrites(y: Item, tail: nat, used: nat, more: seq<Item>)
    requires Fits(y) && tail < 0x1_0000 && tail + Length(y) <= used + 4 && used + 30 < 0x1_0000
  {
    more != [] && tail + Length(y) > used &&
    Spoils(y, tail + Length(y) - used, Links(if |more| == 1 then NIL else used + Length(Bigged(more[0])), tail))
  }
}
