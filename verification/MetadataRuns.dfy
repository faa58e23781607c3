/** Whole runs of operations on the metadata of any number of packets, which may share arrays. */
module MetadataRuns {
  import opened ByteStrings
  import opened MetadataCodec
  import opened MetadataLabels
  import opened MetadataMemory
  import opened Metadata
  import opened Sharing

  datatype Op =
    | AddHeader(m: nat, headerType: nat, size: nat, chunkUid: nat)
    | AddTrailer(m: nat, headerType: nat, size: nat, chunkUid: nat)
    | RemoveAtStart(m: nat, n: nat)
    | RemoveAtEnd(m: nat, n: nat)
    | Fragment(m: nat, o: nat, start: nat, end: nat)
    | AddAtEnd(m: nat, o: nat)

  /** A packet to its user: its uid and the labels of its bytes. */
  datatype View = View(uid: nat, labels: seq<Label>)

  /** The packet that the operation reads from. */
  function Source(op: Op): nat {
    match op
    case Fragment(m, o, start, end) => o
    case AddAtEnd(m, o) => o
    case _ => op.m
  }

  /** The operation names packets that there are, two different ones to append, and numbers that fit their fields. */
  predicate Names(op: Op, n: nat) {
    && op.m < n && Source(op) < n && (op.AddAtEnd? ==> op.o != op.m)
    && (op.AddHeader? || op.AddTrailer? ==>
          op.headerType < 0x8000_0000 && op.size < 0x1_0000_0000 && op.chunkUid < 0x1_0000)
  }

  /** The bytes to be removed are there. */
  predicate Legal(t: View, o: View, op: Op) {
    match op
    case RemoveAtStart(m, k) => k <= |t.labels|
    case RemoveAtEnd(m, k) => k <= |t.labels|
    case Fragment(m, _, start, end) => start + end <= |o.labels|
    case _ => true
  }

  /** What the operation makes of the labels of packet t, reading from o. */
  function NewBytes(t: View, o: View, op: Op): seq<Label>
    requires Legal(t, o, op)
  {
    match op
    case AddHeader(m, ty, size, c) => NewLabels(t.uid, ty, size, c) + t.labels
    case AddTrailer(m, ty, size, c) => t.labels + NewLabels(t.uid, ty, size, c)
    case RemoveAtStart(m, k) => t.labels[k..]
    case RemoveAtEnd(m, k) => t.labels[..|t.labels| - k]
    case Fragment(m, _, start, end) => o.labels[start..|o.labels| - end]
    case AddAtEnd(m, _) => t.labels + o.labels
  }

  /** The uid that the packet may have afterwards: one without items takes that of what is appended. */
  predicate NewUid(t: View, o: View, op: Op, uid: nat) {
    match op
    case Fragment(m, _, start, end) => uid == o.uid
    case AddAtEnd(m, _) => uid == t.uid || (t.labels == [] && uid == o.uid)
    case _ => uid == t.uid
  }

  /** The operation takes v to w: one packet changes, as a string of labels of its own. */
  ghost predicate Step(v: seq<View>, op: Op, w: seq<View>) {
    && Names(op, |v|) && |w| == |v| && (forall k :: 0 <= k < |v| && k != op.m ==> w[k] == v[k])
    && var t, o := v[op.m], v[Source(op)];
      Legal(t, o, op) && w[op.m].labels == NewBytes(t, o, op) && NewUid(t, o, op, w[op.m].uid)
  }

  // ----- Packets that share arrays -----

  ghost function Arrays(ms: seq<PacketMetadata>): set<Data>
    reads ms
  {
    set k | 0 <= k < |ms| :: ms[k].data
  }

  /** A packet and its array at one time. */
  datatype Shot = Shot(data: Data, bytes: seq<Byte>, count: nat, dirtyEnd: nat, used: nat, nodes: seq<Node>)

  ghost function ShotOf(m: PacketMetadata): Shot
    reads m, m.data
  {
    Shot(m.data, m.data.bytes, m.data.count, m.data.dirtyEnd, m.used, m.nodes)
  }

  ghost function Shots(ms: seq<PacketMetadata>): (r: seq<Shot>)
    reads ms, Arrays(ms)
    ensures |r| == |ms| && forall k :: 0 <= k < |ms| ==> r[k] == ShotOf(ms[k])
  {
    seq(|ms|, k requires 0 <= k < |ms| reads ms, Arrays(ms) => ShotOf(ms[k]))
  }

  /** A node of one list is a node of the other, too, or apart from all of them. */
  ghost predicate Beside(a: seq<Node>, b: seq<Node>) {
    forall i, j :: 0 <= i < |a| && 0 <= j < |b| ==> a[i] == b[j] || Apart(a[i], b[j])
  }

  /** Nothing of the list lies beyond the place where the array was written last. */
  ghost predicate Behind(nodes: seq<Node>, used: nat, dirtyEnd: nat) {
    forall k :: 0 <= k < |nodes| ==> End(nodes[k]) <= dirtyEnd || (k == |nodes| - 1 && used <= dirtyEnd)
  }

  ghost function DataOf(s: seq<Shot>): map<int, Data> {
    map k | 0 <= k < |s| :: s[k].data
  }

  /** Each array counts the packets that use it. */
  ghost predicate Counted(s: seq<Shot>) {
    forall k :: 0 <= k < |s| ==> s[k].count == |Users(DataOf(s), s[k].data)|
  }

  ghost predicate Ordered(s: seq<Shot>) {
    && (forall k :: 0 <= k < |s| ==> Behind(s[k].nodes, s[k].used, s[k].dirtyEnd))
    && (forall i, j :: 0 <= i < |s| && 0 <= j < |s| && s[i].data == s[j].data ==> Beside(s[i].nodes, s[j].nodes))
  }

  ghost predicate Distinct(ms: seq<PacketMetadata>) {
    forall i, j :: 0 <= i < j < |ms| ==> ms[i] != ms[j]
  }

  ghost predicate EachWhole(ms: seq<PacketMetadata>)
    reads ms, Arrays(ms)
  {
    forall k :: 0 <= k < |ms| ==> ms[k].Whole()
  }

  ghost predicate AllWhole(ms: seq<PacketMetadata>)
    reads ms, Arrays(ms)
  {
    Distinct(ms) && EachWhole(ms) && Counted(Shots(ms)) && Ordered(Shots(ms))
  }

  ghost function ViewOf(m: PacketMetadata): View
    reads m, m.data`bytes
    requires m.Whole()
  {
    View(m.packetUid, m.Bytes())
  }

  ghost predicate IsView(ms: seq<PacketMetadata>, v: seq<View>)
    reads ms, Arrays(ms)
    requires EachWhole(ms)
  {
    |v| == |ms| && forall k :: 0 <= k < |ms| ==> v[k] == ViewOf(ms[k])
  }

  ghost function Views(ms: seq<PacketMetadata>): (v: seq<View>)
    reads ms, Arrays(ms)
    requires EachWhole(ms)
    ensures IsView(ms, v)
  {
    seq(|ms|, k requires 0 <= k < |ms| && ms[k].Whole() reads ms, Arrays(ms) => ViewOf(ms[k]))
  }

  /** Offsets might not fit 16 bits, or an item would be written over the end of another, which a merge in place
      has left beyond the used part. */
  ghost predicate Stops(t: PacketMetadata, o: PacketMetadata, op: Op)
    reads t, t.data, o, o.data`bytes
    requires t.Whole() && o.Whole()
  {
    match op
    case AddHeader(m, ty, size, c) => t.Overhang() > 0 || t.used + 30 >= NIL
    case AddTrailer(m, ty, size, c) => t.Overhang() > 0 || t.used + 30 >= NIL
    case RemoveAtStart(m, k) => 30 * |t.nodes| >= NIL
    case RemoveAtEnd(m, k) => 30 * |t.nodes| >= NIL
    case Fragment(m, _, start, end) => 30 * |o.nodes| >= NIL
    case AddAtEnd(m, _) => t.WritesOver(o) || t.used + 30 * (|t.nodes| + |o.nodes| + 3) >= NIL
  }

  /** The operation writes in an array that others may use. */
  ghost predicate WritesHere(t: PacketMetadata, o: PacketMetadata, op: Op)
    reads t, t.data, o
    requires t.Spelt() && o.Spelt()
  {
    match op
    case AddHeader(m, ty, size, c) => t.InPlace(Length(NewItem(t.packetUid, ty, size, c)))
    case AddTrailer(m, ty, size, c) => t.InPlace(Length(NewItem(t.packetUid, ty, size, c)))
    case AddAtEnd(m, _) => t.AppendsHere(o)
    case _ => false
  }

  /** The link of the packet's last or first item that the operation then sets. */
  function LinkSet(t: PacketMetadata, op: Op): nat
    reads t
  {
    if op.AddHeader? then t.head + 2 else t.tail
  }

  /** Such a write hits the list of packet q: it reaches beyond the used part of t, or the link that is set is one
      between two of its items. */
  ghost predicate Hits(t: PacketMetadata, op: Op, q: PacketMetadata)
    reads t, q
  {
    !(Within(q.nodes, t.used) && Clear(q.nodes, LinkSet(t, op)))
  }

  /** The operation would change another packet. */
  ghost predicate Disturbs(ms: seq<PacketMetadata>, op: Op)
    reads ms, Arrays(ms)
    requires EachWhole(ms) && Names(op, |ms|)
  {
    && (SpeltOf(ms[op.m]); SpeltOf(ms[Source(op)]); WritesHere(ms[op.m], ms[Source(op)], op))
    && exists k :: 0 <= k < |ms| && k != op.m && ms[k].data == ms[op.m].data && Hits(ms[op.m], op, ms[k])
  }

  lemma SpeltOf(m: PacketMetadata)
    requires m.Whole()
    ensures m.Spelt()
  {
  }

  /** The operation asks for bytes that are not there, stops, or would change another packet. */
  ghost predicate Blocked(ms: seq<PacketMetadata>, op: Op)
    reads ms, Arrays(ms)
    requires EachWhole(ms)
  {
    Names(op, |ms|) &&
    var t, o := ms[op.m], ms[Source(op)];
    !Legal(ViewOf(t), ViewOf(o), op) || Stops(t, o, op) || Disturbs(ms, op)
  }

  // ----- What one operation does to the arrays -----

  /** The counts follow packet t, which used the array of a, to its array now, which is its own or that of b. */
  ghost predicate CountsMove(t: PacketMetadata, a: Shot, b: Shot)
    reads t, t.data, a.data, b.data
  {
    && (t.data == a.data ==> a.data.count == a.count)
    && (t.data != a.data ==> a.data.count == a.count - 1)
    && (t.data != a.data && t.data == b.data ==> b.data.count == b.count + 1)
    && (t.data != a.data && t.data != b.data ==> t.data.count == 1)
    && (b.data != a.data && t.data != b.data ==> b.data.count == b.count)
  }

  /** The bytes of the array are kept, but for what is written behind the used part and one link. */
  ghost predicate BytesKept(a: Shot, here: bool, link: nat)
    reads a.data
  {
    && |a.data.bytes| == |a.bytes|
    && (!here ==> a.data.bytes == a.bytes && a.data.dirtyEnd == a.dirtyEnd)
    && (here ==> KeptBut(a.bytes, a.data.bytes, a.used, link))
    && (here ==> a.data.dirtyEnd == a.dirtyEnd || a.data.dirtyEnd >= a.used)
  }

  /** Where the nodes of a list come from. */
  ghost predicate NodesFrom(after: seq<Node>, before: seq<Node>, here: bool, used: nat) {
    forall k :: 0 <= k < |after| ==> after[k] in before || (here && after[k].off >= used)
  }

  /** What is known of the arrays after an operation on packet t, which was a, with the packet that was b; here and
      link are those of the write. */
  ghost predicate Effect(t: PacketMetadata, a: Shot, b: Shot, here: bool, link: nat)
    reads t, t.data, a.data, b.data
  {
    && CountsMove(t, a, b) && Behind(t.nodes, t.used, t.data.dirtyEnd)
    && (a.count > 1 ==> BytesKept(a, here, link))
    && (a.count > 1 && t.data == a.data ==>
          NodesFrom(t.nodes, a.nodes, here, a.used) || (b.data == a.data && NodesFrom(t.nodes, b.nodes, false, 0)))
    && (t.data != a.data && t.data == b.data ==> NodesFrom(t.nodes, b.nodes, false, 0))
  }

  /** The operation can be done on packet t, reading from o, as far as these two are concerned. */
  ghost predicate Able(t: PacketMetadata, o: PacketMetadata, op: Op)
    reads t, t.data, o, o.data
  {
    && t.Whole() && o.Whole() && t.data.count > 0 && o.data.count > 0
    && Behind(t.nodes, t.used, t.data.dirtyEnd) && Behind(o.nodes, o.used, o.data.dirtyEnd)
    && (o != t && o.data == t.data ==> t.data.count > 1)
    && Legal(ViewOf(t), ViewOf(o), op) && !Stops(t, o, op)
    && (SpeltOf(t); SpeltOf(o); op.AddAtEnd? && o.data == t.data && WritesHere(t, o, op) ==> t.Spares(o))
  }

  method ChangeFront(t: PacketMetadata, op: Op, n: nat)
    requires op.AddHeader? && Names(op, n) && Able(t, t, op)
    modifies t, t.data
    ensures t.Whole() && t.Bytes() == old(NewBytes(ViewOf(t), ViewOf(t), op)) && t.packetUid == old(t.packetUid)
    ensures Effect(t, old(ShotOf(t)), old(ShotOf(t)), old(WritesHere(t, t, op)), old(LinkSet(t, op)))
    ensures t.data == old(t.data) || fresh(t.data)
  {
    hide PacketMetadata.Whole, PacketMetadata.WholeIn, PacketMetadata.Bytes, PacketMetadata.Valid, KeptBut,
         PacketMetadata.Readable, PacketMetadata.SpoiledBy, NewLabels, Labels, PacketMetadata.Tidy, Length, LinkAt;
    BytesAre(t);
    Unspoiled(t, Links(t.head, NIL));
    t.AddHeader(op.headerType, op.size, op.chunkUid);
    ValidIsWhole(t);
    LatestIsBehind(t);
  }

  method ChangeBack(t: PacketMetadata, op: Op, n: nat)
    requires op.AddTrailer? && Names(op, n) && Able(t, t, op)
    modifies t, t.data
    ensures t.Whole() && t.Bytes() == old(NewBytes(ViewOf(t), ViewOf(t), op)) && t.packetUid == old(t.packetUid)
    ensures Effect(t, old(ShotOf(t)), old(ShotOf(t)), old(WritesHere(t, t, op)), old(LinkSet(t, op)))
    ensures t.data == old(t.data) || fresh(t.data)
  {
    hide PacketMetadata.Whole, PacketMetadata.WholeIn, PacketMetadata.Bytes, PacketMetadata.Valid, KeptBut,
         PacketMetadata.Readable, PacketMetadata.SpoiledBy, NewLabels, Labels, PacketMetadata.Tidy, Length, LinkAt;
    BytesAre(t);
    Unspoiled(t, Links(NIL, t.tail));
    t.AddTrailer(op.headerType, op.size, op.chunkUid);
    ValidIsWhole(t);
    LatestIsBehind(t);
  }

  method ChangeStart(t: PacketMetadata, op: Op)
    requires op.RemoveAtStart? && Able(t, t, op)
    modifies t, t.data`count
    ensures t.Whole() && t.Bytes() == old(NewBytes(ViewOf(t), ViewOf(t), op)) && t.packetUid == old(t.packetUid)
    ensures Effect(t, old(ShotOf(t)), old(ShotOf(t)), false, old(LinkSet(t, op)))
    ensures t.data == old(t.data) || fresh(t.data)
  {
    hide PacketMetadata.Whole, PacketMetadata.WholeIn, PacketMetadata.Bytes, PacketMetadata.Valid, KeptBut, CutsEnd,
         PacketMetadata.Readable, NewLabels, Labels, PacketMetadata.Tidy, CutsStart, DropStart, DropEnd, AllFit,
         PacketMetadata.FreshTail, Behind, NodesFrom, PacketMetadata.Spelt, PacketMetadata.Overhang, Clear, Spelled,
         WritesHere;
    BytesAre(t);
    ghost var nodes0 := t.nodes;
    t.RemoveAtStart(op.n);
    if t.data == old(t.data) {
      assert t.nodes == nodes0[|nodes0| - |t.nodes|..|nodes0|];
      BehindSlice(nodes0, |nodes0| - |t.nodes|, |nodes0|, t.used, t.data.dirtyEnd);
    } else {
      LatestIsBehind(t);
    }
  }

  method ChangeEnd(t: PacketMetadata, op: Op)
    requires op.RemoveAtEnd? && Able(t, t, op)
    modifies t, t.data`count
    ensures t.Whole() && t.Bytes() == old(NewBytes(ViewOf(t), ViewOf(t), op)) && t.packetUid == old(t.packetUid)
    ensures Effect(t, old(ShotOf(t)), old(ShotOf(t)), false, old(LinkSet(t, op)))
    ensures t.data == old(t.data) || fresh(t.data)
  {
    hide PacketMetadata.Whole, PacketMetadata.WholeIn, PacketMetadata.Bytes, PacketMetadata.Valid, KeptBut, CutsEnd,
         PacketMetadata.Readable, NewLabels, Labels, PacketMetadata.Tidy, CutsStart, DropStart, DropEnd, AllFit,
         PacketMetadata.FreshTail, Behind, NodesFrom, PacketMetadata.Spelt, PacketMetadata.Overhang, Clear, Spelled,
         WritesHere;
    BytesAre(t);
    ghost var nodes0 := t.nodes;
    t.RemoveAtEnd(op.n);
    if t.data == old(t.data) {
      assert t.nodes == nodes0[0..|t.nodes|];
      BehindSlice(nodes0, 0, |t.nodes|, t.used, t.data.dirtyEnd);
    } else {
      LatestIsBehind(t);
    }
  }

  /** A fragment, which shares the array with nodes of the list or has an array of its own. */
  method Piece(o: PacketMetadata, start: nat, end: nat) returns (fragment: PacketMetadata)
    requires o.Whole() && start + end <= |o.Bytes()| && 30 * |o.nodes| < NIL && o.data.count > 0
    requires Behind(o.nodes, o.used, o.data.dirtyEnd)
    modifies o.data`count
    ensures fresh(fragment) && fragment.Whole() && fragment.packetUid == o.packetUid
    ensures fragment.Bytes() == o.Bytes()[start..|o.Bytes()| - end]
    ensures Behind(fragment.nodes, fragment.used, fragment.data.dirtyEnd)
    ensures fragment.data == o.data ==>
      o.data.count == old(o.data.count) + 1 && NodesFrom(fragment.nodes, o.nodes, false, 0)
    ensures fragment.data != o.data ==>
      fresh(fragment.data) && fragment.data.count == 1 && o.data.count == old(o.data.count)
  {
    hide *;
    BytesAre(o);
    fragment := o.CreateFragment(start, end);
    if fragment.data == o.data {
      ghost var lo, hi :| 0 <= lo <= hi <= |o.nodes| && fragment.nodes == o.nodes[lo..hi];
      BehindSlice(o.nodes, lo, hi, o.used, o.data.dirtyEnd);
    } else {
      LatestIsBehind(fragment);
    }
  }

  method ChangeFragment(t: PacketMetadata, o: PacketMetadata, op: Op)
    requires op.Fragment? && Able(t, o, op)
    modifies t, t.data`count, o.data`count
    ensures t.Whole() && t.Bytes() == old(NewBytes(ViewOf(t), ViewOf(o), op)) && t.packetUid == old(o.packetUid)
    ensures Effect(t, old(ShotOf(t)), old(ShotOf(o)), false, old(LinkSet(t, op)))
    ensures t.data == old(t.data) || t.data == old(o.data) || fresh(t.data)
  {
    hide PacketMetadata.Whole, PacketMetadata.WholeIn, PacketMetadata.Bytes, PacketMetadata.Valid, KeptBut, Labels,
         AllFit, Behind, Clear, Spelled, NodesFrom, PacketMetadata.Overhang, PacketMetadata.Spelt;
    BytesAre(o);
    var fragment := Piece(o, op.start, op.end);
    BytesAre(fragment);
    t.Assign(fragment);
    SameWhole(t, fragment);
    BytesAre(t);
    SameBehind(t, fragment);
    fragment.Destroy();
  }

  method ChangeAppend(t: PacketMetadata, o: PacketMetadata, op: Op)
    requires op.AddAtEnd? && Able(t, o, op) && o != t
    modifies t, t.data, o.data`count
    ensures t.Whole() && t.Bytes() == old(NewBytes(ViewOf(t), ViewOf(o), op))
    ensures NewUid(old(ViewOf(t)), old(ViewOf(o)), op, t.packetUid)
    ensures Effect(t, old(ShotOf(t)), old(ShotOf(o)), old(WritesHere(t, o, op)), old(LinkSet(t, op)))
    ensures t.data == old(t.data) || t.data == old(o.data) || fresh(t.data)
  {
    hide PacketMetadata.Whole, PacketMetadata.WholeIn, PacketMetadata.Bytes, PacketMetadata.Valid, KeptBut,
         PacketMetadata.Readable, NewLabels, Labels, PacketMetadata.Tidy, PacketMetadata.WritesOver, AllFit,
         PacketMetadata.Spoiled, PacketMetadata.Grows, PacketMetadata.AppendsHere, PacketMetadata.Spares,
         PacketMetadata.Overhang, PacketMetadata.Merges, Behind, NodesFrom, Within, GrownPast, Clear,
         PacketMetadata.Spelt;
    BytesAre(t);
    BytesAre(o);
    NotSpoiled(t, o);
    SpoiledCases(t, o);
    NoReach(t);
    AppendsIs(t, o);
    ghost var nodes0, used0, here := t.nodes, t.used, t.AppendsHere(o);
    AllFrom(nodes0, used0, here);
    t.AddAtEnd(o);
    BytesAre(t);
    if nodes0 == [] {
      SameBehind(t, o);
    } else if o.nodes != [] {
      LatestIsBehind(t);
      if here && t.data == old(t.data) && old(t.data.count) > 1 {
        PastFrom(nodes0, t.nodes, used0);
      }
    }
  }

  lemma AppendsIs(t: PacketMetadata, o: PacketMetadata)
    requires t.Spelt() && o.Spelt()
    ensures t.AppendsHere(o) ==> t.nodes != [] && o.nodes != [] && !t.Merges(o)
  {
  }

  lemma AllFrom(nodes: seq<Node>, used: nat, here: bool)
    ensures NodesFrom(nodes, nodes, here, used)
  {
  }

  lemma PastFrom(a: seq<Node>, b: seq<Node>, used: nat)
    requires GrownPast(a, b, used)
    ensures NodesFrom(b, a, true, used)
  {
    forall k | 0 <= k < |b|
      ensures b[k] in a || b[k].off >= used
    {
      assert k < |a| ==> b[k] == b[..|a|][k];
    }
  }

  /** A packet that was the last to write in its array. */
  lemma LatestIsBehind(m: PacketMetadata)
    requires m.Whole() && m.Latest()
    ensures Behind(m.nodes, m.used, m.data.dirtyEnd)
  {
    hide Laid;
    forall k | 0 <= k < |m.nodes| - 1
      ensures End(m.nodes[k]) <= m.used
    {
      assert m.nodes[..|m.nodes| - 1][k] == m.nodes[k];
    }
  }

  lemma SameBehind(m: PacketMetadata, o: PacketMetadata)
    requires m.Same(o) && Behind(o.nodes, o.used, o.data.dirtyEnd)
    ensures Behind(m.nodes, m.used, m.data.dirtyEnd) && NodesFrom(m.nodes, o.nodes, false, 0)
  {
  }

  /** Part of a list. */
  lemma BehindSlice(nodes: seq<Node>, lo: nat, hi: nat, used: nat, dirtyEnd: nat)
    requires lo <= hi <= |nodes| && Behind(nodes, used, dirtyEnd)
    ensures Behind(nodes[lo..hi], used, dirtyEnd) && NodesFrom(nodes[lo..hi], nodes, false, 0)
  {
    forall k | 0 <= k < hi - lo
      ensures nodes[lo..hi][k] == nodes[lo + k]
    {
    }
  }

  /** Nothing reaches beyond the used part, so nothing is spoiled. */
  lemma Unspoiled(m: PacketMetadata, bytes: seq<Byte>)
    requires m.Whole() && m.Overhang() == 0 && |bytes| == 4
    ensures !m.SpoiledBy(bytes)
  {
    hide Spoils, Laid, Spelled;
    LastFits(m);
    LapNone(m.items, bytes);
  }

  lemma NotSpoiled(m: PacketMetadata, o: PacketMetadata)
    requires m.Whole() && o.Whole() && m.used + 90 < NIL && !m.WritesOver(o)
    ensures !m.Spoiled(o)
    ensures m.nodes == [] ==> m.Bytes() == []
  {
    hide *;
    BytesAre(m);
    NoLabels();
    SpoiledCases(m, o);
    LastRoom(m);
    if m.nodes != [] && o.nodes != [] {
      if !m.Merges(o) {
        NotOver(m.items[|m.nodes| - 1], m.tail, m.used, o.items);
      } else if |o.nodes| > 1 && m.InTail(m.Joint(o)) {
        NotOver(m.Joint(o), m.tail, m.UsedWith(m.Joint(o)), o.items[1..]);
      }
    }
  }

  /** Do the operation on packet t. */
  method Change(t: PacketMetadata, o: PacketMetadata, op: Op, n: nat)
    requires Names(op, n) && Able(t, o, op) && (op.AddAtEnd? ==> o != t) && (!op.Fragment? && !op.AddAtEnd? ==> o == t)
    modifies t, t.data, o.data`count
    ensures t.Whole() && t.Bytes() == old(NewBytes(ViewOf(t), ViewOf(o), op))
    ensures NewUid(old(ViewOf(t)), old(ViewOf(o)), op, t.packetUid)
    ensures Effect(t, old(ShotOf(t)), old(ShotOf(o)), old(WritesHere(t, o, op)), old(LinkSet(t, op)))
    ensures t.data == old(t.data) || t.data == old(o.data) || fresh(t.data)
  {
    hide PacketMetadata.Whole, PacketMetadata.Bytes, Effect, NewBytes, Stops, Behind, Able, Legal;
    match op
    case AddHeader(m, ty, size, c) => ChangeFront(t, op, n);
    case AddTrailer(m, ty, size, c) => ChangeBack(t, op, n);
    case RemoveAtStart(m, k) => ChangeStart(t, op);
    case RemoveAtEnd(m, k) => ChangeEnd(t, op);
    case Fragment(m, _, start, end) => ChangeFragment(t, o, op);
    case AddAtEnd(m, _) => ChangeAppend(t, o, op);
  }

  // ----- What it does to the other packets -----

  /** Packet q, if it shares the array of a, is not hit. */
  ghost predicate Spared(a: Shot, q: Shot, here: bool, link: nat) {
    q.data == a.data ==> a.count > 1 && (here ==> Within(q.nodes, a.used) && Clear(q.nodes, link))
  }

  lemma OtherKept(t: PacketMetadata, a: Shot, b: Shot, q: PacketMetadata, c: Shot, here: bool, link: nat)
    requires q.data == c.data && q.nodes == c.nodes && q.used == c.used && q.WholeIn(c.bytes)
    requires Behind(c.nodes, c.used, c.dirtyEnd) && Spared(a, c, here, link) && Effect(t, a, b, here, link)
    requires c.data == a.data ==> c.bytes == a.bytes && c.dirtyEnd == a.dirtyEnd
    requires c.data != a.data ==> q.data.bytes == c.bytes && q.data.dirtyEnd == c.dirtyEnd
    ensures q.Whole() && Behind(q.nodes, q.used, q.data.dirtyEnd)
  {
    hide PacketMetadata.WholeIn, Clear, KeptBut, CountsMove, NodesFrom;
    if c.data == a.data && here {
      q.StillWhole(a.bytes, a.used, link);
    }
  }

  lemma BesideFrom(a: seq<Node>, b: seq<Node>, q: seq<Node>, here: bool, used: nat)
    requires NodesFrom(a, b, here, used) && Beside(b, q) && (here ==> Within(q, used))
    ensures Beside(a, q) && Beside(q, a)
  {
    forall i, j | 0 <= i < |a| && 0 <= j < |q|
      ensures a[i] == q[j] || Apart(a[i], q[j])
      ensures q[j] == a[i] || Apart(q[j], a[i])
    {
      if a[i] in b {
        var k :| 0 <= k < |b| && b[k] == a[i];
        assert b[k] == q[j] || Apart(b[k], q[j]);
      } else {
        assert End(q[j]) <= used;
      }
    }
  }

  lemma LaidBeside(data: seq<Byte>, nodes: seq<Node>)
    requires Laid(data, nodes)
    ensures Beside(nodes, nodes)
  {
    hide NodeAt, AllLinked;
    forall i, j | 0 <= i < |nodes| && 0 <= j < |nodes|
      ensures nodes[i] == nodes[j] || Apart(nodes[i], nodes[j])
    {
      assert i < j ==> Apart(nodes[i], nodes[j]);
      assert j < i ==> Apart(nodes[j], nodes[i]);
    }
  }

  lemma WholeLaid(m: PacketMetadata)
    requires m.Whole()
    ensures Laid(m.data.bytes, m.nodes)
  {
  }

  lemma OtherBeside(t: PacketMetadata, a: Shot, b: Shot, q: Shot, here: bool, link: nat)
    requires Effect(t, a, b, here, link) && Spared(a, q, here, link) && t.data == q.data
    requires q.data == a.data ==> Beside(a.nodes, q.nodes)
    requires q.data == b.data ==> Beside(b.nodes, q.nodes)
    requires q.data == a.data || q.data == b.data
    ensures Beside(t.nodes, q.nodes) && Beside(q.nodes, t.nodes)
  {
    hide BytesKept, Within, NodesFrom, Beside, Behind, Clear;
    if t.data == a.data && NodesFrom(t.nodes, a.nodes, here, a.used) {
      BesideFrom(t.nodes, a.nodes, q.nodes, here, a.used);
    } else {
      BesideFrom(t.nodes, b.nodes, q.nodes, false, 0);
    }
  }

  predicate OtherArray(c: Data, d: Data, e: Data) {
    c != d && c != e
  }

  /** The counts are right again. */
  lemma CountsKept(ms: seq<PacketMetadata>, before: seq<Shot>, m: nat, s: nat)
    requires m < |ms| == |before| && s < |ms| && Counted(before) && CountsMove(ms[m], before[m], before[s])
    requires forall k :: 0 <= k < |ms| && k != m ==> ms[k].data == before[k].data
    requires forall k :: 0 <= k < |ms| && k != m && OtherArray(ms[k].data, before[m].data, before[s].data) ==>
      ms[k].data != ms[m].data && ms[k].data.count == before[k].count
    ensures Counted(Shots(ms))
  {
    var t, d, e, uses, uses2 := ms[m], before[m].data, before[s].data, DataOf(before), DataOf(Shots(ms));
    forall k | 0 <= k < |ms|
      ensures ms[k].data.count == |Users(uses2, ms[k].data)|
    {
      var c := ms[k].data;
      forall x | x != m
        ensures Uses(uses2, x, c) <==> Uses(uses, x, c)
      {
      }
      UsersMoved(uses, uses2, m, c);
      if c == t.data && t.data != d && t.data != e {
        NoUsers(uses, c);
      } else {
        var i := if k != m then k else if t.data == d then m else s;
        assert before[i].data == c && before[i].count == |Users(uses, c)|;
        if c == d {
          SameCount(before, i, m);
        }
        if c == e {
          SameCount(before, i, s);
        }
      }
    }
  }

  lemma SameCount(s: seq<Shot>, i: nat, j: nat)
    requires i < |s| && j < |s| && Counted(s) && s[i].data == s[j].data
    ensures s[i].count == s[j].count
  {
  }

  /** Two packets that share an array are counted. */
  lemma SharersCount(s: seq<Shot>, i: nat, j: nat)
    requires i < |s| && j < |s| && i != j && s[i].data == s[j].data && Counted(s)
    ensures s[i].count > 1
  {
    TwoUsers(DataOf(s), i, j, s[i].data);
  }

  lemma UserCounts(s: seq<Shot>, i: nat)
    requires i < |s| && Counted(s)
    ensures s[i].count > 0
  {
    HasUser(DataOf(s), i, s[i].data);
  }

  // ----- Runs -----

  lemma Undisturbed(ms: seq<PacketMetadata>, op: Op, k: nat)
    requires AllWhole(ms) && Names(op, |ms|) && !Disturbs(ms, op) && k < |ms| && k != op.m
    ensures ms[op.m].Spelt() && ms[Source(op)].Spelt()
    ensures Spared(ShotOf(ms[op.m]), ShotOf(ms[k]), WritesHere(ms[op.m], ms[Source(op)], op), LinkSet(ms[op.m], op))
  {
    hide PacketMetadata.WholeIn, WritesHere, Counted, Ordered, Within, Clear;
    SpeltOf(ms[op.m]);
    SpeltOf(ms[Source(op)]);
    if ms[k].data == ms[op.m].data {
      SharersCount(Shots(ms), op.m, k);
    }
  }

  lemma AbleIs(ms: seq<PacketMetadata>, op: Op)
    requires AllWhole(ms) && Names(op, |ms|) && !Blocked(ms, op)
    ensures Able(ms[op.m], ms[Source(op)], op)
    ensures op.AddAtEnd? ==> ms[op.m] != ms[op.o]
  {
    hide PacketMetadata.Whole, PacketMetadata.Bytes, Stops, Legal, WritesHere, Counted, Behind, Disturbs, Within,
         Clear, Beside;
    UserCounts(Shots(ms), op.m);
    UserCounts(Shots(ms), Source(op));
    assert Shots(ms)[op.m] == ShotOf(ms[op.m]) && Shots(ms)[Source(op)] == ShotOf(ms[Source(op)]);
    if ms[op.m] != ms[Source(op)] && ms[op.m].data == ms[Source(op)].data {
      SharersCount(Shots(ms), op.m, Source(op));
    }
    if op.AddAtEnd? {
      Undisturbed(ms, op, op.o);
    }
  }

  /** All packets are still in order after one of them has changed. */
  lemma AllKept(ms: seq<PacketMetadata>, before: seq<Shot>, m: nat, s: nat, here: bool, link: nat)
    requires m < |ms| == |before| && s < |ms| && Distinct(ms) && Counted(before) && Ordered(before) && ms[m].Whole()
    requires Effect(ms[m], before[m], before[s], here, link)
    requires forall k :: 0 <= k < |ms| && k != m ==>
      && ms[k].data == before[k].data && ms[k].nodes == before[k].nodes && ms[k].used == before[k].used
      && ms[k].WholeIn(before[k].bytes) && Spared(before[m], before[k], here, link)
      && (before[k].data == before[m].data ==> SameArray(before[k], before[m]))
      && (before[k].data != before[m].data ==>
            ms[k].data.bytes == before[k].bytes && ms[k].data.dirtyEnd == before[k].dirtyEnd)
      && (OtherArray(ms[k].data, before[m].data, before[s].data) ==>
            ms[k].data != ms[m].data && ms[k].data.count == before[k].count)
    ensures AllWhole(ms)
  {
    hide PacketMetadata.WholeIn, BytesKept, Within, Clear, Behind, Effect, Beside, Counted, CountsMove, Spared;
    var t := ms[m];
    forall k | 0 <= k < |ms| && k != m
      ensures ms[k].Whole() && Behind(ms[k].nodes, ms[k].used, ms[k].data.dirtyEnd)
      ensures ms[k].data == t.data ==> Beside(t.nodes, ms[k].nodes) && Beside(ms[k].nodes, t.nodes)
    {
      OtherKept(t, before[m], before[s], ms[k], before[k], here, link);
      if ms[k].data == t.data {
        OtherBeside(t, before[m], before[s], before[k], here, link);
      }
    }
    WholeLaid(t);
    LaidBeside(t.data.bytes, t.nodes);
    EffectCounts(t, before[m], before[s], here, link);
    CountsKept(ms, before, m, s);
  }

  predicate SameArray(a: Shot, b: Shot) {
    a.bytes == b.bytes && a.dirtyEnd == b.dirtyEnd
  }

  lemma EffectCounts(t: PacketMetadata, a: Shot, b: Shot, here: bool, link: nat)
    requires Effect(t, a, b, here, link)
    ensures CountsMove(t, a, b) && Behind(t.nodes, t.used, t.data.dirtyEnd)
  {
  }

  method Perform(ms: seq<PacketMetadata>, op: Op, ghost v: seq<View>) returns (ghost w: seq<View>)
    requires AllWhole(ms) && IsView(ms, v) && Names(op, |ms|) && !Blocked(ms, op)
    modifies ms[op.m], ms[op.m].data, ms[Source(op)].data`count
    ensures AllWhole(ms) && IsView(ms, w) && Step(v, op, w)
    ensures ms[op.m].data in old(Arrays(ms)) || fresh(ms[op.m].data)
  {
    hide PacketMetadata.WholeIn, PacketMetadata.Bytes, NewBytes, NewUid, Legal, Stops, Effect, Able, Counted, Ordered,
         Behind, Disturbs, Spared;
    var t, o := ms[op.m], ms[Source(op)];
    assert v[op.m] == ViewOf(t) && v[Source(op)] == ViewOf(o);
    AbleIs(ms, op);
    forall k | 0 <= k < |ms| && k != op.m
      ensures t.Spelt() && o.Spelt() && Spared(ShotOf(t), ShotOf(ms[k]), WritesHere(t, o, op), LinkSet(t, op))
    {
      Undisturbed(ms, op, k);
    }
    SpeltOf(t);
    SpeltOf(o);
    ghost var here, link, before := WritesHere(t, o, op), LinkSet(t, op), Shots(ms);
    Change(t, o, op, |ms|);
    AllKept(ms, before, op.m, Source(op), here, link);
    w := v[op.m := ViewOf(t)];
  }

  /** Whether the operation can be done as far as the two packets are concerned. */
  method Ready(t: PacketMetadata, o: PacketMetadata, op: Op) returns (ready: bool)
    requires t.Whole() && o.Whole()
    ensures ready <==> Legal(ViewOf(t), ViewOf(o), op) && !Stops(t, o, op)
  {
    hide PacketMetadata.Whole, PacketMetadata.Bytes, PacketMetadata.Overhang, PacketMetadata.WritesOver;
    var total, count := t.GetTotalSize();
    var size, more := o.GetTotalSize();
    match op
    case AddHeader(m, ty, k, c) =>
      var d := t.Reach();
      ready := d == 0 && t.used + 30 < NIL;
    case AddTrailer(m, ty, k, c) =>
      var d := t.Reach();
      ready := d == 0 && t.used + 30 < NIL;
    case RemoveAtStart(m, k) => ready := k <= total && 30 * count < NIL;
    case RemoveAtEnd(m, k) => ready := k <= total && 30 * count < NIL;
    case Fragment(m, _, start, end) => ready := start + end <= size && 30 * more < NIL;
    case AddAtEnd(m, _) =>
      ready := t.used + 30 * (count + more + 3) < NIL;
      if ready {
        var over := t.WouldWriteOver(o);
        ready := !over;
      }
  }

  /** Whether the operation writes in an array that others may use. */
  method WouldWriteHere(t: PacketMetadata, o: PacketMetadata, op: Op) returns (here: bool)
    requires t.Whole() && o.Whole()
    ensures t.Spelt() && o.Spelt() && (here <==> WritesHere(t, o, op))
  {
    hide PacketMetadata.Whole, PacketMetadata.AppendsHere, PacketMetadata.InPlace, Length;
    SpeltOf(t);
    SpeltOf(o);
    match op
    case AddHeader(m, ty, size, c) => here := t.InPlace(Length(NewItem(t.packetUid, ty, size, c)));
    case AddTrailer(m, ty, size, c) => here := t.InPlace(Length(NewItem(t.packetUid, ty, size, c)));
    case AddAtEnd(m, _) => here := t.WouldAppendHere(o);
    case _ => here := false;
  }

  /** Whether the operation would change another packet. */
  method WouldDisturb(ms: seq<PacketMetadata>, op: Op) returns (disturbs: bool)
    requires EachWhole(ms) && Names(op, |ms|)
    ensures disturbs <==> Disturbs(ms, op)
  {
    hide PacketMetadata.Whole, WritesHere, Within, Clear;
    var t := ms[op.m];
    var here := WouldWriteHere(t, ms[Source(op)], op);
    disturbs := false;
    var k := 0;
    while here && k < |ms| && !disturbs
      invariant k <= |ms|
      invariant disturbs ==> Disturbs(ms, op)
      invariant !disturbs ==> forall j :: 0 <= j < k && j != op.m && ms[j].data == t.data ==> !Hits(t, op, ms[j])
    {
      if k != op.m && ms[k].data == t.data {
        var spared := ms[k].Spared(t.used, LinkSet(t, op));
        disturbs := !spared;
        assert disturbs <==> Hits(t, op, ms[k]);
      }
      k := k + 1;
    }
  }

  method MayPerform(ms: seq<PacketMetadata>, op: Op, ghost v: seq<View>) returns (ok: bool)
    requires AllWhole(ms) && IsView(ms, v) && Names(op, |ms|)
    ensures AllWhole(ms) && IsView(ms, v) && (ok <==> !Blocked(ms, op))
  {
    hide PacketMetadata.WholeIn, PacketMetadata.Bytes, Legal, Stops, Disturbs, Counted, Ordered, Names;
    NamesIndex(op, |ms|);
    ok := Ready(ms[op.m], ms[Source(op)], op);
    assert Shots(ms) == old(Shots(ms));
    var disturbs := WouldDisturb(ms, op);
    assert Shots(ms) == old(Shots(ms));
    ok := ok && !disturbs;
  }

  /** Over any sequence of operations on any number of packets that may share arrays, up to the first one that
      cannot be done or would change another packet, each operation changes one packet, as it does to a string of
      labels of its own. */
  method Execute(ms: seq<PacketMetadata>, ops: seq<Op>) returns (done: nat, ghost trace: seq<seq<View>>)
    requires AllWhole(ms) && forall op :: op in ops ==> Names(op, |ms|)
    modifies ms, Arrays(ms)
    ensures AllWhole(ms) && done <= |ops| && |trace| == done + 1
    ensures old(IsView(ms, trace[0])) && IsView(ms, trace[done])
    ensures forall k :: 0 <= k < done ==> Step(trace[k], ops[k], trace[k + 1])
    ensures done < |ops| ==> Blocked(ms, ops[done])
  {
    hide PacketMetadata.Whole, PacketMetadata.Bytes, Step, Names, ViewOf, Blocked, AllWhole, IsView, EachWhole;
    WholeEach(ms);
    ghost var v0 := Views(ms);
    done, trace := 0, [v0];
    while done < |ops|
      invariant done <= |ops| && |trace| == done + 1 && AllWhole(ms) && EachWhole(ms)
      invariant trace[0] == v0 && IsView(ms, trace[done])
      invariant forall k :: 0 <= k < done ==> Step(trace[k], ops[k], trace[k + 1])
      invariant forall k :: 0 <= k < |ms| ==> ms[k].data in old(Arrays(ms)) || fresh(ms[k].data)
    {
      var op := ops[done];
      NamesIndex(op, |ms|);
      var ok := MayPerform(ms, op, trace[done]);
      if !ok {
        break;
      }
      ghost var w := Perform(ms, op, trace[done]);
      WholeEach(ms);
      trace := trace + [w];
      done := done + 1;
    }
  }

  lemma WholeEach(ms: seq<PacketMetadata>)
    requires AllWhole(ms)
    ensures EachWhole(ms)
  {
  }

  lemma NamesIndex(op: Op, n: nat)
    requires Names(op, n)
    ensures op.m < n && Source(op) < n
  {
  }
}
