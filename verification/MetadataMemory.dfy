/** The list of metadata items laid out in an array of bytes.

A node is a piece of the array that starts with the offsets of the nodes after and
before it.  A list of nodes is laid out when every node is in the array where it
says, apart from the others, and linked to its neighbours in the list; the links
that lead out of the list do not matter.  The bytes of a node are those of an item,
except when the last node has been cut back because later bytes were written over
its end.
*/
module MetadataMemory {
  import opened ByteStrings
  import opened MetadataCodec

  // ----- Layout -----

  /** A node in the array: where it is, and the bytes after its links. */
  datatype Node = Node(off: nat, body: seq<Byte>)

  function End(nd: Node): nat {
    nd.off + 4 + |nd.body|
  }

  function Written(next: nat, prev: nat, body: seq<Byte>): (s: seq<Byte>)
    requires next < 0x1_0000 && prev < 0x1_0000
    ensures |s| == 4 + |body|
  {
    Le16(next) + (Le16(prev) + body)
  }

  predicate At(data: seq<Byte>, off: nat, s: seq<Byte>) {
    off + |s| <= |data| && data[off..off + |s|] == s
  }

  predicate LinkAt(data: seq<Byte>, off: nat, v: nat) {
    v < 0x1_0000 && At(data, off, Le16(v))
  }

  predicate NodeAt(data: seq<Byte>, nd: Node) {
    |nd.body| >= 4 && At(data, nd.off + 4, nd.body)
  }

  predicate Apart(a: Node, b: Node) {
    End(a) <= b.off || End(b) <= a.off
  }

  predicate Linked(data: seq<Byte>, a: Node, b: Node) {
    LinkAt(data, a.off, b.off) && LinkAt(data, b.off + 2, a.off)
  }

  ghost predicate AllLinked(data: seq<Byte>, nodes: seq<Node>) {
    forall k :: 0 <= k < |nodes| - 1 ==> Linked(data, nodes[k], nodes[k + 1])
  }

  /** The nodes are in the array and linked in order, each at a place of its own. */
  ghost predicate Chained(data: seq<Byte>, nodes: seq<Node>) {
    && (forall k :: 0 <= k < |nodes| ==> NodeAt(data, nodes[k]))
    && (forall i, j :: 0 <= i < j < |nodes| ==> nodes[i].off != nodes[j].off)
    && AllLinked(data, nodes)
  }

  /** The nodes are in the array, do not overlap, and are linked in order. */
  ghost predicate Laid(data: seq<Byte>, nodes: seq<Node>) {
    && (forall k :: 0 <= k < |nodes| ==> NodeAt(data, nodes[k]))
    && (forall i, j :: 0 <= i < j < |nodes| ==> Apart(nodes[i], nodes[j]))
    && AllLinked(data, nodes)
  }

  ghost predicate Within(nodes: seq<Node>, used: nat) {
    forall k :: 0 <= k < |nodes| ==> End(nodes[k]) <= used
  }

  lemma LaidIsChained(data: seq<Byte>, nodes: seq<Node>)
    requires Laid(data, nodes)
    ensures Chained(data, nodes)
  {
    hide NodeAt, AllLinked;
    forall i, j | 0 <= i < j < |nodes|
      ensures nodes[i].off != nodes[j].off
    {
      assert Apart(nodes[i], nodes[j]);
    }
  }

  /** The node holds the item, in a packet with the given uid. */
  ghost predicate Spells(nd: Node, x: Item, uid: nat) {
    Storable(x, uid) && nd.body == Body(x)
  }

  ghost predicate Spelled(nodes: seq<Node>, items: seq<Item>, uid: nat) {
    |nodes| == |items| && forall k :: 0 <= k < |nodes| ==> Spells(nodes[k], items[k], uid)
  }

  /** Reading at a node gives its item. */
  lemma ReadNode(data: seq<Byte>, nd: Node, x: Item, uid: nat)
    requires NodeAt(data, nd) && Spells(nd, x, uid)
    ensures nd.off + 8 <= |data| && ReadItem(data[nd.off..], uid) == x
  {
    hide ReadItem, Body;
    var s, rest := data[nd.off..], data[End(nd)..];
    assert s[4..] == data[nd.off + 4..] == data[nd.off + 4..End(nd)] + rest;
    ReadBody(s, x, rest, uid);
  }

  /** Reading a link gives its value. */
  lemma ReadLink(data: seq<Byte>, off: nat, v: nat)
    requires LinkAt(data, off, v)
    ensures From16(data[off..]) == v
  {
    hide Le16, From16;
    assert data[off..] == Le16(v) + data[off + 2..];
    ReadChunk(v, data[off + 2..]);
  }

  // ----- Writing -----

  /** All bytes before a place are kept but those of one link. */
  ghost predicate KeptBut(before: seq<Byte>, after: seq<Byte>, from: nat, link: nat) {
    && (from <= |after| || |before| <= |after|)
    && forall i :: 0 <= i < |before| && i < from && !(link <= i < link + 2) ==> after[i] == before[i]
  }

  lemma KeptTrans(a: seq<Byte>, b: seq<Byte>, c: seq<Byte>, from: nat, from2: nat, link: nat, link2: nat, l: nat)
    requires KeptBut(a, b, from, link) && KeptBut(b, c, from2, link2)
    requires from <= from2 && (link == l || link >= from) && (link2 == l || link2 >= from)
    ensures KeptBut(a, c, from, l)
  {
  }

  /** The two bytes at the given place are used by no node, or are the link of the last or first node that leads
      out of the list. */
  ghost predicate Clear(nodes: seq<Node>, link: nat) {
    forall k :: 0 <= k < |nodes| ==> ClearAt(nodes, link, k)
  }

  predicate ClearAt(nodes: seq<Node>, link: nat, k: nat)
    requires k < |nodes|
  {
    || link + 2 <= nodes[k].off || End(nodes[k]) <= link
    || (link == nodes[k].off && k == |nodes| - 1) || (link == nodes[k].off + 2 && k == 0)
  }

  lemma AtKept(before: seq<Byte>, after: seq<Byte>, from: nat, link: nat, off: nat, s: seq<Byte>)
    requires KeptBut(before, after, from, link) && At(before, off, s)
    requires off + |s| <= from && (off + |s| <= link || link + 2 <= off) && |s| > 0
    ensures At(after, off, s)
  {
    forall i | 0 <= i < |s|
      ensures after[off + i] == s[i]
    {
      assert s[i] == before[off..off + |s|][i] == before[off + i];
    }
    assert after[off..off + |s|] == s;
  }

  lemma NodeKept(before: seq<Byte>, after: seq<Byte>, from: nat, link: nat, nodes: seq<Node>, k: nat)
    requires KeptBut(before, after, from, link) && Clear(nodes, link) && Within(nodes, from)
    requires k < |nodes| && NodeAt(before, nodes[k])
    ensures NodeAt(after, nodes[k])
  {
    hide KeptBut, At;
    assert End(nodes[k]) <= from && ClearAt(nodes, link, k);
    AtKept(before, after, from, link, nodes[k].off + 4, nodes[k].body);
  }

  lemma LinkKept(before: seq<Byte>, after: seq<Byte>, from: nat, link: nat, nodes: seq<Node>, k: nat)
    requires KeptBut(before, after, from, link) && Clear(nodes, link) && Within(nodes, from)
    requires k + 1 < |nodes| && Linked(before, nodes[k], nodes[k + 1])
    ensures Linked(after, nodes[k], nodes[k + 1])
  {
    hide KeptBut, At, Le16;
    assert End(nodes[k]) <= from && End(nodes[k + 1]) <= from;
    assert ClearAt(nodes, link, k) && ClearAt(nodes, link, k + 1);
    AtKept(before, after, from, link, nodes[k].off, Le16(nodes[k + 1].off));
    AtKept(before, after, from, link, nodes[k + 1].off + 2, Le16(nodes[k].off));
  }

  /** A list stays laid out when no byte is written that it uses. */
  lemma LaidKept(before: seq<Byte>, after: seq<Byte>, from: nat, link: nat, nodes: seq<Node>)
    requires Laid(before, nodes) && Within(nodes, from) && Clear(nodes, link) && KeptBut(before, after, from, link)
    ensures Laid(after, nodes)
  {
    hide KeptBut, Clear, NodeAt, Linked, Within;
    forall k | 0 <= k < |nodes|
      ensures NodeAt(after, nodes[k])
    {
      NodeKept(before, after, from, link, nodes, k);
    }
    forall k | 0 <= k < |nodes| - 1
      ensures Linked(after, nodes[k], nodes[k + 1])
    {
      LinkKept(before, after, from, link, nodes, k);
    }
  }

  /** Places behind a list are clear. */
  lemma ClearBehind(nodes: seq<Node>, used: nat, link: nat)
    requires Within(nodes, used) && used <= link
    ensures Clear(nodes, link)
  {
  }

  /** The links that lead out of a list are clear. */
  lemma ClearEnds(data: seq<Byte>, nodes: seq<Node>)
    requires Laid(data, nodes) && nodes != []
    ensures Clear(nodes, nodes[|nodes| - 1].off) && Clear(nodes, nodes[0].off + 2)
  {
    hide NodeAt, AllLinked;
    var t := |nodes| - 1;
    forall k | 0 <= k < |nodes|
      ensures k < t ==> nodes[t].off + 2 <= nodes[k].off || End(nodes[k]) <= nodes[t].off
      ensures k > 0 ==> nodes[0].off + 4 <= nodes[k].off || End(nodes[k]) <= nodes[0].off
    {
      if k < t {
        assert Apart(nodes[k], nodes[t]);
      }
      if k > 0 {
        assert Apart(nodes[0], nodes[k]);
      }
    }
  }

  function Patch(data: seq<Byte>, off: nat, s: seq<Byte>): (r: seq<Byte>)
    requires off + |s| <= |data|
    ensures |r| == |data| && At(r, off, s)
    ensures r[..off] == data[..off] && r[off + |s|..] == data[off + |s|..]
  {
    var r := data[..off] + s + data[off + |s|..];
    assert r[off..off + |s|] == s;
    assert r[off + |s|..] == data[off + |s|..];
    r
  }

  lemma PatchKept(data: seq<Byte>, off: nat, s: seq<Byte>, from: nat, link: nat)
    requires off + |s| <= |data| && (off >= from || (off == link && |s| == 2))
    ensures KeptBut(data, Patch(data, off, s), from, link)
  {
  }

  /** A write elsewhere leaves what is at a place alone. */
  lemma PatchApart(data: seq<Byte>, off: nat, s: seq<Byte>, place: nat, t: seq<Byte>)
    requires At(data, place, t) && off + |s| <= |data| && (off + |s| <= place || place + |t| <= off)
    ensures At(Patch(data, off, s), place, t)
  {
    var r := Patch(data, off, s);
    forall i | 0 <= i < |t|
      ensures r[place + i] == t[i]
    {
      assert t[i] == data[place..place + |t|][i] == data[place + i];
    }
    assert r[place..place + |t|] == t;
  }

  /** The parts of what is at a place. */
  lemma AtParts(data: seq<Byte>, off: nat, a: seq<Byte>, b: seq<Byte>)
    requires At(data, off, a + b)
    ensures At(data, off, a) && At(data, off + |a|, b)
  {
    var s := data[off..off + |a + b|];
    assert s == a + b && s[..|a|] == a && s[|a|..] == b;
    assert data[off..off + |a|] == s[..|a|] && data[off + |a|..off + |a| + |b|] == s[|a|..];
  }

  lemma AtJoined(data: seq<Byte>, off: nat, a: seq<Byte>, b: seq<Byte>)
    requires At(data, off, a) && At(data, off + |a|, b)
    ensures At(data, off, a + b)
  {
    var n := |a| + |b|;
    assert data[off..off + n] == data[off..off + |a|] + data[off + |a|..off + n];
  }

  /** The links and the rest of a node that has been written. */
  lemma WrittenParts(data: seq<Byte>, off: nat, next: nat, prev: nat, body: seq<Byte>)
    requires next < 0x1_0000 && prev < 0x1_0000 && |body| >= 4 && At(data, off, Written(next, prev, body))
    ensures LinkAt(data, off, next) && LinkAt(data, off + 2, prev) && NodeAt(data, Node(off, body))
  {
    hide At, Le16;
    AtParts(data, off, Le16(next), Le16(prev) + body);
    AtParts(data, off + 2, Le16(prev), body);
  }

  // ----- Lists -----

  /** A node after all others joins at the end. */
  lemma LaidBack(data: seq<Byte>, nodes: seq<Node>, nd: Node)
    requires Laid(data, nodes) && Within(nodes, nd.off) && NodeAt(data, nd)
    requires nodes != [] ==> Linked(data, nodes[|nodes| - 1], nd)
    ensures Laid(data, nodes + [nd])
  {
    hide NodeAt, Linked;
    var nodes2 := nodes + [nd];
    forall i, j | 0 <= i < j < |nodes2|
      ensures Apart(nodes2[i], nodes2[j])
    {
      assert j < |nodes| ==> Apart(nodes[i], nodes[j]);
    }
    forall k | 0 <= k < |nodes2| - 1
      ensures Linked(data, nodes2[k], nodes2[k + 1])
    {
      assert k < |nodes| - 1 ==> Linked(data, nodes[k], nodes[k + 1]);
    }
  }

  /** A node after all others in the array joins at the front of the list. */
  lemma LaidFront(data: seq<Byte>, nodes: seq<Node>, nd: Node)
    requires Laid(data, nodes) && Within(nodes, nd.off) && NodeAt(data, nd)
    requires nodes != [] ==> Linked(data, nd, nodes[0])
    ensures Laid(data, [nd] + nodes)
  {
    hide NodeAt, Linked;
    var nodes2 := [nd] + nodes;
    forall k | 0 <= k < |nodes2|
      ensures NodeAt(data, nodes2[k])
    {
      assert k > 0 ==> nodes2[k] == nodes[k - 1];
    }
    forall i, j | 0 <= i < j < |nodes2|
      ensures Apart(nodes2[i], nodes2[j])
    {
      assert i > 0 ==> Apart(nodes[i - 1], nodes[j - 1]);
      assert i == 0 ==> End(nodes[j - 1]) <= nd.off;
    }
    forall k | 0 <= k < |nodes2| - 1
      ensures Linked(data, nodes2[k], nodes2[k + 1])
    {
      assert k > 0 ==> Linked(data, nodes[k - 1], nodes[k]);
    }
  }

  /** Part of a list. */
  lemma LaidSlice(data: seq<Byte>, nodes: seq<Node>, lo: nat, hi: nat)
    requires Laid(data, nodes) && lo <= hi <= |nodes|
    ensures Laid(data, nodes[lo..hi])
  {
    hide NodeAt, Linked;
    var r := nodes[lo..hi];
    forall i, j | 0 <= i < j < |r|
      ensures Apart(r[i], r[j])
    {
      assert Apart(nodes[lo + i], nodes[lo + j]);
    }
    forall k | 0 <= k < |r| - 1
      ensures Linked(data, r[k], r[k + 1])
    {
      assert Linked(data, nodes[lo + k], nodes[lo + k + 1]);
    }
  }

  /** An item written behind the used part joins the list at its end. */
  lemma Appended(data: seq<Byte>, nodes: seq<Node>, used: nat, prev: nat, body: seq<Byte>)
    requires Laid(data, nodes) && Within(nodes, used) && used < NIL && prev < 0x1_0000 && |body| >= 4
    requires At(data, used, Written(NIL, prev, body))
    requires nodes != [] ==> prev == nodes[|nodes| - 1].off && prev + 4 <= used
    ensures var r := if nodes == [] then data else Patch(data, prev, Le16(used));
      && Laid(r, nodes + [Node(used, body)]) && Within(nodes + [Node(used, body)], used + 4 + |body|)
      && LinkAt(r, used, NIL) && LinkAt(r, used + 2, prev) && KeptBut(data, r, used, prev)
  {
    assert used <= |data|;
    hide Laid, Patch, Le16, Written, At, KeptBut;
    var nd := Node(used, body);
    WrittenParts(data, used, NIL, prev, body);
    if nodes == [] {
      NothingWritten(data, used, prev);
      LaidBack(data, nodes, nd);
    } else {
      var r := Patch(data, prev, Le16(used));
      ClearEnds(data, nodes);
      PatchKept(data, prev, Le16(used), used, prev);
      LaidKept(data, r, used, prev, nodes);
      PatchApart(data, prev, Le16(used), used, Le16(NIL));
      PatchApart(data, prev, Le16(used), used + 2, Le16(prev));
      PatchApart(data, prev, Le16(used), used + 4, body);
      LaidBack(r, nodes, nd);
    }
  }

  lemma NothingWritten(data: seq<Byte>, from: nat, link: nat)
    ensures KeptBut(data, data, from, link)
  {
  }

  /** The first node is linked to an item that has been written behind the used part. */
  lemma LinkedFront(data: seq<Byte>, nodes: seq<Node>, used: nat, next: nat, body: seq<Byte>)
    requires Laid(data, nodes) && Within(nodes, used) && used < NIL && next < 0x1_0000 && |body| >= 4
    requires LinkAt(data, used, next) && LinkAt(data, used + 2, NIL) && NodeAt(data, Node(used, body))
    requires nodes != [] && next == nodes[0].off && next + 4 <= used <= |data|
    ensures var r := Patch(data, next + 2, Le16(used));
      && Laid(r, nodes) && KeptBut(data, r, used, next + 2) && NodeAt(r, Node(used, body))
      && LinkAt(r, used, next) && LinkAt(r, used + 2, NIL) && Linked(r, Node(used, body), nodes[0])
  {
    hide Laid, Patch, Le16, At, KeptBut, Clear;
    var r := Patch(data, next + 2, Le16(used));
    ClearEnds(data, nodes);
    PatchKept(data, next + 2, Le16(used), used, next + 2);
    LaidKept(data, r, used, next + 2, nodes);
    PatchApart(data, next + 2, Le16(used), used, Le16(next));
    PatchApart(data, next + 2, Le16(used), used + 2, Le16(NIL));
    PatchApart(data, next + 2, Le16(used), used + 4, body);
  }

  /** An item written behind the used part joins the list at its front. */
  lemma Prepended(data: seq<Byte>, nodes: seq<Node>, used: nat, next: nat, body: seq<Byte>)
    requires Laid(data, nodes) && Within(nodes, used) && used < NIL && next < 0x1_0000 && |body| >= 4
    requires At(data, used, Written(next, NIL, body))
    requires nodes != [] ==> next == nodes[0].off && next + 4 <= used
    ensures var r := if nodes == [] then data else Patch(data, next + 2, Le16(used));
      && Laid(r, [Node(used, body)] + nodes) && Within([Node(used, body)] + nodes, used + 4 + |body|)
      && LinkAt(r, used, next) && LinkAt(r, used + 2, NIL) && KeptBut(data, r, used, next + 2)
  {
    assert used <= |data|;
    hide Laid, Patch, Le16, Written, At, KeptBut;
    var nd := Node(used, body);
    WrittenParts(data, used, next, NIL, body);
    if nodes == [] {
      NothingWritten(data, used, next + 2);
      LaidFront(data, nodes, nd);
    } else {
      LinkedFront(data, nodes, used, next, body);
      LaidFront(Patch(data, next + 2, Le16(used)), nodes, nd);
    }
  }

  /** An array that starts like another one, with the links that lead out of the list cleared. */
  lemma Copied(data: seq<Byte>, copy: seq<Byte>, nodes: seq<Node>, used: nat)
    requires Laid(data, nodes) && Within(nodes, used) && nodes != []
    requires used <= |copy| && KeptBut(data, copy, used, used)
    requires nodes[0].off + 4 <= used && nodes[|nodes| - 1].off + 4 <= used
    ensures Laid(Patch(Patch(copy, nodes[|nodes| - 1].off, Le16(NIL)), nodes[0].off + 2, Le16(NIL)), nodes)
  {
    hide Laid, Patch, Le16, KeptBut;
    var a, b := nodes[|nodes| - 1].off, nodes[0].off + 2;
    ClearEnds(data, nodes);
    ClearBehind(nodes, used, used);
    LaidKept(data, copy, used, used, nodes);
    PatchKept(copy, a, Le16(NIL), used, a);
    var copy2 := Patch(copy, a, Le16(NIL));
    LaidKept(copy, copy2, used, a, nodes);
    PatchKept(copy2, b, Le16(NIL), used, b);
    LaidKept(copy2, Patch(copy2, b, Le16(NIL)), used, b, nodes);
  }

  // ----- The last node -----

  function BodySet(nodes: seq<Node>, body: seq<Byte>): seq<Node>
    requires nodes != []
  {
    nodes[|nodes| - 1 := nodes[|nodes| - 1].(body := body)]
  }

  /** The last node is written anew in its place, over bytes that no other node uses. */
  lemma LaidReplace(data: seq<Byte>, nodes: seq<Node>, next: nat, prev: nat, body: seq<Byte>)
    requires Laid(data, nodes) && nodes != [] && |body| >= 4 && next < 0x1_0000 && prev < 0x1_0000
    requires |nodes| > 1 ==> prev == nodes[|nodes| - 2].off
    requires nodes[|nodes| - 1].off + 4 + |body| <= |data|
    requires forall k :: 0 <= k < |nodes| - 1 ==>
      End(nodes[k]) <= nodes[|nodes| - 1].off || nodes[|nodes| - 1].off + 4 + |body| <= nodes[k].off
    ensures Laid(Patch(data, nodes[|nodes| - 1].off, Written(next, prev, body)), BodySet(nodes, body))
  {
    hide Patch, Written, At, Le16;
    var t := |nodes| - 1;
    var off, s := nodes[t].off, Written(next, prev, body);
    var r, nodes2 := Patch(data, off, s), BodySet(nodes, body);
    WrittenParts(r, off, next, prev, body);
    forall k | 0 <= k < |nodes2|
      ensures NodeAt(r, nodes2[k])
    {
      if k < t {
        assert NodeAt(data, nodes[k]);
        PatchApart(data, off, s, nodes[k].off + 4, nodes[k].body);
      }
    }
    forall i, j | 0 <= i < j < |nodes2|
      ensures Apart(nodes2[i], nodes2[j])
    {
      assert Apart(nodes[i], nodes[j]);
    }
    forall k | 0 <= k < |nodes2| - 1
      ensures Linked(r, nodes2[k], nodes2[k + 1])
    {
      assert Linked(data, nodes[k], nodes[k + 1]) && NodeAt(data, nodes[k]);
      PatchApart(data, off, s, nodes[k].off, Le16(nodes[k + 1].off));
      if k + 1 < t {
        assert NodeAt(data, nodes[k + 1]);
        PatchApart(data, off, s, nodes[k + 1].off + 2, Le16(nodes[k].off));
      }
    }
  }

  /** No node reaches into the bytes behind the last one: it is no longer than before, or it is the last one in
      the used part. */
  lemma FreeBehind(data: seq<Byte>, nodes: seq<Node>, used: nat, n: nat)
    requires Laid(data, nodes) && nodes != [] && Within(nodes[..|nodes| - 1], used)
    requires n <= 4 + |nodes[|nodes| - 1].body| || End(nodes[|nodes| - 1]) == used
    ensures forall k :: 0 <= k < |nodes| - 1 ==>
      End(nodes[k]) <= nodes[|nodes| - 1].off || nodes[|nodes| - 1].off + n <= nodes[k].off
  {
    hide NodeAt, AllLinked;
    forall k | 0 <= k < |nodes| - 1
      ensures End(nodes[k]) <= nodes[|nodes| - 1].off || nodes[|nodes| - 1].off + n <= nodes[k].off
    {
      assert nodes[k] == nodes[..|nodes| - 1][k];
      assert Apart(nodes[k], nodes[|nodes| - 1]) && End(nodes[k]) <= used;
    }
  }

  /** The last node less its last d bytes. */
  function Stub(nodes: seq<Node>, d: nat): seq<Node>
    requires nodes != [] && d <= |nodes[|nodes| - 1].body|
  {
    BodySet(nodes, nodes[|nodes| - 1].body[..|nodes[|nodes| - 1].body| - d])
  }

  /** Cutting back a node that reaches d bytes beyond the used part leaves a list within the used part. */
  lemma StubLaid(data: seq<Byte>, nodes: seq<Node>, used: nat, d: nat)
    requires Laid(data, nodes) && nodes != [] && Within(nodes[..|nodes| - 1], used)
    requires End(nodes[|nodes| - 1]) == used + d && d + 4 <= |nodes[|nodes| - 1].body|
    ensures Laid(data, Stub(nodes, d)) && Within(Stub(nodes, d), used)
  {
    hide Linked, Apart;
    var t, s := |nodes| - 1, Stub(nodes, d);
    forall k | 0 <= k < |s|
      ensures NodeAt(data, s[k]) && End(s[k]) <= used
    {
      if k == t {
        ShortNode(data, nodes[t], d);
      } else {
        assert NodeAt(data, nodes[k]) && nodes[..t][k] == nodes[k];
      }
    }
    forall i, j | 0 <= i < j < |s|
      ensures Apart(s[i], s[j])
    {
      ShortApart(nodes[i], nodes[j], s[j]);
    }
    SameLinks(data, nodes, s);
  }

  lemma ShortNode(data: seq<Byte>, nd: Node, d: nat)
    requires NodeAt(data, nd) && d + 4 <= |nd.body|
    ensures NodeAt(data, nd.(body := nd.body[..|nd.body| - d]))
  {
    hide At;
    var n := |nd.body| - d;
    assert nd.body == nd.body[..n] + nd.body[n..];
    AtParts(data, nd.off + 4, nd.body[..n], nd.body[n..]);
  }

  lemma ShortApart(a: Node, b: Node, c: Node)
    requires Apart(a, b) && c.off == b.off && |c.body| <= |b.body|
    ensures Apart(a, c)
  {
  }

  /** Links depend on offsets alone. */
  lemma SameLinks(data: seq<Byte>, a: seq<Node>, b: seq<Node>)
    requires AllLinked(data, a) && |b| == |a| && forall k :: 0 <= k < |a| ==> b[k].off == a[k].off
    ensures AllLinked(data, b)
  {
    hide LinkAt;
    forall k | 0 <= k < |b| - 1
      ensures Linked(data, b[k], b[k + 1])
    {
      assert Linked(data, a[k], a[k + 1]);
    }
  }

  /** The list is still chained when node t is taken together with the first d of the bytes that follow it. */
  lemma LongChained(data: seq<Byte>, nodes: seq<Node>, t: nat, d: nat, bytes: seq<Byte>)
    requires Laid(data, nodes) && t < |nodes| && d <= |bytes| && At(data, End(nodes[t]), bytes)
    ensures Chained(data, nodes[t := nodes[t].(body := nodes[t].body + bytes[..d])])
  {
    hide At, Linked;
    LaidIsChained(data, nodes);
    var r := nodes[t := nodes[t].(body := nodes[t].body + bytes[..d])];
    assert bytes == bytes[..d] + bytes[d..] && NodeAt(data, nodes[t]);
    AtParts(data, End(nodes[t]), bytes[..d], bytes[d..]);
    AtJoined(data, nodes[t].off + 4, nodes[t].body, bytes[..d]);
    SameLinks(data, nodes, r);
  }
}
