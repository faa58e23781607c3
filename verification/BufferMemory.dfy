/** Buffers that share storage: what each denotes, and when storage may be written. */
module BufferMemory {
  import opened ByteStrings
  import Sharing

  type DataId = int
  type BufId = int

  /** A storage of bytes.  The dirty area is the part that some buffer uses or has used. */
  datatype Data = Data(count: nat, dirtyStart: nat, dirtyEnd: nat, bytes: seq<Byte>)

  /** A buffer: real bytes, a run of zeros that take no storage, and real bytes again.
      Offsets past the zero area are virtual: they count the zeros. */
  datatype Buf = Buf(data: DataId, start: nat, zeroStart: nat, zeroEnd: nat, end: nat)

  datatype Mem = Mem(datas: map<DataId, Data>, bufs: map<BufId, Buf>)

  predicate Ordered(b: Buf) {
    b.start <= b.zeroStart <= b.zeroEnd <= b.end
  }

  function ZeroSize(b: Buf): nat
    requires Ordered(b)
  {
    b.zeroEnd - b.zeroStart
  }

  /** Where the real bytes of a buffer end in its storage. */
  function InternalEnd(b: Buf): nat
    requires Ordered(b)
  {
    b.end - (b.zeroEnd - b.zeroStart)
  }

  function InternalSize(b: Buf): nat
    requires Ordered(b)
  {
    b.zeroStart - b.start + (b.end - b.zeroEnd)
  }

  function Size(b: Buf): nat
    requires Ordered(b)
  {
    b.end - b.start
  }

  /** The state the source checks: offsets in order, within the dirty area and within the storage. */
  predicate Consistent(b: Buf, d: Data) {
    && Ordered(b) && d.dirtyStart <= b.start && b.end <= d.dirtyEnd
    && InternalEnd(b) <= |d.bytes|
  }

  /** The bytes a buffer denotes. */
  function Denotes(b: Buf, d: Data): (r: seq<Byte>)
    requires Consistent(b, d)
    ensures |r| == Size(b)
  {
    d.bytes[b.start..b.zeroStart] + Zeros(ZeroSize(b)) + d.bytes[b.zeroStart..InternalEnd(b)]
  }

  /** The byte at position i. */
  function ByteAt(b: Buf, d: Data, i: nat): Byte
    requires Consistent(b, d) && i < Size(b)
  {
    if b.start + i < b.zeroStart then d.bytes[b.start + i]
    else if b.start + i < b.zeroEnd then 0
    else d.bytes[b.start + i - ZeroSize(b)]
  }

  lemma DenotesAt(b: Buf, d: Data, i: nat)
    requires Consistent(b, d) && i < Size(b)
    ensures Denotes(b, d)[i] == ByteAt(b, d, i)
  {
  }

  predicate Uses(m: Mem, b: BufId, d: DataId) {
    b in m.bufs && m.bufs[b].data == d
  }

  ghost function Sharers(m: Mem, d: DataId): (r: set<BufId>)
    ensures forall b :: b in r <==> Uses(m, b, d)
  {
    Sharing.Users(UsesOf(m), d)
  }

  /** The storage that each buffer uses. */
  ghost function UsesOf(m: Mem): map<BufId, DataId> {
    map b | b in m.bufs :: m.bufs[b].data
  }

  /** A buffer that reaches the end of the dirty area has its real bytes reach at least as far as any other's. */
  predicate Leads(b: Buf, b2: Buf, d: Data) {
    Ordered(b) && Ordered(b2) && (b.end == d.dirtyEnd ==> InternalEnd(b2) <= InternalEnd(b))
  }

  ghost predicate BufsOk(m: Mem) {
    forall b :: b in m.bufs ==> m.bufs[b].data in m.datas && Consistent(m.bufs[b], m.datas[m.bufs[b].data])
  }

  ghost predicate LeadersOk(m: Mem) {
    forall b, b2 :: b in m.bufs && b2 in m.bufs && m.bufs[b2].data == m.bufs[b].data && m.bufs[b].data in m.datas ==>
      Leads(m.bufs[b], m.bufs[b2], m.datas[m.bufs[b].data])
  }

  /** Every storage is counted once per buffer that uses it, and is used. */
  ghost predicate CountsOk(m: Mem) {
    forall d :: d in m.datas ==> m.datas[d].count == |Sharers(m, d)| > 0
  }

  ghost predicate Wf(m: Mem) {
    BufsOk(m) && LeadersOk(m) && CountsOk(m)
  }

  ghost function Contents(m: Mem, b: BufId): seq<Byte>
    requires BufsOk(m) && b in m.bufs
  {
    Denotes(m.bufs[b], m.datas[m.bufs[b].data])
  }

  type Views = map<BufId, seq<Byte>>

  ghost function View(m: Mem): (v: Views)
    requires BufsOk(m)
    ensures v.Keys == m.bufs.Keys
    ensures forall b :: b in m.bufs ==> v[b] == Contents(m, b)
  {
    map b | b in m.bufs :: Contents(m, b)
  }

  // ----- Moves -----

  /** Buffer b gets new offsets in the same storage. */
  function Reshape(m: Mem, b: BufId, buf: Buf): Mem {
    m.(bufs := m.bufs[b := buf])
  }

  /** Buffer b gets new offsets and its storage a new dirty area. */
  function Stretch(m: Mem, b: BufId, buf: Buf, dirtyStart: nat, dirtyEnd: nat): Mem
    requires buf.data in m.datas
  {
    m.(bufs := m.bufs[b := buf],
       datas := m.datas[buf.data := m.datas[buf.data].(dirtyStart := dirtyStart, dirtyEnd := dirtyEnd)])
  }

  /** One buffer less uses storage d; it is freed when none is left. */
  function Release(m: Mem, d: DataId): Mem
    requires d in m.datas && m.datas[d].count > 0
  {
    if m.datas[d].count == 1 then m.(datas := m.datas - {d})
    else m.(datas := m.datas[d := m.datas[d].(count := m.datas[d].count - 1)])
  }

  /** One buffer more uses storage d. */
  function Retain(m: Mem, d: DataId): Mem
    requires d in m.datas
  {
    m.(datas := m.datas[d := m.datas[d].(count := m.datas[d].count + 1)])
  }

  /** From m to m2 buffer b has come to denote v and no other buffer has changed. */
  ghost predicate Moved(m: Mem, m2: Mem, b: BufId, v: seq<Byte>)
    requires Wf(m)
  {
    Wf(m2) && View(m2) == View(m)[b := v]
  }

  lemma CountedData(m: Mem, b: BufId)
    requires Wf(m) && b in m.bufs
    ensures m.bufs[b].data in m.datas && m.datas[m.bufs[b].data].count >= 1
    ensures Consistent(m.bufs[b], m.datas[m.bufs[b].data])
  {
  }

  /** A storage counted once has a single user. */
  lemma OnlyUser(m: Mem, b: BufId, b2: BufId)
    requires Wf(m) && b in m.bufs && b2 in m.bufs && m.bufs[b2].data == m.bufs[b].data
    requires m.bufs[b].data in m.datas && m.datas[m.bufs[b].data].count == 1
    ensures b2 == b
  {
    var s := Sharers(m, m.bufs[b].data);
    assert {b} <= s && |s - {b}| == 0;
    assert b2 !in s - {b};
  }

  /** When only buffer b changes storage, the number of users of d changes by what b does. */
  lemma SharersMoved(m: Mem, m2: Mem, b: BufId, d: DataId)
    requires forall x :: x != b ==> (Uses(m2, x, d) <==> Uses(m, x, d))
    ensures |Sharers(m2, d)| == |Sharers(m, d)| - Sharing.One(Uses(m, b, d)) + Sharing.One(Uses(m2, b, d))
  {
    forall x | x != b
      ensures Sharing.Uses(UsesOf(m2), x, d) <==> Sharing.Uses(UsesOf(m), x, d)
    {
      assert Uses(m2, x, d) <==> Uses(m, x, d);
    }
    Sharing.UsersMoved(UsesOf(m), UsesOf(m2), b, d);
  }

  lemma SharersSame(m: Mem, m2: Mem, d: DataId)
    requires forall b :: Uses(m2, b, d) <==> Uses(m, b, d)
    ensures |Sharers(m2, d)| == |Sharers(m, d)|
  {
    SharersMoved(m, m2, 0, d);
  }

  /** The storages keep their counts and the buffers their storages. */
  lemma CountsSame(m: Mem, m2: Mem)
    requires CountsOk(m) && m2.datas.Keys == m.datas.Keys && m2.bufs.Keys == m.bufs.Keys
    requires forall d :: d in m.datas ==> m2.datas[d].count == m.datas[d].count
    requires forall b :: b in m.bufs ==> m2.bufs[b].data == m.bufs[b].data
    ensures CountsOk(m2)
  {
    hide Sharers;
    forall d | d in m2.datas
      ensures m2.datas[d].count == |Sharers(m2, d)| > 0
    {
      SharersSame(m, m2, d);
    }
  }

  /** New offsets for b within the old ones, in the same storage. */
  lemma ReshapeKeeps(m: Mem, b: BufId, buf: Buf)
    requires Wf(m) && b in m.bufs && Ordered(buf) && Ordered(m.bufs[b]) && buf.data == m.bufs[b].data
    requires m.bufs[b].start <= buf.start && buf.end <= m.bufs[b].end
    requires InternalEnd(buf) <= InternalEnd(m.bufs[b])
    requires buf.end == m.bufs[b].end ==> InternalEnd(buf) == InternalEnd(m.bufs[b])
    requires buf.data in m.datas && Consistent(buf, m.datas[buf.data])
    ensures Moved(m, Reshape(m, b, buf), b, Denotes(buf, m.datas[buf.data]))
  {
    hide Denotes, CountsOk, Sharers;
    var m2 := Reshape(m, b, buf);
    CountsSame(m, m2);
    ReshapeLeads(m, b, buf, m2);
    assert View(m2) == View(m)[b := Denotes(buf, m.datas[buf.data])];
  }

  lemma ReshapeLeads(m: Mem, b: BufId, buf: Buf, m2: Mem)
    requires BufsOk(m) && LeadersOk(m)
    requires b in m.bufs && Ordered(buf) && Ordered(m.bufs[b]) && buf.data == m.bufs[b].data && buf.data in m.datas
    requires buf.end <= m.bufs[b].end && InternalEnd(buf) <= InternalEnd(m.bufs[b])
    requires buf.end == m.bufs[b].end ==> InternalEnd(buf) == InternalEnd(m.bufs[b])
    requires m2 == Reshape(m, b, buf)
    ensures LeadersOk(m2)
  {
    hide Denotes;
    forall x, y | x in m2.bufs && y in m2.bufs && m2.bufs[y].data == m2.bufs[x].data && m2.bufs[x].data in m2.datas
      ensures Leads(m2.bufs[x], m2.bufs[y], m2.datas[m2.bufs[x].data])
    {
      var d := m.datas[m.bufs[x].data];
      assert Leads(m.bufs[x], m.bufs[y], d);
      assert Consistent(m.bufs[x], d) && Consistent(m.bufs[y], d);
    }
  }

  // ----- Growing in place -----

  /** Buffer b grows at its start over bytes that no other buffer uses. */
  lemma StartGrows(m: Mem, b: BufId, n: nat, m2: Mem)
    requires Wf(m) && b in m.bufs && m.bufs[b].data in m.datas && n <= m.bufs[b].start
    requires var buf, d := m.bufs[b], m.datas[m.bufs[b].data];
      && (d.count == 1 || buf.start == d.dirtyStart)
      && m2 == Stretch(m, b, buf.(start := buf.start - n), buf.start - n, d.dirtyEnd)
    ensures Wf(m2) && b in m2.bufs && View(m2) == View(m)[b := Contents(m2, b)]
    ensures |Contents(m2, b)| == n + |Contents(m, b)| && Contents(m2, b)[n..] == Contents(m, b)
  {
    hide CountsOk, Sharers, LeadersOk, Denotes, Leads, Consistent, View, InternalEnd;
    CountsSame(m, m2);
    CountedData(m, b);
    StartGrowsBufs(m, b, n, m2);
    StretchLeads(m, b, n, 0, m2);
    StartGrowsDenotes(m.bufs[b], m.datas[m.bufs[b].data], n);
    StretchOthers(m, b, m2);
  }

  lemma StartGrowsBufs(m: Mem, b: BufId, n: nat, m2: Mem)
    requires Wf(m) && b in m.bufs && m.bufs[b].data in m.datas && n <= m.bufs[b].start
    requires var buf, d := m.bufs[b], m.datas[m.bufs[b].data];
      && (d.count == 1 || buf.start == d.dirtyStart)
      && m2 == Stretch(m, b, buf.(start := buf.start - n), buf.start - n, d.dirtyEnd)
    ensures BufsOk(m2)
  {
    hide CountsOk, Sharers, LeadersOk;
    forall x | x in m2.bufs
      ensures m2.bufs[x].data in m2.datas && Consistent(m2.bufs[x], m2.datas[m2.bufs[x].data])
    {
      CountedData(m, x);
      if x != b && m.bufs[x].data == m.bufs[b].data && m.datas[m.bufs[b].data].count == 1 {
        OnlyUser(m, b, x);
      }
    }
  }

  lemma StartGrowsDenotes(b: Buf, d: Data, n: nat)
    requires Consistent(b, d) && n <= b.start
    ensures var b2, d2 := b.(start := b.start - n), d.(dirtyStart := b.start - n);
      Consistent(b2, d2) && Denotes(b2, d2)[n..] == Denotes(b, d)
  {
  }

  /** Buffer b grows at its end over bytes that no other buffer uses. */
  lemma EndGrows(m: Mem, b: BufId, n: nat, m2: Mem)
    requires Wf(m) && b in m.bufs && m.bufs[b].data in m.datas && Ordered(m.bufs[b])
    requires var buf, d := m.bufs[b], m.datas[m.bufs[b].data];
      && InternalEnd(buf) + n <= |d.bytes|
      && (d.count == 1 || buf.end == d.dirtyEnd)
      && m2 == Stretch(m, b, buf.(end := buf.end + n), d.dirtyStart, buf.end + n)
    ensures Wf(m2) && b in m2.bufs && View(m2) == View(m)[b := Contents(m2, b)]
    ensures |Contents(m2, b)| == |Contents(m, b)| + n && Contents(m2, b)[..|Contents(m, b)|] == Contents(m, b)
  {
    hide CountsOk, Sharers, LeadersOk, Denotes, Leads, Consistent, View, InternalEnd;
    CountsSame(m, m2);
    CountedData(m, b);
    EndGrowsBufs(m, b, n, m2);
    StretchLeads(m, b, 0, n, m2);
    EndGrowsDenotes(m.bufs[b], m.datas[m.bufs[b].data], n);
    StretchOthers(m, b, m2);
  }

  lemma EndGrowsBufs(m: Mem, b: BufId, n: nat, m2: Mem)
    requires Wf(m) && b in m.bufs && m.bufs[b].data in m.datas && Ordered(m.bufs[b])
    requires var buf, d := m.bufs[b], m.datas[m.bufs[b].data];
      && InternalEnd(buf) + n <= |d.bytes|
      && (d.count == 1 || buf.end == d.dirtyEnd)
      && m2 == Stretch(m, b, buf.(end := buf.end + n), d.dirtyStart, buf.end + n)
    ensures BufsOk(m2)
  {
    hide CountsOk, Sharers, LeadersOk;
    forall x | x in m2.bufs
      ensures m2.bufs[x].data in m2.datas && Consistent(m2.bufs[x], m2.datas[m2.bufs[x].data])
    {
      CountedData(m, x);
      if x != b && m.bufs[x].data == m.bufs[b].data && m.datas[m.bufs[b].data].count == 1 {
        OnlyUser(m, b, x);
      }
    }
  }

  lemma EndGrowsDenotes(b: Buf, d: Data, n: nat)
    requires Consistent(b, d) && InternalEnd(b) + n <= |d.bytes|
    ensures var b2, d2 := b.(end := b.end + n), d.(dirtyEnd := b.end + n);
      Consistent(b2, d2) && Denotes(b2, d2)[..Size(b)] == Denotes(b, d)
  {
  }

  /** After growing by s at the start and n at the end, the leader of a storage still leads. */
  lemma StretchLeads(m: Mem, b: BufId, s: nat, n: nat, m2: Mem)
    requires Wf(m) && b in m.bufs && m.bufs[b].data in m.datas && Ordered(m.bufs[b]) && s <= m.bufs[b].start
    requires var buf, d := m.bufs[b], m.datas[m.bufs[b].data];
      && (n > 0 ==> d.count == 1 || buf.end == d.dirtyEnd)
      && m2.bufs == m.bufs[b := buf.(start := buf.start - s, end := buf.end + n)]
      && m2.datas.Keys == m.datas.Keys
      && (forall x :: x in m.datas && x != buf.data ==> m2.datas[x] == m.datas[x])
      && (n > 0 ==> m2.datas[buf.data].dirtyEnd == buf.end + n)
      && (n == 0 ==> m2.datas[buf.data].dirtyEnd == d.dirtyEnd || d.count == 1)
    ensures LeadersOk(m2)
  {
    hide CountsOk, Sharers, Consistent;
    forall x, y | x in m2.bufs && y in m2.bufs && m2.bufs[y].data == m2.bufs[x].data && m2.bufs[x].data in m2.datas
      ensures Leads(m2.bufs[x], m2.bufs[y], m2.datas[m2.bufs[x].data])
    {
      CountedData(m, x);
      CountedData(m, y);
      assert Leads(m.bufs[x], m.bufs[y], m.datas[m.bufs[x].data]);
      assert Leads(m.bufs[b], m.bufs[y], m.datas[m.bufs[b].data]) || m.bufs[y].data != m.bufs[b].data;
      if m.bufs[x].data == m.bufs[b].data && m.datas[m.bufs[b].data].count == 1 {
        OnlyUser(m, b, x);
        OnlyUser(m, b, y);
      }
    }
  }

  lemma SameBytes(b: Buf, d: Data, d2: Data)
    requires Consistent(b, d) && Consistent(b, d2) && d2.bytes == d.bytes
    ensures Denotes(b, d2) == Denotes(b, d)
  {
  }

  /** Dirty areas and counts do not matter to what buffers denote. */
  lemma StretchOthers(m: Mem, b: BufId, m2: Mem)
    requires BufsOk(m) && BufsOk(m2) && b in m2.bufs && m2.bufs.Keys == m.bufs.Keys + {b}
    requires forall x :: x in m.bufs && x != b ==> m2.bufs[x] == m.bufs[x]
    requires forall d :: d in m.datas && d in m2.datas ==> m2.datas[d].bytes == m.datas[d].bytes
    ensures View(m2) == View(m)[b := Contents(m2, b)]
  {
    hide Denotes, Consistent;
    forall x | x in m.bufs && x != b
      ensures Contents(m2, x) == Contents(m, x)
    {
      SameBytes(m.bufs[x], m.datas[m.bufs[x].data], m2.datas[m.bufs[x].data]);
    }
    assert View(m2).Keys == View(m)[b := Contents(m2, b)].Keys;
  }

  // ----- Changing storage -----

  /** Buffer b, new or not, comes to be buf; the storage it used is released, the one it uses retained. */
  function Place(m: Mem, b: BufId, buf: Buf): Mem
    requires buf.data in m.datas
    requires b in m.bufs ==> m.bufs[b].data in m.datas && m.datas[m.bufs[b].data].count > 0
  {
    if b in m.bufs && m.bufs[b].data == buf.data then m.(bufs := m.bufs[b := buf])
    else Retain(if b in m.bufs then Release(m, m.bufs[b].data) else m, buf.data).(bufs := m.bufs[b := buf])
  }

  ghost predicate CountsMatch(m: Mem) {
    forall d :: d in m.datas ==> m.datas[d].count == |Sharers(m, d)|
  }

  /** Well formed up to a storage that may have no user yet. */
  ghost predicate Nearly(m: Mem, spare: DataId) {
    && BufsOk(m) && LeadersOk(m) && CountsMatch(m)
    && forall d :: d in m.datas && d != spare ==> m.datas[d].count > 0
  }

  lemma HasSharer(m: Mem, d: DataId, b: BufId)
    requires Uses(m, b, d)
    ensures |Sharers(m, d)| > 0
  {
    Sharing.HasUser(UsesOf(m), b, d);
  }

  lemma TwoSharers(m: Mem, d: DataId, b: BufId, x: BufId)
    requires Uses(m, b, d) && Uses(m, x, d) && x != b
    ensures |Sharers(m, d)| > 1
  {
    Sharing.TwoUsers(UsesOf(m), b, x, d);
  }

  ghost predicate Placing(m: Mem, b: BufId, buf: Buf, m2: Mem) {
    && Nearly(m, buf.data) && buf.data in m.datas && Consistent(buf, m.datas[buf.data])
    && (b in m.bufs ==> m.bufs[b].data in m.datas && m.datas[m.bufs[b].data].count > 0)
    && (forall y :: y in m.bufs && y != b && m.bufs[y].data == buf.data ==>
          Leads(buf, m.bufs[y], m.datas[buf.data]) && Leads(m.bufs[y], buf, m.datas[buf.data]))
    && m2 == Place(m, b, buf)
  }

  lemma PlaceHeap(m: Mem, b: BufId, buf: Buf, m2: Mem)
    requires Placing(m, b, buf, m2)
    ensures m2.bufs == m.bufs[b := buf] && buf.data in m2.datas
    ensures forall d :: d in m2.datas ==> d in m.datas && m2.datas[d] == m.datas[d].(count := m2.datas[d].count)
    ensures forall d :: d in m2.datas ==>
      m2.datas[d].count == m.datas[d].count - Sharing.One(Uses(m, b, d)) + Sharing.One(d == buf.data)
    ensures forall d :: d in m.datas && d !in m2.datas ==>
      d != buf.data && Uses(m, b, d) && m.datas[d].count == 1
    ensures forall d :: d in m.datas && d != buf.data && Uses(m, b, d) && m.datas[d].count == 1 ==> d !in m2.datas
  {
    hide Nearly, Leads, Consistent;
  }

  lemma PlaceBufs(m: Mem, b: BufId, buf: Buf, m2: Mem)
    requires Placing(m, b, buf, m2)
    ensures BufsOk(m2)
  {
    hide Place, LeadersOk, Leads;
    PlaceHeap(m, b, buf, m2);
    forall x | x in m2.bufs
      ensures m2.bufs[x].data in m2.datas && Consistent(m2.bufs[x], m2.datas[m2.bufs[x].data])
    {
      if x != b && m.bufs[x].data !in m2.datas {
        TwoSharers(m, m.bufs[x].data, b, x);
      }
    }
  }

  lemma PlaceCounts(m: Mem, b: BufId, buf: Buf, m2: Mem)
    requires Placing(m, b, buf, m2)
    ensures CountsOk(m2)
  {
    hide Place, LeadersOk, Leads, Sharers, BufsOk;
    PlaceHeap(m, b, buf, m2);
    forall d | d in m2.datas
      ensures m2.datas[d].count == |Sharers(m2, d)| > 0
    {
      SharersMoved(m, m2, b, d);
      if d == buf.data {
        HasSharer(m2, d, b);
      }
    }
  }

  lemma PlaceLeads(m: Mem, b: BufId, buf: Buf, m2: Mem)
    requires Placing(m, b, buf, m2)
    ensures LeadersOk(m2)
  {
    hide Place, CountsMatch, Sharers;
    PlaceHeap(m, b, buf, m2);
    forall x, y | x in m2.bufs && y in m2.bufs && m2.bufs[y].data == m2.bufs[x].data && m2.bufs[x].data in m2.datas
      ensures Leads(m2.bufs[x], m2.bufs[y], m2.datas[m2.bufs[x].data])
    {
      if x != b && y != b {
        assert Leads(m.bufs[x], m.bufs[y], m.datas[m.bufs[x].data]);
      }
    }
  }

  lemma PlaceKeeps(m: Mem, b: BufId, buf: Buf, m2: Mem)
    requires Placing(m, b, buf, m2)
    ensures Wf(m2) && View(m2) == View(m)[b := Denotes(buf, m.datas[buf.data])]
  {
    hide Place, LeadersOk, Leads, CountsMatch, CountsOk, Denotes;
    PlaceBufs(m, b, buf, m2);
    PlaceCounts(m, b, buf, m2);
    PlaceLeads(m, b, buf, m2);
    PlaceHeap(m, b, buf, m2);
    StretchOthers(m, b, m2);
    SameBytes(buf, m.datas[buf.data], m2.datas[buf.data]);
  }

  /** Sharing what o denotes. */
  lemma ShareKeeps(m: Mem, b: BufId, o: BufId)
    requires Wf(m) && o in m.bufs && m.bufs[o].data in m.datas
    requires b in m.bufs ==> m.bufs[b].data in m.datas && m.datas[m.bufs[b].data].count > 0
    ensures Wf(Place(m, b, m.bufs[o])) && View(Place(m, b, m.bufs[o])) == View(m)[b := View(m)[o]]
  {
    hide Place, Denotes, Sharers, Consistent;
    assert Leads(m.bufs[o], m.bufs[o], m.datas[m.bufs[o].data]);
    PlaceKeeps(m, b, m.bufs[o], Place(m, b, m.bufs[o]));
  }

  /** A storage that no buffer uses yet. */
  function AddStorage(m: Mem, n: DataId, d: Data): Mem {
    m.(datas := m.datas[n := d])
  }

  /** Moving to a storage of one's own. */
  lemma OwnKeeps(m: Mem, b: BufId, buf: Buf, bytes: seq<Byte>)
    requires Wf(m) && buf.data !in m.datas && Ordered(buf) && InternalEnd(buf) <= |bytes|
    ensures var d := Data(0, buf.start, buf.end, bytes);
      var m1 := AddStorage(m, buf.data, d);
      && (b in m.bufs ==> m1.bufs[b].data in m1.datas && m1.datas[m1.bufs[b].data].count > 0)
      && Wf(Place(m1, b, buf)) && View(Place(m1, b, buf)) == View(m)[b := Denotes(buf, d)]
  {
    hide Place, Denotes, Sharers;
    var d := Data(0, buf.start, buf.end, bytes);
    var m1 := AddStorage(m, buf.data, d);
    AddStorageNearly(m, buf.data, d, m1);
    if b in m.bufs {
      CountedData(m, b);
    }
    PlaceKeeps(m1, b, buf, Place(m1, b, buf));
  }

  lemma AddStorageNearly(m: Mem, n: DataId, d: Data, m1: Mem)
    requires Wf(m) && n !in m.datas && d.count == 0 && m1 == AddStorage(m, n, d)
    ensures Nearly(m1, n) && View(m1) == View(m)
    ensures forall y :: y in m.bufs ==> m.bufs[y].data != n
  {
    hide Sharers, Denotes, Consistent, Ordered, Leads;
    forall x | x in m1.datas
      ensures m1.datas[x].count == |Sharers(m1, x)|
    {
      SharersSame(m, m1, x);
      if x == n {
        NoSharers(m1, n);
      }
    }
    assert forall x, y :: x in m.bufs && y in m.bufs && m.bufs[y].data == m.bufs[x].data ==>
      Leads(m.bufs[x], m.bufs[y], m.datas[m.bufs[x].data]);
  }

  lemma NoSharers(m: Mem, d: DataId)
    requires forall b :: !Uses(m, b, d)
    ensures |Sharers(m, d)| == 0
  {
    forall u | u in UsesOf(m)
      ensures UsesOf(m)[u] != d
    {
      assert !Uses(m, u, d);
    }
    Sharing.NoUsers(UsesOf(m), d);
  }

  /** A buffer goes. */
  function Drop(m: Mem, b: BufId): Mem
    requires b in m.bufs && m.bufs[b].data in m.datas && m.datas[m.bufs[b].data].count > 0
  {
    Release(m, m.bufs[b].data).(bufs := m.bufs - {b})
  }

  lemma DropBufs(m: Mem, b: BufId, m2: Mem)
    requires Wf(m) && b in m.bufs && m.bufs[b].data in m.datas && m.datas[m.bufs[b].data].count > 0
    requires m2 == Drop(m, b)
    ensures BufsOk(m2) && LeadersOk(m2)
  {
    hide Denotes, Sharers;
    forall x | x in m2.bufs
      ensures m2.bufs[x].data in m2.datas && Consistent(m2.bufs[x], m2.datas[m2.bufs[x].data])
    {
      if m.bufs[x].data == m.bufs[b].data {
        TwoSharers(m, m.bufs[x].data, b, x);
      }
    }
    forall x, y | x in m2.bufs && y in m2.bufs && m2.bufs[y].data == m2.bufs[x].data && m2.bufs[x].data in m2.datas
      ensures Leads(m2.bufs[x], m2.bufs[y], m2.datas[m2.bufs[x].data])
    {
      assert Leads(m.bufs[x], m.bufs[y], m.datas[m.bufs[x].data]);
    }
  }

  lemma DropKeeps(m: Mem, b: BufId, m2: Mem)
    requires Wf(m) && b in m.bufs && m.bufs[b].data in m.datas && m.datas[m.bufs[b].data].count > 0
    requires m2 == Drop(m, b)
    ensures Wf(m2) && View(m2) == View(m) - {b}
  {
    hide Denotes, Sharers, LeadersOk, Consistent;
    DropBufs(m, b, m2);
    forall x | x in m2.bufs
      ensures Contents(m2, x) == Contents(m, x)
    {
      SameBytes(m.bufs[x], m.datas[m.bufs[x].data], m2.datas[m.bufs[x].data]);
    }
    forall d | d in m2.datas
      ensures m2.datas[d].count == |Sharers(m2, d)| > 0
    {
      SharersMoved(m, m2, b, d);
    }
  }

  // ----- Writing -----

  /** Position i of a buffer holds a real byte. */
  predicate RealAt(b: Buf, i: nat) {
    Ordered(b) && i < Size(b) && !(b.zeroStart <= b.start + i < b.zeroEnd)
  }

  /** Where position i is stored. */
  function Offset(b: Buf, i: nat): (o: nat)
    requires RealAt(b, i)
    ensures b.start <= o < InternalEnd(b)
  {
    if b.start + i < b.zeroStart then b.start + i else b.start + i - ZeroSize(b)
  }

  predicate Covers(b: Buf, o: nat) {
    Ordered(b) && b.start <= o < InternalEnd(b)
  }

  /** No buffer but b uses byte o of its storage. */
  ghost predicate Exclusive(m: Mem, b: BufId, o: nat)
    requires b in m.bufs
  {
    forall x :: x in m.bufs && x != b && m.bufs[x].data == m.bufs[b].data ==> !Covers(m.bufs[x], o)
  }

  /** Positions i to i + n of b are stored where no other buffer looks. */
  ghost predicate Owned(m: Mem, b: BufId, i: nat, n: nat)
    requires b in m.bufs
  {
    forall j :: i <= j < i + n ==> RealAt(m.bufs[b], j) && Exclusive(m, b, Offset(m.bufs[b], j))
  }

  function Poke(m: Mem, d: DataId, o: nat, v: Byte): Mem
    requires d in m.datas && o < |m.datas[d].bytes|
  {
    m.(datas := m.datas[d := m.datas[d].(bytes := m.datas[d].bytes[o := v])])
  }

  lemma PokeDenotes(b: Buf, d: Data, i: nat, v: Byte)
    requires Consistent(b, d) && RealAt(b, i)
    ensures var d2 := d.(bytes := d.bytes[Offset(b, i) := v]);
      Consistent(b, d2) && Denotes(b, d2) == Denotes(b, d)[i := v]
  {
  }

  lemma PokeElsewhere(b: Buf, d: Data, o: nat, v: Byte)
    requires Consistent(b, d) && o < |d.bytes| && !Covers(b, o)
    ensures var d2 := d.(bytes := d.bytes[o := v]);
      Consistent(b, d2) && Denotes(b, d2) == Denotes(b, d)
  {
  }

  /** Writing a byte that no other buffer uses changes that byte of that buffer only. */
  lemma PokeKeeps(m: Mem, b: BufId, i: nat, v: Byte, m2: Mem)
    requires Wf(m) && b in m.bufs && RealAt(m.bufs[b], i) && Exclusive(m, b, Offset(m.bufs[b], i))
    requires m.bufs[b].data in m.datas && Offset(m.bufs[b], i) < |m.datas[m.bufs[b].data].bytes|
    requires m2 == Poke(m, m.bufs[b].data, Offset(m.bufs[b], i), v)
    ensures Wf(m2) && i < |View(m)[b]| && View(m2) == View(m)[b := Put(View(m)[b], i, v)]
  {
    hide Denotes, LeadersOk, Sharers, RealAt;
    var o := Offset(m.bufs[b], i);
    CountsSame(m, m2);
    PokeLeads(m, m2);
    PokeDenotes(m.bufs[b], m.datas[m.bufs[b].data], i, v);
    forall x | x in m2.bufs
      ensures m2.bufs[x].data in m2.datas && Consistent(m2.bufs[x], m2.datas[m2.bufs[x].data])
      ensures x != b ==> Denotes(m2.bufs[x], m2.datas[m2.bufs[x].data]) == Contents(m, x)
    {
      if x != b && m.bufs[x].data == m.bufs[b].data {
        PokeElsewhere(m.bufs[x], m.datas[m.bufs[x].data], o, v);
      }
    }
    PokeInside(m, b, i);
  }

  lemma PokeInside(m: Mem, b: BufId, i: nat)
    requires BufsOk(m) && b in m.bufs && RealAt(m.bufs[b], i)
    ensures i < |View(m)[b]|
  {
  }

  lemma PokeLeads(m: Mem, m2: Mem)
    requires LeadersOk(m) && m2.bufs == m.bufs && m2.datas.Keys == m.datas.Keys
    requires forall d :: d in m.datas ==> m2.datas[d].dirtyEnd == m.datas[d].dirtyEnd
    ensures LeadersOk(m2)
  {
    forall x, y | x in m2.bufs && y in m2.bufs && m2.bufs[y].data == m2.bufs[x].data && m2.bufs[x].data in m2.datas
      ensures Leads(m2.bufs[x], m2.bufs[y], m2.datas[m2.bufs[x].data])
    {
      assert Leads(m.bufs[x], m.bufs[y], m.datas[m.bufs[x].data]);
    }
  }

  // ----- What growing owns -----

  lemma StartIsOwned(m: Mem, b: BufId, n: nat, m2: Mem)
    requires Wf(m) && b in m.bufs && m.bufs[b].data in m.datas && n <= m.bufs[b].start
    requires var buf, d := m.bufs[b], m.datas[m.bufs[b].data];
      && (d.count == 1 || buf.start == d.dirtyStart)
      && m2 == Stretch(m, b, buf.(start := buf.start - n), buf.start - n, d.dirtyEnd)
    ensures b in m2.bufs && Owned(m2, b, 0, n)
  {
    hide Denotes, CountsOk, LeadersOk, Sharers;
    CountedData(m, b);
    forall j | 0 <= j < n
      ensures RealAt(m2.bufs[b], j) && Exclusive(m2, b, Offset(m2.bufs[b], j))
    {
      forall x | x in m2.bufs && x != b && m2.bufs[x].data == m2.bufs[b].data
        ensures !Covers(m2.bufs[x], Offset(m2.bufs[b], j))
      {
        CountedData(m, x);
        if m.datas[m.bufs[b].data].count == 1 {
          OnlyUser(m, b, x);
        }
      }
    }
  }

  lemma EndIsOwned(m: Mem, b: BufId, n: nat, m2: Mem)
    requires Wf(m) && b in m.bufs && m.bufs[b].data in m.datas && Ordered(m.bufs[b])
    requires var buf, d := m.bufs[b], m.datas[m.bufs[b].data];
      && InternalEnd(buf) + n <= |d.bytes|
      && (d.count == 1 || buf.end == d.dirtyEnd)
      && m2 == Stretch(m, b, buf.(end := buf.end + n), d.dirtyStart, buf.end + n)
    ensures b in m2.bufs && Owned(m2, b, Size(m.bufs[b]), n)
  {
    hide Denotes, CountsOk, LeadersOk, Sharers;
    CountedData(m, b);
    forall j | Size(m.bufs[b]) <= j < Size(m.bufs[b]) + n
      ensures RealAt(m2.bufs[b], j) && Exclusive(m2, b, Offset(m2.bufs[b], j))
    {
      forall x | x in m2.bufs && x != b && m2.bufs[x].data == m2.bufs[b].data
        ensures !Covers(m2.bufs[x], Offset(m2.bufs[b], j))
      {
        CountedData(m, x);
        Leading(m, b, x);
        if m.datas[m.bufs[b].data].count == 1 {
          OnlyUser(m, b, x);
        }
      }
    }
  }

  lemma Leading(m: Mem, b: BufId, x: BufId)
    requires Wf(m) && b in m.bufs && x in m.bufs && m.bufs[x].data == m.bufs[b].data && m.bufs[b].data in m.datas
    ensures Leads(m.bufs[b], m.bufs[x], m.datas[m.bufs[b].data])
  {
  }

  /** A storage used by one buffer is all that buffer's. */
  lemma SoleIsOwned(m: Mem, b: BufId, i: nat, n: nat)
    requires Wf(m) && b in m.bufs && m.bufs[b].data in m.datas && m.datas[m.bufs[b].data].count == 1
    requires forall j :: i <= j < i + n ==> RealAt(m.bufs[b], j)
    ensures Owned(m, b, i, n)
  {
    hide Denotes, CountsOk, LeadersOk, Sharers, RealAt;
    forall x | x in m.bufs && x != b
      ensures m.bufs[x].data != m.bufs[b].data
    {
      if m.bufs[x].data == m.bufs[b].data {
        OnlyUser(m, b, x);
      }
    }
  }
}
