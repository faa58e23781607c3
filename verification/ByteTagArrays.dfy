/** The arrays of byte tags that tag lists share, and what each list sees. */
module ByteTagArrays {
  import opened ByteStrings
  import opened Sharing

  type DataId = int
  type ListId = int

  const NONE: DataId := 0

  /** A tag on the bytes from start to end. */
  datatype Entry = Entry(tid: nat, data: seq<Byte>, start: int, end: int)

  /** An array of size bytes; its items are those that some list uses or has used. */
  datatype TagArray = TagArray(count: nat, size: nat, items: seq<Entry>)

  /** A list uses a prefix of its array; offsets are stored less the adjustment.  The least start and the
      greatest end bound those stored. */
  datatype TagList = TagList(minStart: int, maxEnd: int, adjustment: int, used: nat, data: DataId)

  datatype Mem = Mem(datas: map<DataId, TagArray>, lists: map<ListId, TagList>)

  function Shift(e: Entry, delta: int): Entry {
    e.(start := e.start + delta, end := e.end + delta)
  }

  function Shifted(items: seq<Entry>, delta: int): (r: seq<Entry>)
    ensures |r| == |items|
    ensures forall k :: 0 <= k < |items| ==> r[k] == Shift(items[k], delta)
  {
    seq(|items|, k requires 0 <= k < |items| => Shift(items[k], delta))
  }

  ghost predicate Bounded(tl: TagList, items: seq<Entry>) {
    forall k :: 0 <= k < |items| ==> tl.minStart <= items[k].start && items[k].end <= tl.maxEnd
  }

  ghost predicate ListOk(datas: map<DataId, TagArray>, tl: TagList) {
    if tl.data == NONE then tl.used == 0
    else tl.data in datas && tl.used <= |datas[tl.data].items| && Bounded(tl, datas[tl.data].items[..tl.used])
  }

  /** What a list holds, at actual offsets. */
  ghost function Holds(datas: map<DataId, TagArray>, tl: TagList): seq<Entry>
    requires ListOk(datas, tl)
  {
    if tl.data == NONE then [] else Shifted(datas[tl.data].items[..tl.used], tl.adjustment)
  }

  ghost function UsesOf(m: Mem): (uses: map<int, int>)
    ensures uses.Keys == m.lists.Keys
    ensures forall l :: l in m.lists ==> uses[l] == m.lists[l].data
  {
    map l | l in m.lists :: m.lists[l].data
  }

  ghost predicate ListsOk(m: Mem) {
    forall l :: l in m.lists ==> ListOk(m.datas, m.lists[l])
  }

  ghost predicate CountsMatch(m: Mem) {
    NONE !in m.datas && forall d :: d in m.datas ==> m.datas[d].count == |Users(UsesOf(m), d)|
  }

  ghost predicate AllUsed(m: Mem, spare: DataId) {
    forall d :: d in m.datas && d != spare ==> m.datas[d].count > 0
  }

  ghost predicate Wf(m: Mem) {
    ListsOk(m) && CountsMatch(m) && AllUsed(m, NONE)
  }

  type Views = map<ListId, seq<Entry>>

  ghost function View(m: Mem): (v: Views)
    requires ListsOk(m)
    ensures v.Keys == m.lists.Keys
    ensures forall l :: l in m.lists ==> v[l] == Holds(m.datas, m.lists[l])
  {
    map l | l in m.lists :: Holds(m.datas, m.lists[l])
  }

  // ----- Moves -----

  function Release(datas: map<DataId, TagArray>, d: DataId): map<DataId, TagArray>
    requires d in datas ==> datas[d].count > 0
  {
    if d !in datas then datas
    else if datas[d].count == 1 then datas - {d}
    else datas[d := datas[d].(count := datas[d].count - 1)]
  }

  function Retain(datas: map<DataId, TagArray>, d: DataId): map<DataId, TagArray> {
    if d !in datas then datas else datas[d := datas[d].(count := datas[d].count + 1)]
  }

  function DataOf(m: Mem, l: ListId): DataId {
    if l in m.lists then m.lists[l].data else NONE
  }

  /** List l, new or not, comes to be tl. */
  function Place(m: Mem, l: ListId, tl: TagList): Mem
    requires DataOf(m, l) in m.datas ==> m.datas[DataOf(m, l)].count > 0
  {
    if DataOf(m, l) == tl.data then m.(lists := m.lists[l := tl])
    else Mem(Retain(Release(m.datas, DataOf(m, l)), tl.data), m.lists[l := tl])
  }

  ghost predicate Placing(m: Mem, l: ListId, tl: TagList, m2: Mem) {
    && ListsOk(m) && CountsMatch(m) && AllUsed(m, tl.data) && ListOk(m.datas, tl)
    && (DataOf(m, l) in m.datas ==> m.datas[DataOf(m, l)].count > 0)
    && m2 == Place(m, l, tl)
  }

  lemma DataCounted(m: Mem, l: ListId)
    requires Wf(m)
    ensures DataOf(m, l) in m.datas ==> m.datas[DataOf(m, l)].count > 0
    ensures DataOf(m, l) != NONE ==> DataOf(m, l) in m.datas
  {
  }

  lemma PlaceDatas(m: Mem, l: ListId, tl: TagList, m2: Mem)
    requires Placing(m, l, tl, m2)
    ensures m2.lists == m.lists[l := tl] && NONE !in m2.datas
    ensures forall d :: d in m2.datas ==> d in m.datas && m2.datas[d] == m.datas[d].(count := m2.datas[d].count)
    ensures forall d :: d in m2.datas ==>
      m2.datas[d].count == m.datas[d].count - One(DataOf(m, l) == d) + One(tl.data == d)
    ensures forall d :: d in m.datas && d !in m2.datas ==>
      d != tl.data && DataOf(m, l) == d && m.datas[d].count == 1
    ensures forall d :: d in m.datas && d != tl.data && DataOf(m, l) == d && m.datas[d].count == 1 ==> d !in m2.datas
  {
    hide ListsOk, Bounded;
  }

  lemma SameItems(datas: map<DataId, TagArray>, datas2: map<DataId, TagArray>, tl: TagList)
    requires ListOk(datas, tl)
    requires tl.data != NONE ==> tl.data in datas2 && datas2[tl.data].items == datas[tl.data].items
    ensures ListOk(datas2, tl) && Holds(datas2, tl) == Holds(datas, tl)
  {
  }

  lemma PlaceOne(m: Mem, l: ListId, tl: TagList, m2: Mem, x: ListId)
    requires Placing(m, l, tl, m2) && x in m2.lists
    ensures m2.lists == m.lists[l := tl] && ListOk(m2.datas, m2.lists[x])
    ensures ListOk(m.datas, m2.lists[x]) && Holds(m2.datas, m2.lists[x]) == Holds(m.datas, m2.lists[x])
  {
    hide Place, Bounded, Users;
    PlaceDatas(m, l, tl, m2);
    var d := m2.lists[x].data;
    if x != l && d != NONE && d !in m2.datas {
      TwoUsers(UsesOf(m), l, x, d);
    }
    SameItems(m.datas, m2.datas, m2.lists[x]);
  }

  lemma PlaceCounts(m: Mem, l: ListId, tl: TagList, m2: Mem)
    requires Placing(m, l, tl, m2)
    ensures CountsMatch(m2) && AllUsed(m2, NONE)
  {
    hide Place, ListsOk, Users;
    PlaceDatas(m, l, tl, m2);
    forall d | d in m2.datas
      ensures m2.datas[d].count == |Users(UsesOf(m2), d)| > 0
    {
      UsersMoved(UsesOf(m), UsesOf(m2), l, d);
      if d == tl.data {
        HasUser(UsesOf(m2), l, d);
      }
    }
  }

  lemma PlaceKeeps(m: Mem, l: ListId, tl: TagList, m2: Mem)
    requires Placing(m, l, tl, m2)
    ensures Wf(m2) && View(m2) == View(m)[l := Holds(m.datas, tl)]
  {
    hide Place, ListOk, CountsMatch, Holds, AllUsed;
    forall x | x in m2.lists
      ensures ListOk(m2.datas, m2.lists[x])
      ensures ListOk(m.datas, m2.lists[x]) && Holds(m2.datas, m2.lists[x]) == Holds(m.datas, m2.lists[x])
    {
      PlaceOne(m, l, tl, m2, x);
    }
    PlaceCounts(m, l, tl, m2);
    PlaceDatas(m, l, tl, m2);
  }

  /** A new list without tags. */
  lemma NewKeeps(m: Mem, l: ListId, tl: TagList)
    requires Wf(m) && tl.data == NONE && tl.used == 0
    ensures DataOf(m, l) in m.datas ==> m.datas[DataOf(m, l)].count > 0
    ensures Wf(Place(m, l, tl)) && View(Place(m, l, tl)) == View(m)[l := []]
  {
    hide Place, Users;
    DataCounted(m, l);
    PlaceKeeps(m, l, tl, Place(m, l, tl));
  }

  /** Sharing the array of another list. */
  lemma ShareKeeps(m: Mem, l: ListId, o: ListId)
    requires Wf(m) && o in m.lists
    ensures DataOf(m, l) in m.datas ==> m.datas[DataOf(m, l)].count > 0
    ensures Wf(Place(m, l, m.lists[o])) && View(Place(m, l, m.lists[o])) == View(m)[l := View(m)[o]]
  {
    hide Place, Users, ListOk;
    DataCounted(m, l);
    PlaceKeeps(m, l, m.lists[o], Place(m, l, m.lists[o]));
  }

  /** New bounds or a new adjustment. */
  lemma RetuneKeeps(m: Mem, l: ListId, tl: TagList)
    requires Wf(m) && l in m.lists && ListOk(m.datas, tl) && tl.data == m.lists[l].data
    ensures DataOf(m, l) in m.datas ==> m.datas[DataOf(m, l)].count > 0
    ensures Wf(m.(lists := m.lists[l := tl])) && View(m.(lists := m.lists[l := tl])) == View(m)[l := Holds(m.datas, tl)]
  {
    hide Users, ListOk;
    DataCounted(m, l);
    PlaceKeeps(m, l, tl, m.(lists := m.lists[l := tl]));
  }

  /** Moving to an array of one's own. */
  lemma OwnKeeps(m: Mem, l: ListId, tl: TagList, d: TagArray)
    requires Wf(m) && tl.data !in m.datas && tl.data != NONE && d.count == 0 && ListOk(m.datas[tl.data := d], tl)
    ensures var m1 := m.(datas := m.datas[tl.data := d]);
      && (DataOf(m1, l) in m1.datas ==> m1.datas[DataOf(m1, l)].count > 0)
      && Wf(Place(m1, l, tl)) && View(Place(m1, l, tl)) == View(m)[l := Holds(m1.datas, tl)]
  {
    hide Place, Users, Bounded;
    var m1 := m.(datas := m.datas[tl.data := d]);
    SpareArray(m, tl.data, d, m1);
    DataCounted(m, l);
    PlaceKeeps(m1, l, tl, Place(m1, l, tl));
  }

  lemma SpareArray(m: Mem, n: DataId, d: TagArray, m1: Mem)
    requires Wf(m) && n !in m.datas && n != NONE && d.count == 0 && m1 == m.(datas := m.datas[n := d])
    ensures ListsOk(m1) && CountsMatch(m1) && AllUsed(m1, n) && View(m1) == View(m)
    ensures forall l :: l in m.lists ==> m.lists[l].data != n
  {
    hide Users, Bounded;
    assert UsesOf(m1) == UsesOf(m);
    NoUsers(UsesOf(m), n);
  }

  /** A list goes. */
  lemma DropKeeps(m: Mem, l: ListId)
    requires Wf(m) && l in m.lists
    ensures DataOf(m, l) in m.datas ==> m.datas[DataOf(m, l)].count > 0
    ensures var m2 := Mem(Release(m.datas, DataOf(m, l)), m.lists - {l});
      Wf(m2) && View(m2) == View(m) - {l}
  {
    hide Users, ListOk, Holds;
    DataCounted(m, l);
    var empty := m.lists[l].(data := NONE, used := 0);
    EmptyOk(m.datas, empty);
    var m1 := Place(m, l, empty);
    PlaceKeeps(m, l, empty, m1);
    var m2 := Mem(Release(m.datas, DataOf(m, l)), m.lists - {l});
    ReleaseIs(m, l, empty);
    forall d | d in m2.datas
      ensures m2.datas[d].count == |Users(UsesOf(m2), d)|
    {
      UsersMoved(UsesOf(m1), UsesOf(m2), l, d);
    }
    assert m2.datas == m1.datas && m2.lists == m1.lists - {l};
  }

  lemma ReleaseIs(m: Mem, l: ListId, tl: TagList)
    requires Wf(m) && l in m.lists && tl.data == NONE
    requires DataOf(m, l) in m.datas ==> m.datas[DataOf(m, l)].count > 0
    ensures Place(m, l, tl).datas == Release(m.datas, DataOf(m, l)) && Place(m, l, tl).lists == m.lists[l := tl]
    ensures NONE !in Release(m.datas, DataOf(m, l))
  {
    hide ListsOk, Users;
  }

  lemma EmptyOk(datas: map<DataId, TagArray>, tl: TagList)
    requires tl.data == NONE && tl.used == 0
    ensures ListOk(datas, tl)
  {
  }

  // ----- Appending in place -----

  /** The bounds of a list after storing e. */
  function Widened(tl: TagList, e: Entry): TagList {
    tl.(minStart := if e.start < tl.minStart then e.start else tl.minStart,
        maxEnd := if e.end > tl.maxEnd then e.end else tl.maxEnd)
  }

  lemma WidenedBounds(tl: TagList, items: seq<Entry>, e: Entry)
    requires Bounded(tl, items)
    ensures Bounded(Widened(tl, e), items + [e])
  {
  }

  ghost predicate Appending(m: Mem, l: ListId, e: Entry, m2: Mem) {
    && Wf(m) && l in m.lists && m.lists[l].data != NONE && m.lists[l].data in m.datas
    && var tl, d := m.lists[l], m.datas[m.lists[l].data];
    && tl.used <= |d.items| && (d.count == 1 || |d.items| == tl.used)
    && m2.datas == m.datas[tl.data := d.(items := d.items[..tl.used] + [e])]
    && m2.lists == m.lists[l := Widened(tl, e).(used := tl.used + 1)]
  }

  /** A list that shares the array and is not l sees the same items: either there is none, or none are
      overwritten. */
  lemma AppendOther(m: Mem, l: ListId, e: Entry, m2: Mem, x: ListId)
    requires Appending(m, l, e, m2) && x in m.lists && x != l
    ensures ListOk(m2.datas, m2.lists[x]) && Holds(m2.datas, m2.lists[x]) == Holds(m.datas, m.lists[x])
  {
    hide Users, Bounded;
    var d := m.lists[l].data;
    if m.lists[x].data == d {
      TwoUsers(UsesOf(m), l, x, d);
      var items := m.datas[d].items;
      assert items[..|items|] == items;
      assert (items + [e])[..m.lists[x].used] == items[..m.lists[x].used];
    }
  }

  lemma AppendOwn(m: Mem, l: ListId, e: Entry, m2: Mem)
    requires Appending(m, l, e, m2)
    ensures ListOk(m2.datas, m2.lists[l])
    ensures Holds(m2.datas, m2.lists[l]) == Holds(m.datas, m.lists[l]) + [Shift(e, m.lists[l].adjustment)]
  {
    hide Users, CountsMatch;
    var tl := m.lists[l];
    var items := m.datas[tl.data].items;
    WidenedBounds(tl, items[..tl.used], e);
    assert (items[..tl.used] + [e])[..tl.used + 1] == items[..tl.used] + [e];
  }

  lemma AppendKeeps(m: Mem, l: ListId, e: Entry, m2: Mem)
    requires Appending(m, l, e, m2)
    ensures Wf(m2) && View(m2) == View(m)[l := View(m)[l] + [Shift(e, m.lists[l].adjustment)]]
  {
    hide Users, ListOk, Holds;
    forall x | x in m.lists && x != l
      ensures ListOk(m2.datas, m2.lists[x]) && Holds(m2.datas, m2.lists[x]) == Holds(m.datas, m.lists[x])
    {
      AppendOther(m, l, e, m2, x);
    }
    AppendOwn(m, l, e, m2);
    assert UsesOf(m2) == UsesOf(m);
  }
}
