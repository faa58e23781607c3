/** Byte tag lists: tags on ranges of bytes, in arrays shared by copies of a list.

A list sees a prefix of its array, and reads every offset through an adjustment
of its own, so that moving all tags costs one addition.  Adding a tag writes in
place when no other list can see the place, and into a copy otherwise.  The least
start and the greatest end are bounds that let the cutting of tags return early.
*/
module ByteTagLists {
  import opened Addresses
  import opened ByteStrings
  import opened ByteTagArrays
  import opened ByteTagLabels

  const INT32_MAX := 2147483647
  const INT32_MIN := -2147483648

  /** The bytes a tag takes in an array: a header of sixteen and its data. */
  function Space(items: seq<Entry>): nat {
    if items == [] then 0 else Space(items[..|items| - 1]) + 16 + |items[|items| - 1].data|
  }

  class ByteTagStore {
    var datas: map<DataId, TagArray>
    var lists: map<ListId, TagList>

    ghost function M(): Mem
      reads this
    {
      Mem(datas, lists)
    }

    ghost predicate Valid()
      reads this
    {
      Wf(M())
    }

    /** The tags of each list, at actual offsets. */
    ghost function Tags(): (v: Views)
      reads this
      requires Valid()
      ensures v.Keys == lists.Keys
    {
      View(M())
    }

    constructor ()
      ensures Valid() && Tags() == map[]
    {
      datas, lists := map[], map[];
    }

    method Construct(l: ListId)
      requires Valid() && l !in lists
      modifies this
      ensures Valid() && Tags() == old(Tags())[l := []]
    {
      hide Wf, View;
      var empty := TagList(INT32_MAX, INT32_MIN, 0, 0, NONE);
      NewKeeps(M(), l, empty);
      lists := lists[l := empty];
    }

    method CopyConstruct(l: ListId, o: ListId)
      requires Valid() && l !in lists && o in lists
      modifies this
      ensures Valid() && Tags() == old(Tags())[l := old(Tags())[o]]
    {
      hide Wf, View;
      ShareKeeps(M(), l, o);
      Counted(M(), o);
      lists := lists[l := lists[o]];
      if lists[l].data != NONE {
        var d := lists[l].data;
        datas := datas[d := datas[d].(count := datas[d].count + 1)];
      }
    }

    /** Give up an array. */
    method Deallocate(d: DataId)
      requires d in datas ==> datas[d].count > 0
      requires d != NONE ==> d in datas
      requires NONE !in datas
      modifies this`datas
      ensures datas == Release(old(datas), d)
    {
      if d != NONE {
        var count := datas[d].count - 1;
        if count == 0 {
          datas := datas - {d};
        } else {
          datas := datas[d := datas[d].(count := count)];
        }
      }
    }

    method Assign(l: ListId, o: ListId)
      requires Valid() && l in lists && o in lists
      modifies this
      ensures Valid() && Tags() == old(Tags())[l := old(Tags())[o]]
    {
      hide Wf, View;
      ShareKeeps(M(), l, o);
      Counted(M(), l);
      Counted(M(), o);
      if lists[l].data != lists[o].data {
        ReleasedThenKept(M(), l, o);
        Deallocate(lists[l].data);
        var d := lists[o].data;
        if d != NONE {
          datas := datas[d := datas[d].(count := datas[d].count + 1)];
        }
      }
      lists := lists[l := lists[o]];
    }

    method Destroy(l: ListId)
      requires Valid() && l in lists
      modifies this
      ensures Valid() && Tags() == old(Tags()) - {l}
    {
      hide Wf, View;
      DropKeeps(M(), l);
      Counted(M(), l);
      Deallocate(lists[l].data);
      lists := lists - {l};
    }

    /** Change stored offsets by delta, all at once. */
    method Adjust(l: ListId, delta: int)
      requires Valid() && l in lists
      modifies this`lists
      ensures Valid() && Tags() == old(Tags())[l := Shifted(old(Tags())[l], delta)]
    {
      hide Wf, View, Bounded;
      Adjusted(M(), l, delta);
      lists := lists[l := lists[l].(adjustment := lists[l].adjustment + delta)];
    }

    /** Put a tag on the bytes from start to end.  The array is written in place when this list is its only
        user, or uses all of it; otherwise the list takes a copy. */
    method Add(l: ListId, tag: Entry)
      requires Valid() && l in lists
      modifies this
      ensures Valid() && Tags() == old(Tags())[l := old(Tags())[l] + [tag]]
    {
      hide Wf, View, Bounded, Holds;
      ghost var was := Tags();
      MakeRoom(l, |tag.data|);
      ghost var m := M();
      var tl := lists[l];
      var e := Shift(tag, -tl.adjustment);
      Prefixed(m, l);
      datas := datas[tl.data := datas[tl.data].(items := datas[tl.data].items[..tl.used] + [e])];
      if e.start < tl.minStart {
        tl := tl.(minStart := e.start);
      }
      if e.end > tl.maxEnd {
        tl := tl.(maxEnd := e.end);
      }
      lists := lists[l := tl.(used := tl.used + 1)];
      AppendKeeps(m, l, e, M());
      assert Shift(e, tl.adjustment) == tag;
      assert Tags() == was[l := was[l] + [tag]];
    }

    /** Have list l use an array that may be written past its tags. */
    method MakeRoom(l: ListId, size: nat)
      requires Valid() && l in lists
      modifies this
      ensures Valid() && Tags() == old(Tags()) && l in lists && lists[l].data != NONE && lists[l].data in datas
      ensures lists[l].used <= |datas[lists[l].data].items|
      ensures datas[lists[l].data].count == 1 || |datas[lists[l].data].items| == lists[l].used
      ensures lists[l].adjustment == old(lists[l].adjustment)
    {
      hide Wf, View, Bounded, Holds, Space;
      Counted(M(), l);
      Prefixed(M(), l);
      var tl := lists[l];
      if tl.data == NONE {
        TakeOwn(l, [], 16 + size);
      } else {
        var d := datas[tl.data];
        var used := d.items[..tl.used];
        var spaceNeeded := Space(used) + 16 + size;
        if d.size < spaceNeeded || (d.count != 1 && |d.items| != tl.used) {
          TakeOwn(l, used, spaceNeeded);
        }
      }
    }

    /** Move list l to a new array with a copy of its tags. */
    method TakeOwn(l: ListId, used: seq<Entry>, size: nat)
      requires Valid() && l in lists
      requires if lists[l].data == NONE then used == []
               else lists[l].data in datas && lists[l].used <= |datas[lists[l].data].items| &&
                    used == datas[lists[l].data].items[..lists[l].used]
      modifies this
      ensures Valid() && Tags() == old(Tags()) && l in lists && lists[l].data != NONE && lists[l].data in datas
      ensures datas[lists[l].data].items == used && lists[l].used == |used| && datas[lists[l].data].count == 1
      ensures lists[l].adjustment == old(lists[l].adjustment)
    {
      hide Wf, View, Bounded;
      ghost var m := M();
      SomeIsFree(datas.Keys);
      var n :| n > 0 && n !in datas.Keys;
      Counted(m, l);
      // An array that was used before, or a new one, may have room to spare.
      assert size >= size;
      var room: nat :| room >= size;
      Owned(m, l, n, used, room);
      Deallocate(lists[l].data);
      datas := datas[n := TagArray(1, room, used)];
      lists := lists[l := lists[l].(data := n, used := |used|)];
    }

    /** Add the tags of list o that lie within the range of offsets. */
    method AddList(l: ListId, o: ListId)
      requires Valid() && l in lists && o in lists && l != o
      modifies this
      ensures Valid() && Tags() == old(Tags())[l := old(Tags())[l] + ClipAll(old(Tags())[o])]
    {
      hide Wf, View, Clip, Visible, ClipAll;
      ghost var was := Tags();
      ghost var sum := was[l];
      var n := lists[o].used;
      Length(M(), o);
      var k := 0;
      assert was[l := sum] == was;
      NoneClipped(was[l], was[o]);
      while k < n
        invariant 0 <= k <= n == |was[o]| && Valid() && l in lists && o in lists
        invariant Tags() == was[l := sum] && sum == was[l] + ClipAll(was[o][..k])
      {
        var e := Item(o, k);
        ClipNext(was[l], was[o], k);
        AddClipped(l, e);
        sum := sum + if Visible(e) then [Clip(e)] else [];
        k := k + 1;
      }
      assert was[o][..n] == was[o];
    }

    method AddClipped(l: ListId, e: Entry)
      requires Valid() && l in lists
      modifies this
      ensures Valid() && Tags() == old(Tags())[l := old(Tags())[l] + if Visible(e) then [Clip(e)] else []]
    {
      hide Wf, View, Clip, Visible;
      if Visible(e) {
        Add(l, Clip(e));
      } else {
        assert old(Tags())[l] + [] == old(Tags())[l];
        assert old(Tags())[l := old(Tags())[l]] == old(Tags());
      }
    }

    /** The tag at position k of a list. */
    method Item(l: ListId, k: nat) returns (e: Entry)
      requires Valid() && l in lists && k < |Tags()[l]|
      ensures e == Tags()[l][k]
    {
      Length(M(), l);
      var tl := lists[l];
      e := Shift(datas[tl.data].items[k], tl.adjustment);
    }

    /** Cut the tags that reach over offset off, where new bytes are to begin.  Nothing needs to be done when the
        greatest end shows that none does. */
    method AddAtEnd(l: ListId, off: int)
      requires Valid() && l in lists
      modifies this
      ensures Valid() && l in lists && Tags() == old(Tags())[l := Tags()[l]]
      ensures forall i :: 0 <= i < OFFSET_MAX ==>
        LabelsAt(Tags()[l], i) == if i < off then LabelsAt(old(Tags())[l], i) else []
    {
      hide Wf, View, LabelsAt, CutEnd;
      ghost var was := Tags();
      if lists[l].maxEnd <= off - lists[l].adjustment {
        EndsBelow(M(), l, off);
        forall i | 0 <= i < OFFSET_MAX
          ensures LabelsAt(was[l], i) == if i < off then LabelsAt(was[l], i) else []
        {
          if i >= off {
            NoneBeyond(was[l], off, i);
          }
        }
        return;
      }
      var t := CutCopy(l, off, true);
      Replace(l, t);
      forall i | 0 <= i < OFFSET_MAX
        ensures LabelsAt(Tags()[l], i) == if i < off then LabelsAt(was[l], i) else []
      {
        CutEndLabels(was[l], off, i);
      }
    }

    /** Cut the tags that reach below offset off, where new bytes end. */
    method AddAtStart(l: ListId, off: int)
      requires Valid() && l in lists
      modifies this
      ensures Valid() && l in lists && Tags() == old(Tags())[l := Tags()[l]]
      ensures forall i :: i < OFFSET_MAX && (0 <= i || i < off) ==>
        LabelsAt(Tags()[l], i) == if i < off then [] else LabelsAt(old(Tags())[l], i)
    {
      hide Wf, View, LabelsAt, CutStart;
      ghost var was := Tags();
      if lists[l].minStart >= off - lists[l].adjustment {
        StartsAbove(M(), l, off);
        forall i | i < OFFSET_MAX && (0 <= i || i < off)
          ensures LabelsAt(was[l], i) == if i < off then [] else LabelsAt(was[l], i)
        {
          if i < off {
            NoneBefore(was[l], off, i);
          }
        }
        return;
      }
      var t := CutCopy(l, off, false);
      Replace(l, t);
      forall i | i < OFFSET_MAX && (0 <= i || i < off)
        ensures LabelsAt(Tags()[l], i) == if i < off then [] else LabelsAt(was[l], i)
      {
        CutStartLabels(was[l], off, i);
      }
    }

    /** A new list with the tags of l cut at off.  (The bounds that are kept in l meanwhile do not matter: l is
        overwritten next.) */
    method CutCopy(l: ListId, off: int, atEnd: bool) returns (t: ListId)
      requires Valid() && l in lists
      modifies this
      ensures t !in old(lists) && Valid()
      ensures Tags() == old(Tags())[t := if atEnd then CutEnd(old(Tags())[l], off) else CutStart(old(Tags())[l], off)]
    {
      hide Wf, View, Clip, Visible, CutEnd, CutStart, EndCut, StartCut, Shifted, Bounded, Holds, Space;
      ghost var was := Tags();
      SomeIsFree(lists.Keys);
      t :| t > 0 && t !in lists.Keys;
      Construct(t);
      ghost var sum: seq<Entry> := [];
      var n := lists[l].used;
      Length(M(), l);
      var k := 0;
      NoneCut(was[l], off);
      while k < n
        invariant 0 <= k <= n == |was[l]| && Valid() && l in lists && t in lists
        invariant Tags() == was[t := sum]
        invariant sum == if atEnd then CutEnd(was[l][..k], off) else CutStart(was[l][..k], off)
      {
        var e := Item(l, k);
        CutNext(was[l], k, off);
        AddCut(t, e, off, atEnd);
        sum := sum + if atEnd then EndCut(e, off) else StartCut(e, off);
        k := k + 1;
      }
      assert was[l][..n] == was[l];
    }

    /** Add what is left of a tag when it is cut at off. */
    method AddCut(t: ListId, e: Entry, off: int, atEnd: bool)
      requires Valid() && t in lists
      modifies this
      ensures Valid()
      ensures Tags() == old(Tags())[t := old(Tags())[t] + if atEnd then EndCut(e, off) else StartCut(e, off)]
    {
      hide Wf, View;
      ghost var v := Tags()[t];
      assert Tags()[t := v] == Tags() && v + [] == v;
      if !Visible(e) {
        return;
      }
      var item := Clip(e);
      if atEnd {
        if item.start >= off {
          return;
        }
        if item.end > off {
          item := item.(end := off);
        }
      } else {
        if item.end <= off {
          return;
        }
        if item.start < off {
          item := item.(start := off);
        }
      }
      Add(t, item);
    }

    /** Assign a temporary list to l. */
    method Replace(l: ListId, t: ListId)
      requires Valid() && l in lists && t in lists && l != t
      modifies this
      ensures Valid() && Tags() == old(Tags())[l := old(Tags())[t]] - {t}
    {
      hide Wf, View;
      Assign(l, t);
      Destroy(t);
    }
  }

  /** What well-formed memory says about a list's array. */
  lemma Counted(m: Mem, l: ListId)
    requires Wf(m) && l in m.lists
    ensures NONE !in m.datas && (m.lists[l].data != NONE ==> m.lists[l].data in m.datas)
    ensures m.lists[l].data in m.datas ==> m.datas[m.lists[l].data].count > 0
  {
    DataCounted(m, l);
  }

  lemma Prefixed(m: Mem, l: ListId)
    requires Wf(m) && l in m.lists
    ensures m.lists[l].data == NONE ==> m.lists[l].used == 0
    ensures m.lists[l].data != NONE ==>
      m.lists[l].data in m.datas && m.lists[l].used <= |m.datas[m.lists[l].data].items|
  {
  }

  lemma ReleasedThenKept(m: Mem, l: ListId, o: ListId)
    requires Wf(m) && l in m.lists && o in m.lists && m.lists[l].data != m.lists[o].data
    ensures m.lists[l].data in m.datas ==> m.datas[m.lists[l].data].count > 0
    ensures m.lists[o].data != NONE ==> m.lists[o].data in Release(m.datas, m.lists[l].data)
    ensures NONE !in Release(m.datas, m.lists[l].data)
  {
    Counted(m, l);
    Counted(m, o);
  }

  lemma Adjusted(m: Mem, l: ListId, delta: int)
    requires Wf(m) && l in m.lists
    ensures var tl := m.lists[l].(adjustment := m.lists[l].adjustment + delta);
      var m2 := m.(lists := m.lists[l := tl]);
      Wf(m2) && View(m2) == View(m)[l := Shifted(View(m)[l], delta)]
  {
    var tl := m.lists[l].(adjustment := m.lists[l].adjustment + delta);
    SameBounds(m.datas, m.lists[l], tl);
    RetuneKeeps(m, l, tl);
    if tl.data != NONE {
      ShiftedTwice(m.datas[tl.data].items[..tl.used], m.lists[l].adjustment, delta);
    } else {
      assert Shifted([], delta) == [];
    }
  }

  lemma SameBounds(datas: map<DataId, TagArray>, tl: TagList, tl2: TagList)
    requires ListOk(datas, tl) && tl2 == tl.(adjustment := tl2.adjustment)
    ensures ListOk(datas, tl2)
  {
  }

  lemma ShiftedTwice(items: seq<Entry>, a: int, b: int)
    ensures Shifted(Shifted(items, a), b) == Shifted(items, a + b)
  {
  }

  /** Copying the tags of a list to an array of its own. */
  lemma Owned(m: Mem, l: ListId, n: DataId, used: seq<Entry>, size: nat)
    requires Wf(m) && l in m.lists && n > 0 && n !in m.datas
    requires if m.lists[l].data == NONE then used == []
             else m.lists[l].data in m.datas && m.lists[l].used <= |m.datas[m.lists[l].data].items| &&
                  used == m.datas[m.lists[l].data].items[..m.lists[l].used]
    requires m.lists[l].data in m.datas ==> m.datas[m.lists[l].data].count > 0
    ensures var m2 := Mem(Release(m.datas, m.lists[l].data)[n := TagArray(1, size, used)],
                          m.lists[l := m.lists[l].(data := n, used := |used|)]);
      Wf(m2) && View(m2) == View(m)
  {
    hide CountsMatch, AllUsed;
    var tl, d := m.lists[l].(data := n, used := |used|), TagArray(0, size, used);
    var m1 := m.(datas := m.datas[n := d]);
    assert used[..|used|] == used;
    CopyOk(m, l, tl, d, used);
    OwnKeeps(m, l, tl, d);
    OwnPlaced(m, l, tl, d, m1);
    assert View(m)[l := Holds(m1.datas, tl)] == View(m);
  }

  lemma CopyOk(m: Mem, l: ListId, tl: TagList, d: TagArray, used: seq<Entry>)
    requires Wf(m) && l in m.lists && tl.data > 0 && tl.data !in m.datas && d.items == used && used[..|used|] == used
    requires tl == m.lists[l].(data := tl.data, used := |used|)
    requires if m.lists[l].data == NONE then used == []
             else m.lists[l].data in m.datas && m.lists[l].used <= |m.datas[m.lists[l].data].items| &&
                  used == m.datas[m.lists[l].data].items[..m.lists[l].used]
    ensures ListOk(m.datas[tl.data := d], tl) && Holds(m.datas[tl.data := d], tl) == View(m)[l]
  {
    hide CountsMatch, AllUsed;
  }

  lemma OwnPlaced(m: Mem, l: ListId, tl: TagList, d: TagArray, m1: Mem)
    requires Wf(m) && l in m.lists && tl.data > 0 && tl.data !in m.datas && d.count == 0
    requires m1 == m.(datas := m.datas[tl.data := d])
    requires m.lists[l].data in m.datas ==> m.datas[m.lists[l].data].count > 0
    requires DataOf(m1, l) in m1.datas ==> m1.datas[DataOf(m1, l)].count > 0
    ensures Place(m1, l, tl)
         == Mem(Release(m.datas, m.lists[l].data)[tl.data := d.(count := 1)], m.lists[l := tl])
  {
    hide ListsOk, CountsMatch;
    Counted(m, l);
    assert Place(m1, l, tl).datas == Release(m.datas, m.lists[l].data)[tl.data := d.(count := 1)];
  }

  lemma Length(m: Mem, l: ListId)
    requires Wf(m) && l in m.lists
    ensures |View(m)[l]| == m.lists[l].used
    ensures m.lists[l].used > 0 ==> m.lists[l].data in m.datas
    ensures m.lists[l].used > 0 ==> m.lists[l].used <= |m.datas[m.lists[l].data].items|
    ensures forall k :: 0 <= k < m.lists[l].used ==>
      View(m)[l][k] == Shift(m.datas[m.lists[l].data].items[k], m.lists[l].adjustment)
  {
  }

  lemma NoneClipped(v: seq<Entry>, items: seq<Entry>)
    ensures v + ClipAll(items[..0]) == v
  {
  }

  lemma NoneCut(items: seq<Entry>, off: int)
    ensures CutEnd(items[..0], off) == [] && CutStart(items[..0], off) == []
  {
  }

  lemma ClipNext(v: seq<Entry>, items: seq<Entry>, k: nat)
    requires k < |items|
    ensures v + ClipAll(items[..k + 1])
         == v + ClipAll(items[..k]) + if Visible(items[k]) then [Clip(items[k])] else []
  {
    assert items[..k + 1][..k] == items[..k];
  }

  lemma CutNext(items: seq<Entry>, k: nat, off: int)
    requires k < |items|
    ensures CutEnd(items[..k + 1], off) == CutEnd(items[..k], off) + EndCut(items[k], off)
    ensures CutStart(items[..k + 1], off) == CutStart(items[..k], off) + StartCut(items[k], off)
  {
    assert items[..k + 1][..k] == items[..k];
  }

  lemma EndsBelow(m: Mem, l: ListId, off: int)
    requires Wf(m) && l in m.lists && m.lists[l].maxEnd <= off - m.lists[l].adjustment
    ensures forall k :: 0 <= k < |View(m)[l]| ==> View(m)[l][k].end <= off
  {
    Length(m, l);
  }

  lemma StartsAbove(m: Mem, l: ListId, off: int)
    requires Wf(m) && l in m.lists && m.lists[l].minStart >= off - m.lists[l].adjustment
    ensures forall k :: 0 <= k < |View(m)[l]| ==> off <= View(m)[l][k].start
  {
    Length(m, l);
  }
}
