/** The labels that byte tags put on the bytes of a packet. */
module ByteTagLabels {
  import opened ByteStrings
  import opened ByteTagArrays

  const OFFSET_MAX := 2147483647

  datatype Label = Label(tid: nat, data: seq<Byte>)

  predicate Covers(e: Entry, i: int) {
    e.start <= i < e.end
  }

  /** The labels of byte i, in the order in which they were given. */
  function LabelsAt(items: seq<Entry>, i: int): seq<Label> {
    if items == [] then [] else
      var e := items[|items| - 1];
      LabelsAt(items[..|items| - 1], i) + if Covers(e, i) then [Label(e.tid, e.data)] else []
  }

  lemma LabelsSnoc(items: seq<Entry>, e: Entry, i: int)
    ensures LabelsAt(items + [e], i) == LabelsAt(items, i) + if Covers(e, i) then [Label(e.tid, e.data)] else []
  {
    assert (items + [e])[..|items|] == items;
  }

  lemma {:induction false} LabelsConcat(a: seq<Entry>, b: seq<Entry>, i: int)
    ensures LabelsAt(a + b, i) == LabelsAt(a, i) + LabelsAt(b, i)
  {
    if b == [] {
      assert a + b == a;
    } else {
      assert (a + b)[..|a + b| - 1] == a + b[..|b| - 1];
      LabelsConcat(a, b[..|b| - 1], i);
    }
  }

  lemma {:induction false} LabelsShifted(items: seq<Entry>, delta: int, i: int)
    ensures LabelsAt(Shifted(items, delta), i) == LabelsAt(items, i - delta)
  {
    if items != [] {
      var n := |items| - 1;
      assert Shifted(items, delta)[..n] == Shifted(items[..n], delta);
      LabelsShifted(items[..n], delta, i);
    }
  }

  // ----- Iterating -----

  /** Iterating over a whole list passes over tags outside the range of offsets. */
  predicate Visible(e: Entry) {
    e.start < OFFSET_MAX && e.end > 0
  }

  function Clip(e: Entry): Entry {
    e.(start := if e.start > 0 then e.start else 0, end := if e.end < OFFSET_MAX then e.end else OFFSET_MAX)
  }

  /** What a tag becomes when new bytes begin at offset off: nothing, or a tag that ends there. */
  function EndCut(e: Entry, off: int): seq<Entry> {
    if !Visible(e) || Clip(e).start >= off then []
    else [Clip(e).(end := if Clip(e).end > off then off else Clip(e).end)]
  }

  /** What a tag becomes when new bytes end at offset off. */
  function StartCut(e: Entry, off: int): seq<Entry> {
    if !Visible(e) || Clip(e).end <= off then []
    else [Clip(e).(start := if Clip(e).start < off then off else Clip(e).start)]
  }

  function CutEnd(items: seq<Entry>, off: int): seq<Entry> {
    if items == [] then [] else CutEnd(items[..|items| - 1], off) + EndCut(items[|items| - 1], off)
  }

  function CutStart(items: seq<Entry>, off: int): seq<Entry> {
    if items == [] then [] else CutStart(items[..|items| - 1], off) + StartCut(items[|items| - 1], off)
  }

  function ClipAll(items: seq<Entry>): seq<Entry> {
    if items == [] then [] else
      ClipAll(items[..|items| - 1]) + if Visible(items[|items| - 1]) then [Clip(items[|items| - 1])] else []
  }

  /** What is left of a tag covers byte i just when the tag does and i is on the right side of the cut. */
  lemma CutLabels(e: Entry, off: int, i: int)
    requires i < OFFSET_MAX
    ensures 0 <= i ==> LabelsAt(EndCut(e, off), i) == if i < off && Covers(e, i) then [Label(e.tid, e.data)] else []
    ensures 0 <= i || i < off ==>
      LabelsAt(StartCut(e, off), i) == if i >= off && Covers(e, i) then [Label(e.tid, e.data)] else []
  {
    OneLabel(EndCut(e, off), i);
    OneLabel(StartCut(e, off), i);
  }

  lemma OneLabel(items: seq<Entry>, i: int)
    requires |items| <= 1
    ensures LabelsAt(items, i)
         == if items != [] && Covers(items[0], i) then [Label(items[0].tid, items[0].data)] else []
  {
    if items != [] {
      assert items[..0] == [];
    }
  }

  lemma LastLabel(items: seq<Entry>, i: int)
    requires items != []
    ensures var e := items[|items| - 1];
      LabelsAt(items, i) == LabelsAt(items[..|items| - 1], i) + if Covers(e, i) then [Label(e.tid, e.data)] else []
  {
  }

  lemma NoItems(i: int)
    ensures LabelsAt([], i) == []
  {
  }

  lemma {:induction false} CutEndLabels(items: seq<Entry>, off: int, i: int)
    requires 0 <= i < OFFSET_MAX
    ensures LabelsAt(CutEnd(items, off), i) == if i < off then LabelsAt(items, i) else []
  {
    hide LabelsAt, EndCut;
    NoItems(i);
    if items != [] {
      var n := |items| - 1;
      CutEndLabels(items[..n], off, i);
      LabelsConcat(CutEnd(items[..n], off), EndCut(items[n], off), i);
      CutLabels(items[n], off, i);
      LastLabel(items, i);
    }
  }

  lemma {:induction false} CutStartLabels(items: seq<Entry>, off: int, i: int)
    requires i < OFFSET_MAX && (0 <= i || i < off)
    ensures LabelsAt(CutStart(items, off), i) == if i < off then [] else LabelsAt(items, i)
  {
    hide LabelsAt, StartCut;
    NoItems(i);
    if items != [] {
      var n := |items| - 1;
      CutStartLabels(items[..n], off, i);
      LabelsConcat(CutStart(items[..n], off), StartCut(items[n], off), i);
      CutLabels(items[n], off, i);
      LastLabel(items, i);
    }
  }

  lemma {:induction false} ClipLabels(items: seq<Entry>, i: int)
    requires i < OFFSET_MAX
    ensures LabelsAt(ClipAll(items), i) == if i < 0 then [] else LabelsAt(items, i)
  {
    if items != [] {
      var n := |items| - 1;
      ClipLabels(items[..n], i);
      if Visible(items[n]) {
        LabelsSnoc(ClipAll(items[..n]), Clip(items[n]), i);
      } else {
        assert ClipAll(items) == ClipAll(items[..n]);
      }
    }
  }

  /** When no tag ends after off there is nothing to cut. */
  lemma {:induction false} NoneBeyond(items: seq<Entry>, off: int, i: int)
    requires (forall k :: 0 <= k < |items| ==> items[k].end <= off) && i >= off
    ensures LabelsAt(items, i) == []
  {
    if items != [] {
      NoneBeyond(items[..|items| - 1], off, i);
    }
  }

  /** When no tag starts before off there is nothing to cut. */
  lemma {:induction false} NoneBefore(items: seq<Entry>, off: int, i: int)
    requires (forall k :: 0 <= k < |items| ==> off <= items[k].start) && i < off
    ensures LabelsAt(items, i) == []
  {
    if items != [] {
      NoneBefore(items[..|items| - 1], off, i);
    }
  }
}
