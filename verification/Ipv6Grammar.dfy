/** Which texts the parser of IPv6 addresses reads, apart from how it reads them. */
module Ipv6Grammar {
  import opened ByteStrings
  import opened Ipv6Text

  // ----- The texts -----

  predicate IsHex(t: string) {
    forall i :: 0 <= i < |t| ==> DigitValue(t[i]) >= 0
  }

  predicate IsGroup(t: string) {
    1 <= |t| <= 4 && IsHex(t)
  }

  predicate AreGroups(ts: seq<string>) {
    forall k :: 0 <= k < |ts| ==> IsGroup(ts[k])
  }

  function HexValue(t: string): int {
    if t == "" then 0 else 16 * HexValue(t[..|t| - 1]) + DigitValue(t[|t| - 1])
  }

  /** Groups with a colon after each. */
  function Ended(ts: seq<string>): string {
    if ts == [] then "" else Ended(ts[..|ts| - 1]) + ts[|ts| - 1] + ":"
  }

  /** Groups with a colon between each two. */
  function Joined(ts: seq<string>): string {
    if ts == [] then "" else Ended(ts[..|ts| - 1]) + ts[|ts| - 1]
  }

  /** Groups, perhaps with a double colon between some of them, and perhaps with a single colon at the end. */
  datatype Reading = Reading(front: seq<string>, gap: bool, back: seq<string>, trailing: bool)

  /** Eight groups of one to four hexadecimal digits, or fewer and one double colon; the colon at the end must
      follow a group. */
  predicate Proper(r: Reading) {
    && AreGroups(r.front) && AreGroups(r.back)
    && if r.gap then |r.front| + |r.back| <= 7 && (r.trailing ==> r.back != []) else |r.front| == 8 && r.back == []
  }

  function Spell(r: Reading): string {
    Joined(r.front) + (if r.gap then "::" + Joined(r.back) else "") + (if r.trailing then ":" else "")
  }

  /** Two bytes for each group. */
  function BytesFor(ts: seq<string>): (s: seq<Byte>)
    requires AreGroups(ts)
    ensures |s| == 2 * |ts|
  {
    if ts == [] then [] else
      ValueFits(ts[|ts| - 1]);
      BytesFor(ts[..|ts| - 1]) + GroupBytes(HexValue(ts[|ts| - 1]))
  }

  lemma {:induction false} ValueFits(t: string)
    requires IsHex(t) && |t| <= 4
    ensures 0 <= HexValue(t) < 0x1_0000
    ensures |t| <= 3 ==> HexValue(t) < 0x1000
    ensures |t| <= 2 ==> HexValue(t) < 0x100
    ensures |t| <= 1 ==> HexValue(t) < 0x10
  {
    if t != "" {
      ValueFits(t[..|t| - 1]);
    }
  }

  /** Zeros stand where the double colon is. */
  function Meaning(r: Reading): (a: seq<Byte>)
    requires Proper(r)
    ensures |a| == 16
  {
    BytesFor(r.front) + Zeros(16 - 2 * (|r.front| + |r.back|)) + BytesFor(r.back)
  }

  ghost predicate Reads(s: string, a: seq<Byte>) {
    exists r :: Proper(r) && s == Spell(r) && a == Meaning(r)
  }

  // ----- Reading character by character -----

  datatype Option<T> = None | Some(value: T)

  /** Where the parser stands: the bytes read, the position of the double colon (-1 for none yet), and the
      digits of the group being read. */
  datatype Scan = Fail | Scan(out: seq<Byte>, colon: int, seen: nat, val: nat)

  function Feed(st: Scan, ch: char): Scan {
    if st == Fail then Fail
    else if DigitValue(ch) >= 0 then
      if st.seen + 1 > 4 then Fail else st.(seen := st.seen + 1, val := 16 * st.val + DigitValue(ch))
    else if ch == ':' then
      if st.seen == 0 then (if st.colon >= 0 then Fail else st.(colon := |st.out|))
      else if |st.out| + 2 > 16 then Fail
      else Scan(st.out + GroupBytes(st.val), st.colon, 0, 0)
    else Fail
  }

  function FeedAll(st: Scan, s: string): Scan
    decreases |s|
  {
    if s == "" then st else FeedAll(Feed(st, s[0]), s[1..])
  }

  /** The bytes of an address once its text has been read: zeros stand where the double colon was. */
  function Finish(st: Scan): Option<seq<Byte>> {
    if st == Fail then None
    else if st.seen > 0 && |st.out| + 2 > 16 then None
    else
      var out := if st.seen > 0 then st.out + GroupBytes(st.val) else st.out;
      if 0 <= st.colon <= |out| then
        (if |out| < 16 then Some(out[..st.colon] + Zeros(16 - |out|) + out[st.colon..]) else None)
      else if |out| == 16 then Some(out) else None
  }

  function Start(): Scan {
    Scan([], -1, 0, 0)
  }

  /** A text that starts with a colon must start with two. */
  function Parse(s: string): Option<seq<Byte>> {
    if s != "" && s[0] == ':' then
      if |s| >= 2 && s[1] == ':' then Finish(FeedAll(Start(), s[1..])) else None
    else Finish(FeedAll(Start(), s))
  }

  lemma {:induction false} FeedConcat(st: Scan, a: string, b: string)
    ensures FeedAll(st, a + b) == FeedAll(FeedAll(st, a), b)
    decreases |a|
  {
    if a == "" {
      assert a + b == b;
    } else {
      assert (a + b)[1..] == a[1..] + b;
      FeedConcat(Feed(st, a[0]), a[1..], b);
    }
  }

  lemma FeedOne(st: Scan, ch: char)
    ensures FeedAll(st, [ch]) == Feed(st, ch)
  {
    assert [ch][1..] == "";
  }

  lemma {:induction false} Failed(s: string)
    ensures FeedAll(Fail, s) == Fail && Finish(Fail) == None
    decreases |s|
  {
    if s != "" {
      Failed(s[1..]);
    }
  }

  lemma FeedNothing(st: Scan)
    ensures FeedAll(st, "") == st
  {
  }

  // ----- A text of the grammar is read -----

  lemma {:induction false} FeedDigits(out: seq<Byte>, colon: int, t: string)
    requires IsHex(t) && |t| <= 4
    ensures HexValue(t) >= 0 && FeedAll(Scan(out, colon, 0, 0), t) == Scan(out, colon, |t|, HexValue(t))
  {
    hide FeedAll;
    ValueFits(t);
    var st := Scan(out, colon, 0, 0);
    if t == "" {
      FeedNothing(st);
    } else {
      var init, ch := t[..|t| - 1], t[|t| - 1];
      assert t == init + [ch];
      FeedDigits(out, colon, init);
      FeedConcat(st, init, [ch]);
      FeedOne(FeedAll(st, init), ch);
    }
  }

  lemma {:induction false} FeedEnded(out: seq<Byte>, colon: int, ts: seq<string>)
    requires AreGroups(ts) && |out| + 2 * |ts| <= 16
    ensures FeedAll(Scan(out, colon, 0, 0), Ended(ts)) == Scan(out + BytesFor(ts), colon, 0, 0)
  {
    hide FeedAll, HexValue;
    var st := Scan(out, colon, 0, 0);
    if ts == [] {
      FeedNothing(st);
      assert out + [] == out;
    } else {
      var init, t := ts[..|ts| - 1], ts[|ts| - 1];
      FeedEnded(out, colon, init);
      ValueFits(t);
      FeedConcat(st, Ended(init), t + ":");
      assert Ended(init) + t + ":" == Ended(init) + (t + ":");
      var mid := out + BytesFor(init);
      FeedDigits(mid, colon, t);
      FeedConcat(Scan(mid, colon, 0, 0), t, ":");
      FeedOne(Scan(mid, colon, |t|, HexValue(t)), ':');
      assert mid + GroupBytes(HexValue(t)) == out + BytesFor(ts);
    }
  }

  lemma EndedIsJoined(ts: seq<string>)
    ensures ts != [] ==> Ended(ts) == Joined(ts) + ":"
  {
  }

  /** What is read of groups that end the text, with or without a colon after the last. */
  lemma FeedLast(out: seq<Byte>, colon: int, ts: seq<string>, trailing: bool)
    requires AreGroups(ts) && |out| + 2 * |ts| <= 16 && (trailing ==> ts != [])
    ensures var st := FeedAll(Scan(out, colon, 0, 0), Joined(ts) + if trailing then ":" else "");
      && st.Scan? && st.colon == colon && (st.seen > 0 ==> |st.out| + 2 <= 16)
      && (if st.seen > 0 then st.out + GroupBytes(st.val) else st.out) == out + BytesFor(ts)
  {
    hide FeedAll, HexValue;
    if ts == [] || trailing {
      EndedIsJoined(ts);
      FeedEnded(out, colon, ts);
      assert ts == [] ==> Joined(ts) + "" == Ended(ts);
    } else {
      var init, t := ts[..|ts| - 1], ts[|ts| - 1];
      FeedEnded(out, colon, init);
      FeedConcat(Scan(out, colon, 0, 0), Ended(init), t);
      FeedDigits(out + BytesFor(init), colon, t);
      ValueFits(t);
      assert out + BytesFor(init) + GroupBytes(HexValue(t)) == out + BytesFor(ts);
      assert Joined(ts) + "" == Ended(init) + t;
    }
  }

  /** The end of a reading after its double colon, with one colon in front. */
  function Rest(r: Reading): string {
    ":" + (Joined(r.back) + if r.trailing then ":" else "")
  }

  lemma FeedGap(r: Reading)
    requires Proper(r) && r.gap
    ensures FeedAll(Start(), Ended(r.front) + Rest(r)) ==
      FeedAll(Scan(BytesFor(r.front), 2 * |r.front|, 0, 0), Joined(r.back) + if r.trailing then ":" else "")
  {
    hide FeedAll, BytesFor, Joined, Ended;
    var st, tail := Scan(BytesFor(r.front), -1, 0, 0), Joined(r.back) + if r.trailing then ":" else "";
    FeedEnded([], -1, r.front);
    assert [] + BytesFor(r.front) == BytesFor(r.front);
    FeedConcat(Start(), Ended(r.front), Rest(r));
    FeedConcat(st, ":", tail);
    FeedOne(st, ':');
  }

  lemma SpelledGap(r: Reading)
    requires Proper(r) && r.gap
    ensures r.front != [] ==> Spell(r) == Ended(r.front) + Rest(r)
    ensures r.front == [] ==> Spell(r) == ":" + Rest(r) && Rest(r) != "" && Rest(r)[0] == ':' && Ended(r.front) == ""
  {
    hide Ended;
    if r.front != [] {
      EndedIsJoined(r.front);
    } else {
      NothingEnded();
    }
  }

  lemma NothingEnded()
    ensures Ended([]) == ""
  {
  }

  lemma {:induction false} StartsWithDigit(ts: seq<string>)
    requires AreGroups(ts) && ts != []
    ensures Joined(ts) != "" && Joined(ts)[0] != ':' && Ended(ts) != "" && Ended(ts)[0] != ':'
  {
    var init, t := ts[..|ts| - 1], ts[|ts| - 1];
    assert IsGroup(t) && DigitValue(t[0]) >= 0;
    if init != [] {
      StartsWithDigit(init);
    }
  }

  lemma SpelledIsRead(r: Reading)
    requires Proper(r)
    ensures Parse(Spell(r)) == Some(Meaning(r))
  {
    hide Parse, Spell, Meaning, Proper;
    if r.gap {
      GapIsRead(r);
    } else {
      EightAreRead(r);
    }
  }

  lemma GapIsRead(r: Reading)
    requires Proper(r) && r.gap
    ensures Parse(Spell(r)) == Some(Meaning(r))
  {
    hide FeedAll, BytesFor, Joined, Ended, Spell, IsGroup;
    var s := Spell(r);
    FeedGap(r);
    SpelledGap(r);
    FeedLast(BytesFor(r.front), 2 * |r.front|, r.back, r.trailing);
    if r.front != [] {
      StartsWithDigit(r.front);
      assert s[0] == Ended(r.front)[0];
    } else {
      assert s[1..] == Rest(r) && Ended(r.front) + Rest(r) == Rest(r);
    }
    SplitBytes(BytesFor(r.front), BytesFor(r.back));
  }

  lemma EightAreRead(r: Reading)
    requires Proper(r) && !r.gap
    ensures Parse(Spell(r)) == Some(Meaning(r))
  {
    hide FeedAll, BytesFor, Joined, Ended, IsGroup;
    var s := Spell(r);
    FeedLast([], -1, r.front, r.trailing);
    StartsWithDigit(r.front);
    assert s == Joined(r.front) + if r.trailing then ":" else "";
    assert [] + BytesFor(r.front) == BytesFor(r.front);
    NothingFor();
    assert BytesFor(r.front) + Zeros(0) + [] == BytesFor(r.front);
  }

  lemma NothingFor()
    ensures BytesFor([]) == []
  {
  }

  lemma SplitBytes(a: seq<Byte>, b: seq<Byte>)
    ensures (a + b)[..|a|] == a && (a + b)[|a|..] == b
  {
  }

  // ----- What is read is a text of the grammar -----

  /** How far a text has been read: the groups that have ended, before and after the double colon, and the digits
      since. */
  datatype Part = Part(front: seq<string>, gap: bool, back: seq<string>, digits: string)

  predicate PartOk(p: Part) {
    && AreGroups(p.front) && AreGroups(p.back) && IsHex(p.digits) && |p.digits| <= 4
    && |p.front| + |p.back| <= 8 && (!p.gap ==> p.back == [])
  }

  function PartText(p: Part): string {
    Ended(p.front) + ((if p.gap then ":" + Ended(p.back) else "") + p.digits)
  }

  function PartState(p: Part): Scan
    requires PartOk(p)
  {
    ValueFits(p.digits);
    Scan(BytesFor(p.front) + BytesFor(p.back), if p.gap then 2 * |p.front| else -1, |p.digits|, HexValue(p.digits))
  }

  /** A text that has not failed is some part of a reading. */
  lemma {:induction false} ReadIsPart(s: string) returns (p: Part)
    requires FeedAll(Start(), s) != Fail
    ensures PartOk(p) && s == PartText(p) && FeedAll(Start(), s) == PartState(p)
  {
    hide FeedAll, BytesFor, HexValue, Ended;
    if s == "" {
      FeedNothing(Start());
      p := Part([], false, [], "");
      NothingEnded();
      NothingFor();
      NoDigits();
    } else {
      var init, ch := s[..|s| - 1], s[|s| - 1];
      assert s == init + [ch];
      FeedConcat(Start(), init, [ch]);
      FeedOne(FeedAll(Start(), init), ch);
      if FeedAll(Start(), init) == Fail {
        Failed([ch]);
      }
      var q := ReadIsPart(init);
      p := NextPart(q, ch);
    }
  }

  lemma NoDigits()
    ensures HexValue("") == 0
  {
  }

  /** One more character. */
  lemma NextPart(q: Part, ch: char) returns (p: Part)
    requires PartOk(q) && Feed(PartState(q), ch) != Fail
    ensures PartOk(p) && PartText(q) + [ch] == PartText(p) && Feed(PartState(q), ch) == PartState(p)
  {
    hide BytesFor, HexValue, Ended, IsGroup;
    ValueFits(q.digits);
    if DigitValue(ch) >= 0 {
      p := q.(digits := q.digits + [ch]);
      OneMoreDigit(q.digits, ch);
    } else if q.digits == "" {
      p := q.(gap := true);
      NothingEnded();
      NothingFor();
      NoDigits();
      assert BytesFor(q.front) + [] == BytesFor(q.front);
    } else {
      p := if q.gap then q.(back := q.back + [q.digits], digits := "")
           else q.(front := q.front + [q.digits], digits := "");
      GroupEnds(q, p);
    }
  }

  /** A colon ends a group. */
  lemma GroupEnds(q: Part, p: Part)
    requires PartOk(q) && q.digits != "" && Feed(PartState(q), ':') != Fail
    requires p == if q.gap then q.(back := q.back + [q.digits], digits := "")
                  else q.(front := q.front + [q.digits], digits := "")
    ensures PartOk(p) && PartText(q) + ":" == PartText(p) && Feed(PartState(q), ':') == PartState(p)
  {
    hide BytesFor, HexValue, Ended;
    NoDigits();
    NothingFor();
    ValueFits(q.digits);
    if q.gap {
      OneMoreGroup(q.back, q.digits);
      assert BytesFor(q.front) + (BytesFor(q.back) + GroupBytes(HexValue(q.digits)))
          == BytesFor(q.front) + BytesFor(q.back) + GroupBytes(HexValue(q.digits));
    } else {
      OneMoreGroup(q.front, q.digits);
      assert BytesFor(q.front) + [] == BytesFor(q.front);
    }
  }

  lemma OneMoreDigit(t: string, ch: char)
    requires IsHex(t) && DigitValue(ch) >= 0
    ensures IsHex(t + [ch]) && HexValue(t + [ch]) == 16 * HexValue(t) + DigitValue(ch)
  {
    assert (t + [ch])[..|t|] == t;
  }

  lemma OneMoreGroup(ts: seq<string>, t: string)
    requires AreGroups(ts) && IsGroup(t)
    ensures AreGroups(ts + [t]) && 0 <= HexValue(t) && BytesFor(ts + [t]) == BytesFor(ts) + GroupBytes(HexValue(t))
    ensures Ended(ts + [t]) == Ended(ts) + t + ":" && Joined(ts + [t]) == Ended(ts) + t
  {
    hide HexValue;
    ValueFits(t);
    assert (ts + [t])[..|ts|] == ts;
  }

  /** The reading of a text that ends here. */
  function Closed(p: Part): Reading {
    if p.digits == "" then Reading(p.front, p.gap, p.back, !p.gap || p.back != [])
    else if p.gap then Reading(p.front, true, p.back + [p.digits], false)
    else Reading(p.front + [p.digits], false, [], false)
  }

  lemma ClosedReads(p: Part)
    requires PartOk(p) && Finish(PartState(p)).Some?
    ensures Proper(Closed(p)) && Finish(PartState(p)).value == Meaning(Closed(p))
    ensures PartText(p) == if p.gap then Ended(p.front) + Rest(Closed(p)) else Spell(Closed(p))
  {
    hide Finish, PartState, Proper, Meaning, PartText, Rest, Spell;
    if p.digits == "" {
      EndsWithColon(p);
    } else if p.gap {
      EndsAfterGap(p);
    } else {
      EndsWithDigits(p);
    }
  }

  lemma EndsWithColon(p: Part)
    requires PartOk(p) && Finish(PartState(p)).Some? && p.digits == ""
    ensures Proper(Closed(p)) && Finish(PartState(p)).value == Meaning(Closed(p))
    ensures PartText(p) == if p.gap then Ended(p.front) + Rest(Closed(p)) else Spell(Closed(p))
  {
    hide BytesFor, HexValue, Ended, Joined, IsGroup;
    NothingEnded();
    NothingFor();
    SplitBytes(BytesFor(p.front), BytesFor(p.back));
    EndedIsJoined(p.front);
    EndedIsJoined(p.back);
    NothingJoined();
  }

  lemma EndsAfterGap(p: Part)
    requires PartOk(p) && Finish(PartState(p)).Some? && p.digits != "" && p.gap
    ensures Proper(Closed(p)) && Finish(PartState(p)).value == Meaning(Closed(p))
    ensures PartText(p) == Ended(p.front) + Rest(Closed(p))
  {
    hide BytesFor, HexValue, Ended, Joined;
    ValueFits(p.digits);
    var a, b := BytesFor(p.front), BytesFor(p.back);
    OneMoreGroup(p.back, p.digits);
    assert a + b + GroupBytes(HexValue(p.digits)) == a + (b + GroupBytes(HexValue(p.digits)));
    SplitBytes(a, b + GroupBytes(HexValue(p.digits)));
  }

  lemma EndsWithDigits(p: Part)
    requires PartOk(p) && Finish(PartState(p)).Some? && p.digits != "" && !p.gap
    ensures Proper(Closed(p)) && Finish(PartState(p)).value == Meaning(Closed(p))
    ensures PartText(p) == Spell(Closed(p))
  {
    hide BytesFor, HexValue, Ended, Joined;
    ValueFits(p.digits);
    NothingFor();
    OneMoreGroup(p.front, p.digits);
    assert BytesFor(p.front) + [] == BytesFor(p.front);
  }

  lemma NothingJoined()
    ensures Joined([]) == ""
  {
  }

  lemma ReadIsSpelled(s: string) returns (r: Reading)
    requires Parse(s).Some?
    ensures Proper(r) && s == Spell(r) && Parse(s).value == Meaning(r)
  {
    hide FeedAll, BytesFor, HexValue, Joined, Ended, Finish, Meaning;
    FinishFail();
    var t := if s != "" && s[0] == ':' then s[1..] else s;
    var p := ReadIsPart(t);
    r := Closed(p);
    ClosedReads(p);
    if p.gap {
      SpelledGap(r);
      if p.front == [] {
        assert r.front == [] && t == Rest(r);
      } else {
        StartsWithDigit(p.front);
        assert t[0] == Ended(p.front)[0];
      }
    } else {
      StartsWithDigit(r.front);
      assert t[0] == Joined(r.front)[0];
    }
  }

  lemma FinishFail()
    ensures Finish(Fail) == None
  {
  }

  /** Just the texts of the grammar are read, as what they mean. */
  lemma ParseIsGrammar(s: string, a: seq<Byte>)
    ensures Parse(s) == Some(a) <==> Reads(s, a)
  {
    hide Parse, Spell, Meaning, Proper;
    if Parse(s) == Some(a) {
      var r := ReadIsSpelled(s);
    }
    if Reads(s, a) {
      var r :| Proper(r) && s == Spell(r) && a == Meaning(r);
      SpelledIsRead(r);
    }
  }

  /** A single colon at the end is read, which no form of section 2.2 of RFC 4291 allows. */
  lemma TrailingColon()
    ensures Reads("::1:", Zeros(15) + [1])
  {
    var r := Reading([], true, ["1"], true);
    assert Ended(["1"][..0]) == "";
    assert Joined(["1"]) == "1" && Spell(r) == "::1:";
    assert HexValue("1"[..0]) == 0;
    assert HexValue("1") == 1 && BytesFor(["1"][..0]) == [];
    assert BytesFor(["1"]) == [0, 1] && Zeros(14) + [0, 1] == Zeros(15) + [1];
  }

  /** The text is one of the hexadecimal forms of section 2.2 of RFC 4291, and means the address. */
  ghost predicate Standard(s: string, a: seq<Byte>) {
    exists r :: Proper(r) && !r.trailing && s == Spell(r) && a == Meaning(r)
  }

  predicate EndsInOneColon(s: string) {
    s != "" && s[|s| - 1] == ':' && (|s| > 1 ==> s[|s| - 2] != ':')
  }

  /** What is read departs from these forms exactly when it ends in a single colon. */
  lemma Departs(s: string, a: seq<Byte>)
    requires Reads(s, a)
    ensures Standard(s, a) <==> !EndsInOneColon(s)
  {
    hide Spell, Meaning, EndsInOneColon, Proper;
    var r :| Proper(r) && s == Spell(r) && a == Meaning(r);
    SpelledEnd(r);
    if Standard(s, a) {
      var q :| Proper(q) && !q.trailing && s == Spell(q) && a == Meaning(q);
      SpelledEnd(q);
    }
  }

  lemma SpelledEnd(r: Reading)
    requires Proper(r)
    ensures EndsInOneColon(Spell(r)) <==> r.trailing
  {
    hide Joined;
    JoinedEnd(r.front);
    JoinedEnd(r.back);
    NoneJoined();
    var front, gap := Joined(r.front), if r.gap then "::" + Joined(r.back) else "";
    var text, s := front + gap, Spell(r);
    if r.trailing {
      assert s == text + ":" && text != "" && text[|text| - 1] != ':';
    } else {
      assert s == text;
      if r.gap && r.back == [] {
        assert s[|s| - 1] == ':' && s[|s| - 2] == ':';
      } else {
        assert s[|s| - 1] != ':';
      }
    }
  }

  lemma NoneJoined()
    ensures Joined([]) == ""
  {
  }

  lemma JoinedEnd(ts: seq<string>)
    requires AreGroups(ts)
    ensures ts != [] ==> Joined(ts) != "" && Joined(ts)[|Joined(ts)| - 1] != ':'
  {
    if ts != [] {
      var t := ts[|ts| - 1];
      assert IsGroup(t) && DigitValue(t[|t| - 1]) >= 0;
    }
  }
}
