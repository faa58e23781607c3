/** What the printed form of an address looks like. */
module Ipv6Canonical {
  import opened ByteStrings
  import opened Ipv6Text
  import opened Ipv6Grammar

  // ----- Numerals -----

  /** The value of a digit; letters are lower case. */
  function PlaceValue(c: char): int {
    if '0' <= c <= '9' then c as int - '0' as int
    else if 'a' <= c <= 'f' then c as int - 'a' as int + 10
    else -1
  }

  function ReadIn(s: string, base: nat): int {
    if s == "" then 0 else base * ReadIn(s[..|s| - 1], base) + PlaceValue(s[|s| - 1])
  }

  /** s is the number v in the given base, with lower-case digits and no leading zeros. */
  predicate Numeral(s: string, base: nat, v: nat) {
    && s != "" && (|s| > 1 ==> s[0] != '0') && (forall i :: 0 <= i < |s| ==> 0 <= PlaceValue(s[i]) < base)
    && ReadIn(s, base) == v
  }

  lemma OneDigit(v: nat, base: nat)
    requires v < base <= 16
    ensures Numeral([Digit(v)], base, v) && (v > 0 ==> Digit(v) != '0')
  {
    assert [Digit(v)][..0] == "";
  }

  lemma OneMoreDigit(s: string, base: nat, v: nat, d: nat)
    requires Numeral(s, base, v) && d < base <= 16 && s[0] != '0'
    ensures Numeral(s + [Digit(d)], base, base * v + d) && (s + [Digit(d)])[0] != '0'
  {
    assert (s + [Digit(d)])[..|s + [Digit(d)]| - 1] == s;
    OneDigit(d, base);
  }

  lemma {:induction false} HexIs(v: nat)
    ensures Numeral(Hex(v), 16, v) && (v > 0 ==> Hex(v)[0] != '0')
  {
    hide Numeral, Digit;
    if v < 16 {
      OneDigit(v, 16);
    } else {
      HexIs(v / 16);
      OneMoreDigit(Hex(v / 16), 16, v / 16, v % 16);
    }
  }

  lemma {:induction false} DecimalIs(v: nat)
    ensures Numeral(Decimal(v), 10, v) && (v > 0 ==> Decimal(v)[0] != '0')
  {
    hide Numeral, Digit;
    if v < 10 {
      OneDigit(v, 10);
    } else {
      DecimalIs(v / 10);
      OneMoreDigit(Decimal(v / 10), 10, v / 10, v % 10);
    }
  }

  // ----- Groups -----

  /** Texts with a colon before each. */
  function Led(ts: seq<string>): string {
    if ts == [] then "" else ":" + ts[0] + Led(ts[1..])
  }

  lemma {:induction false} EndedIsLed(ts: seq<string>, t: string)
    ensures Ended(ts) + t == if ts == [] then t else ts[0] + Led(ts[1..]) + ":" + t
  {
    if ts != [] {
      var n := |ts| - 1;
      EndedIsLed(ts[..n], ts[n]);
      if n > 0 {
        LedSnoc(ts[1..n], ts[n]);
        assert ts[1..] == ts[1..n] + [ts[n]];
      }
    }
  }

  lemma {:induction false} LedSnoc(ts: seq<string>, t: string)
    ensures Led(ts + [t]) == Led(ts) + ":" + t
  {
    if ts == [] {
      assert Led([t]) == ":" + t + Led([]);
      assert [] + [t] == [t];
    } else {
      assert (ts + [t])[1..] == ts[1..] + [t];
      LedSnoc(ts[1..], t);
    }
  }

  lemma JoinedIsLed(ts: seq<string>)
    requires ts != []
    ensures Joined(ts) == ts[0] + Led(ts[1..])
  {
    var n := |ts| - 1;
    EndedIsLed(ts[..n], ts[n]);
    if n > 0 {
      LedSnoc(ts[1..n], ts[n]);
      assert ts[1..] == ts[1..n] + [ts[n]];
    }
  }

  /** The groups in hexadecimal. */
  function Texts(g: seq<Group>): (ts: seq<string>)
    ensures |ts| == |g| && forall k :: 0 <= k < |g| ==> ts[k] == Hex(g[k])
  {
    seq(|g|, k requires 0 <= k < |g| => Hex(g[k]))
  }

  /** A group that is not the first stands behind a colon. */
  lemma GroupStep(g: seq<Group>, i: nat, base: int, len: nat)
    requires |g| == 8 && 0 < i < 8 && i != base && (base >= 0 ==> len > 0 && base + len <= 8)
    ensures TextFrom(g, i, base, len) == ":" + (Texts(g)[i] + TextFrom(g, i + 1, base, len))
  {
    hide Hex;
  }

  lemma LedStep(ts: seq<string>)
    requires ts != []
    ensures Led(ts) == ":" + (ts[0] + Led(ts[1..]))
  {
  }

  lemma Regroup(a: string, b: string, c: string)
    ensures ":" + (a + (b + c)) == ":" + (a + b) + c
  {
  }

  /** The text behind the gap. */
  lemma {:induction false} BehindGap(g: seq<Group>, i: nat, base: int, len: nat)
    requires |g| == 8 && 0 < i <= 8 && (base >= 0 ==> len > 0 && base + len <= i)
    ensures TextFrom(g, i, base, len) == Led(Texts(g)[i..]) + if base >= 0 && base + len == 8 then ":" else ""
    decreases 8 - i
  {
    if i < 8 {
      hide Hex, TextFrom, Led;
      BehindGap(g, i + 1, base, len);
      GroupStep(g, i, base, len);
      var ts := Texts(g)[i..];
      assert ts[1..] == Texts(g)[i + 1..];
      LedStep(ts);
      Regroup(ts[0], Led(ts[1..]), if base >= 0 && base + len == 8 then ":" else "");
    }
  }

  lemma AtGap(g: seq<Group>, base: nat, len: nat)
    requires |g| == 8 && len > 0 && base + len <= 8
    ensures TextFrom(g, base, base, len) == "::" + Joined(Texts(g)[base + len..])
  {
    hide Hex, TextFrom, Joined, Led;
    GapStep(g, base, len);
    BehindGap(g, base + len, base, len);
    var ts := Texts(g)[base + len..];
    if ts == [] {
      NoneJoined();
      NoneLed();
    } else {
      JoinedIsLed(ts);
      LedStep(ts);
    }
  }

  lemma GapStep(g: seq<Group>, base: nat, len: nat)
    requires |g| == 8 && len > 0 && base + len <= 8
    ensures TextFrom(g, base, base, len) == ":" + TextFrom(g, base + len, base, len)
  {
  }

  lemma NoneLed()
    ensures Led([]) == ""
  {
  }

  lemma NoneJoined()
    ensures Joined([]) == ""
  {
  }

  lemma {:induction false} BeforeGap(g: seq<Group>, i: nat, base: nat, len: nat)
    requires |g| == 8 && 0 < i <= base && len > 0 && base + len <= 8
    ensures TextFrom(g, i, base, len) == Led(Texts(g)[i..base]) + ("::" + Joined(Texts(g)[base + len..]))
    decreases base - i
  {
    hide Hex, Joined, TextFrom, Led;
    if i == base {
      AtGap(g, base, len);
      NoneLed();
    } else {
      BeforeGap(g, i + 1, base, len);
      GroupStep(g, i, base, len);
      var ts := Texts(g)[i..base];
      assert ts[1..] == Texts(g)[i + 1..base];
      LedStep(ts);
      Regroup(ts[0], Led(ts[1..]), "::" + Joined(Texts(g)[base + len..]));
    }
  }

  /** The text from the first group on, when no gap stands there. */
  lemma FirstGroup(g: seq<Group>, base: int, len: nat)
    requires |g| == 8 && base != 0 && (base >= 0 ==> len > 0 && base + len <= 8)
    ensures TextFrom(g, 0, base, len) == Texts(g)[0] + TextFrom(g, 1, base, len)
  {
    hide Hex;
  }

  lemma TextIs(g: seq<Group>, base: int, len: nat)
    requires |g| == 8 && -1 <= base && (base >= 0 ==> len > 0 && base + len <= 8)
    ensures Text(g, base, len) ==
      if base < 0 then Joined(Texts(g)) else Joined(Texts(g)[..base]) + "::" + Joined(Texts(g)[base + len..])
  {
    hide Hex, TextFrom, Joined, Led;
    var ts := Texts(g);
    if base < 0 {
      FirstGroup(g, base, len);
      BehindGap(g, 1, base, len);
      JoinedIsLed(ts);
      assert Led(ts[1..]) + "" == Led(ts[1..]);
    } else if base == 0 {
      AtGap(g, 0, len);
      NoneJoined();
    } else {
      FirstGroup(g, base, len);
      BeforeGap(g, 1, base, len);
      JoinedIsLed(ts[..base]);
      assert ts[..base][1..] == ts[1..base];
    }
  }

  /** An IPv4-mapped address is printed as its last four bytes, in decimal and in order, behind a fixed prefix.  Any
      other is printed as its groups in lower-case hexadecimal without leading zeros, colons between them, and a double
      colon instead of the first of its longest runs of at least two zero groups. */
  lemma PrintedIsCanonical(a: Address, os: string) returns (ts: seq<string>, base: int, len: nat)
    requires Printed(a, os)
    ensures if IsIpv4Mapped(a) then
        && |ts| == 4 && (forall k :: 0 <= k < 4 ==> Numeral(ts[k], 10, a[12 + k] as int))
        && os == "::ffff:" + ts[0] + "." + ts[1] + "." + ts[2] + "." + ts[3]
      else
        && |ts| == 8 && (forall k :: 0 <= k < 8 ==>
          Numeral(ts[k], 16, 256 * (a[2 * k] as int) + a[2 * k + 1] as int))
        && BestRun(Groups(a), base, len) && -1 <= base && (base >= 0 ==> base + len <= 8)
        && os == if base < 0 then Joined(ts) else Joined(ts[..base]) + "::" + Joined(ts[base + len..])
  {
    hide Hex, Decimal, Numeral, Joined, TextFrom, BestRun;
    if IsIpv4Mapped(a) {
      ts, base, len := [Decimal(a[12]), Decimal(a[13]), Decimal(a[14]), Decimal(a[15])], -1, 0;
      forall k | 0 <= k < 4
        ensures Numeral(ts[k], 10, a[12 + k] as int)
      {
        DecimalIs(a[12 + k]);
      }
    } else {
      base, len :| BestRun(Groups(a), base, len) && os == Text(Groups(a), base, len);
      var g := Groups(a);
      ts := Texts(g);
      RunFits(g, base, len);
      TextIs(g, base, len);
      forall k | 0 <= k < 8
        ensures Numeral(ts[k], 16, g[k])
      {
        HexIs(g[k]);
      }
    }
  }
}
