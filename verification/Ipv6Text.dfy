/** The text form of IPv6 addresses: hexadecimal groups, with one run of zero groups left out. */
module Ipv6Text {
  import opened ByteStrings

  /** An address is sixteen bytes, read as eight groups of two. */
  type Address = a: seq<Byte> | |a| == 16 witness Zeros(16)

  type Group = g: int | 0 <= g < 0x1_0000

  function Groups(a: Address): (g: seq<Group>)
    ensures |g| == 8
    ensures forall i :: 0 <= i < 8 ==> g[i] == 256 * (a[2 * i] as int) + a[2 * i + 1] as int
  {
    seq(8, i requires 0 <= i < 8 => 256 * (a[2 * i] as int) + a[2 * i + 1] as int)
  }

  /** The two bytes of a group. */
  function GroupBytes(v: nat): (r: seq<Byte>)
    ensures |r| == 2
  {
    [v / 256 % 256, v % 256]
  }

  function BytesOf(g: seq<Group>): (r: seq<Byte>)
    ensures |r| == 2 * |g|
  {
    if g == [] then [] else BytesOf(g[..|g| - 1]) + GroupBytes(g[|g| - 1])
  }

  predicate IsIpv4Mapped(a: Address) {
    (forall i :: 0 <= i < 10 ==> a[i] == 0) && a[10] == 0xff && a[11] == 0xff
  }

  // ----- Digits -----

  function Digit(d: nat): char
    requires d < 16
  {
    "0123456789abcdef"[d]
  }

  function DigitValue(c: char): (d: int)
    ensures -1 <= d < 16
  {
    if '0' <= c <= '9' then c as int - '0' as int
    else if 'a' <= c <= 'f' then c as int - 'a' as int + 10
    else if 'A' <= c <= 'F' then c as int - 'A' as int + 10
    else -1
  }

  lemma DigitIs(d: nat)
    requires d < 16
    ensures DigitValue(Digit(d)) == d
  {
  }

  /** A number in hexadecimal, without leading zeros. */
  function Hex(v: nat): (s: string)
    ensures s != []
  {
    if v < 16 then [Digit(v)] else Hex(v / 16) + [Digit(v % 16)]
  }

  /** A number below 256 in decimal. */
  function Decimal(v: nat): (s: string)
    ensures s != []
  {
    if v < 10 then [Digit(v)] else Decimal(v / 10) + [Digit(v % 10)]
  }

  // ----- Printing -----

  /** The groups from b on, l of them, are zero. */
  predicate ZeroRun(g: seq<Group>, b: nat, l: nat) {
    b + l <= |g| && forall i :: b <= i < b + l ==> g[i] == 0
  }

  /** The run to leave out: the first of the longest runs of at least two zero groups; base is -1 if there is none. */
  ghost predicate BestRun(g: seq<Group>, base: int, len: nat) {
    if base < 0 then base == -1 && forall b: nat :: !ZeroRun(g, b, 2)
    else
      && len >= 2 && ZeroRun(g, base, len)
      && (forall b: nat, l: nat :: ZeroRun(g, b, l) ==> l <= len)
      && forall b: nat :: b < base ==> !ZeroRun(g, b, len)
  }

  /** The text of the groups from i on, the run at base being left out. */
  function TextFrom(g: seq<Group>, i: nat, base: int, len: nat): string
    requires i <= |g| && (base >= 0 ==> len > 0 && base + len <= |g|)
    decreases |g| - i
  {
    if i == |g| then (if base >= 0 && base + len == |g| then ":" else "")
    else if i == base then ":" + TextFrom(g, i + len, base, len)
    else (if i != 0 then ":" else "") + Hex(g[i]) + TextFrom(g, i + 1, base, len)
  }

  function DottedText(a: Address): string {
    "::ffff:" + Decimal(a[12]) + "." + Decimal(a[13]) + "." + Decimal(a[14]) + "." + Decimal(a[15])
  }

  /** base and len are the first of the longest runs among those that end by the given position. */
  ghost predicate Best(g: seq<Group>, base: int, len: nat, upTo: nat) {
    && (base < 0 ==> base == -1 && len == 0)
    && (base >= 0 ==> len >= 1 && ZeroRun(g, base, len) && base + len <= upTo)
    && (forall b: nat, l: nat :: l >= 1 && b + l <= upTo && ZeroRun(g, b, l) ==> l <= len)
    && forall b: nat :: b < base ==> !ZeroRun(g, b, len)
  }

  /** A run of zeros does not go through a group that is not zero. */
  lemma NotThrough(g: seq<Group>, b: nat, l: nat, k: nat)
    requires k < |g| && g[k] != 0
    ensures ZeroRun(g, b, l) ==> k < b || b + l <= k
  {
  }

  /** A run of zeros after a non-zero group ends at i: the best so far is it or the best before. */
  lemma RunEnds(g: seq<Group>, base: int, len: nat, cur: nat, i: nat)
    requires cur < i <= |g| && ZeroRun(g, cur, i - cur) && (cur > 0 ==> g[cur - 1] != 0) && Best(g, base, len, cur)
    ensures if base == -1 || i - cur > len then Best(g, cur, i - cur, i) else Best(g, base, len, i)
  {
    forall b: nat, l: nat | l >= 1 && b + l <= i && ZeroRun(g, b, l)
      ensures l <= len || (l <= i - cur && b >= cur)
    {
      if cur > 0 {
        NotThrough(g, b, l, cur - 1);
      }
    }
    if base == -1 || i - cur > len {
      var n := i - cur;
      forall b: nat | b < cur
        ensures !ZeroRun(g, b, n)
      {
        NotThrough(g, b, n, cur - 1);
      }
    }
  }

  /** A group that is not zero ends no run. */
  lemma NonZero(g: seq<Group>, base: int, len: nat, i: nat)
    requires i < |g| && g[i] != 0 && Best(g, base, len, i)
    ensures Best(g, base, len, i + 1)
  {
    forall b: nat, l: nat | l >= 1 && b + l <= i + 1 && ZeroRun(g, b, l)
      ensures l <= len
    {
      NotThrough(g, b, l, i);
    }
  }

  lemma Whole(g: seq<Group>, base: int, len: nat)
    requires |g| == 8 && Best(g, base, len, 8)
    ensures BestRun(g, if len < 2 then -1 else base, len)
  {
    if len < 2 {
      forall b: nat
        ensures !ZeroRun(g, b, 2)
      {
      }
    }
  }

  method FindBestRun(g: seq<Group>) returns (base: int, len: nat)
    requires |g| == 8
    ensures BestRun(g, base, len)
  {
    hide Best, BestRun;
    base, len := -1, 0;
    var curBase, curLen := -1, 0;
    var i := 0;
    StartBest(g);
    while i < 8
      invariant 0 <= i <= 8 && -1 <= curBase && (curBase >= 0 ==> curBase < i)
      invariant curBase >= 0 ==> curLen == i - curBase && ZeroRun(g, curBase, curLen)
      invariant curBase > 0 ==> g[curBase - 1] != 0
      invariant curBase == -1 && i > 0 ==> g[i - 1] != 0
      invariant -1 <= base && Best(g, base, len, if curBase >= 0 then curBase else i)
    {
      if g[i] == 0 {
        if curBase == -1 {
          curBase, curLen := i, 1;
        } else {
          curLen := curLen + 1;
        }
      } else {
        if curBase != -1 {
          RunEnds(g, base, len, curBase, i);
          if base == -1 || curLen > len {
            base, len := curBase, curLen;
          }
          curBase := -1;
        }
        NonZero(g, base, len, i);
      }
      i := i + 1;
    }
    if curBase != -1 {
      RunEnds(g, base, len, curBase, 8);
      if base == -1 || curLen > len {
        base, len := curBase, curLen;
      }
    }
    Whole(g, base, len);
    BaseIs(g, base, len);
    if base != -1 && len < 2 {
      base := -1;
    }
  }

  lemma StartBest(g: seq<Group>)
    ensures Best(g, -1, 0, 0)
  {
  }

  lemma BaseIs(g: seq<Group>, base: int, len: nat)
    requires Best(g, base, len, 8)
    ensures base == -1 ==> len == 0
  {
  }

  /** os is the text of an address: dotted for a mapped one, otherwise with the best run left out. */
  ghost predicate Printed(a: Address, os: string) {
    if IsIpv4Mapped(a) then os == DottedText(a)
    else exists base: int, len: nat :: BestRun(Groups(a), base, len) && os == Text(Groups(a), base, len)
  }

  /** Print an address. */
  method Print(a: Address) returns (os: string)
    ensures Printed(a, os)
  {
    hide BestRun, TextFrom, Hex, Decimal, Groups;
    if IsIpv4Mapped(a) {
      return DottedText(a);
    }
    var g := Groups(a);
    var bestBase, bestLen := FindBestRun(g);
    RunFits(g, bestBase, bestLen);
    os := "";
    var i := 0;
    while i < 8
      invariant 0 <= i <= 8 && os + TextFrom(g, i, bestBase, bestLen) == Text(g, bestBase, bestLen)
    {
      TextStep(g, i, bestBase, bestLen, os);
      if i == bestBase {
        os := os + ":";
        i := i + bestLen;
        continue;
      }
      if i != 0 {
        os := os + ":";
      }
      os := os + Hex(g[i]);
      i := i + 1;
    }
    TextEnd(g, bestBase, bestLen, os);
    if bestBase != -1 && bestBase + bestLen == 8 {
      os := os + ":";
    }
  }

  /** The text of eight groups with the run at base left out. */
  function Text(g: seq<Group>, base: int, len: nat): string
    requires |g| == 8
  {
    if base >= 0 && (len == 0 || base + len > 8) then "" else TextFrom(g, 0, base, len)
  }

  lemma RunFits(g: seq<Group>, base: int, len: nat)
    requires |g| == 8 && BestRun(g, base, len)
    ensures -1 <= base && (base >= 0 ==> len >= 2 && base + len <= 8 && ZeroRun(g, base, len))
  {
  }

  lemma TextStep(g: seq<Group>, i: nat, base: int, len: nat, os: string)
    requires |g| == 8 && i < 8 && (base >= 0 ==> len > 0 && base + len <= 8)
    ensures i == base ==> os + TextFrom(g, i, base, len) == os + ":" + TextFrom(g, i + len, base, len)
    ensures i != base && i != 0 ==>
      os + TextFrom(g, i, base, len) == os + ":" + Hex(g[i]) + TextFrom(g, i + 1, base, len)
    ensures i != base && i == 0 ==> os + TextFrom(g, i, base, len) == os + Hex(g[i]) + TextFrom(g, i + 1, base, len)
  {
    hide Hex;
  }

  lemma TextEnd(g: seq<Group>, base: int, len: nat, os: string)
    requires |g| == 8 && (base >= 0 ==> len > 0 && base + len <= 8)
    ensures os + TextFrom(g, 8, base, len) == if base >= 0 && base + len == 8 then os + ":" else os
  {
  }
}
