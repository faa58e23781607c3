/** Reading the text form of IPv6 addresses, and what it makes of printed addresses. */
module Ipv6Parse {
  import opened ByteStrings
  import opened Ipv6Text
  import opened Ipv6Grammar

  // ----- The parser -----

  /** The bytes before tp have been read into tmp, and those after are still zero. */
  ghost predicate Holds(tmp: seq<Byte>, tp: nat, st: Scan) {
    st.Scan? && |tmp| == 16 && tp <= 16 && tmp[..tp] == st.out && forall i :: tp <= i < 16 ==> tmp[i] == 0
  }

  method AsciiToIpv6Host(address: string) returns (ok: bool, addr: seq<Byte>)
    ensures forall a :: Reads(address, a) <==> ok && a == addr
    ensures Parse(address) == if ok then Some(addr) else None
    ensures ok ==> |addr| == 16
  {
    hide Finish;
    addr := [];
    var tmp := new Byte[16](_ => 0);
    var tp, colonp, seenXdigits, val: nat := 0, -1, 0, 0;
    var k := 0;
    if address != "" && address[0] == ':' {
      k := 1;
      if |address| < 2 || address[1] != ':' {
        OnlyReads(address);
        return false, addr;
      }
    }
    ghost var st := Start();
    while k < |address|
      invariant 0 <= k <= |address| && 0 <= tp <= 16 && -1 <= colonp <= tp
      invariant st == Scan(tmp[..tp], colonp, seenXdigits, val) && Holds(tmp[..], tp, st)
      invariant Parse(address) == Finish(FeedAll(st, address[k..]))
    {
      var ch := address[k];
      FeedNext(st, address, k);
      k := k + 1;
      st := Feed(st, ch);
      if DigitValue(ch) >= 0 {
        val := 16 * val + DigitValue(ch);
        seenXdigits := seenXdigits + 1;
        if seenXdigits > 4 {
          Failed(address[k..]);
          OnlyReads(address);
          return false, addr;
        }
      } else if ch == ':' {
        if seenXdigits == 0 {
          if colonp >= 0 {
            Failed(address[k..]);
            OnlyReads(address);
            return false, addr;
          }
          colonp := tp;
        } else {
          if 16 - tp < 2 {
            Failed(address[k..]);
            OnlyReads(address);
            return false, addr;
          }
          tmp[tp], tmp[tp + 1] := val / 256 % 256, val % 256;
          tp, seenXdigits, val := tp + 2, 0, 0;
        }
      } else {
        Failed(address[k..]);
        OnlyReads(address);
        return false, addr;
      }
    }
    assert address[k..] == "";
    ok, addr := Close(tmp, tp, colonp, seenXdigits, val);
    OnlyReads(address);
  }

  /** Write the last group and put the bytes after the double colon at the end. */
  method Close(tmp: array<Byte>, tp0: nat, colonp: int, seenXdigits: nat, val: nat) returns (ok: bool, addr: seq<Byte>)
    requires tmp.Length == 16 && tp0 <= 16 && -1 <= colonp <= tp0
    requires forall i :: tp0 <= i < 16 ==> tmp[i] == 0
    modifies tmp
    ensures Finish(Scan(old(tmp[..tp0]), colonp, seenXdigits, val)) == if ok then Some(addr) else None
    ensures ok ==> |addr| == 16
  {
    addr := [];
    var tp := tp0;
    if seenXdigits > 0 {
      if 16 - tp < 2 {
        return false, addr;
      }
      tmp[tp], tmp[tp + 1] := val / 256 % 256, val % 256;
      tp := tp + 2;
      assert tmp[..tp] == old(tmp[..tp0]) + GroupBytes(val);
    }
    if colonp >= 0 {
      if tp == 16 {
        return false, addr;
      }
      ghost var out := tmp[..tp];
      assert tmp[..colonp] == out[..colonp] && tmp[colonp..tp] == out[colonp..];
      MoveToEnd(tmp, tp, colonp);
      tp := 16;
    }
    if tp != 16 {
      return false, addr;
    }
    addr := tmp[..];
    assert tmp[..16] == tmp[..];
    ok := true;
  }

  /** Move the bytes from colonp to tp to the end of tmp, leaving zeros. */
  method MoveToEnd(tmp: array<Byte>, tp: nat, colonp: nat)
    requires tmp.Length == 16 && colonp <= tp < 16 && forall i :: tp <= i < 16 ==> tmp[i] == 0
    modifies tmp
    ensures tmp[..] == old(tmp[..colonp]) + Zeros(16 - tp) + old(tmp[colonp..tp])
  {
    var n := tp - colonp;
    var i := 1;
    while i <= n
      invariant 1 <= i <= n + 1
      invariant forall j :: 0 <= j < tp - i + 1 ==> tmp[j] == old(tmp[j])
      invariant forall j :: tp - i + 1 <= j < 16 - i + 1 ==> tmp[j] == 0
      invariant forall j :: 16 - i + 1 <= j < 16 ==> tmp[j] == old(tmp[j - (16 - tp)])
    {
      tmp[16 - i] := tmp[colonp + n - i];
      tmp[colonp + n - i] := 0;
      i := i + 1;
    }
  }

  /** What the parser reads is what the grammar says. */
  lemma OnlyReads(s: string)
    ensures forall a :: Reads(s, a) <==> Parse(s) == Some(a)
  {
    hide Parse, Reads;
    forall a
      ensures Reads(s, a) <==> Parse(s) == Some(a)
    {
      ParseIsGrammar(s, a);
    }
  }

  lemma FeedNext(st: Scan, s: string, k: nat)
    requires k < |s|
    ensures FeedAll(st, s[k..]) == FeedAll(Feed(st, s[k]), s[k + 1..])
  {
    assert s[k..][1..] == s[k + 1..];
  }

  // ----- Reading what is printed -----

  function Pow16(n: nat): nat {
    if n == 0 then 1 else 16 * Pow16(n - 1)
  }

  /** Reading a group of at most four digits gives its value. */
  lemma {:induction false} FeedHex(out: seq<Byte>, colon: int, v: nat, n: nat)
    requires 1 <= n <= 4 && v < Pow16(n)
    ensures |Hex(v)| <= n && FeedAll(Scan(out, colon, 0, 0), Hex(v)) == Scan(out, colon, |Hex(v)|, v)
    decreases n
  {
    var st := Scan(out, colon, 0, 0);
    if v < 16 {
      DigitIs(v);
      FeedOne(st, Digit(v));
    } else {
      assert n > 1;
      FeedHex(out, colon, v / 16, n - 1);
      FeedConcat(st, Hex(v / 16), [Digit(v % 16)]);
      FeedOne(Scan(out, colon, |Hex(v / 16)|, v / 16), Digit(v % 16));
      DigitIs(v % 16);
    }
  }

  lemma FeedGroup(out: seq<Byte>, colon: int, v: Group)
    ensures 1 <= |Hex(v)| <= 4 && FeedAll(Scan(out, colon, 0, 0), Hex(v)) == Scan(out, colon, |Hex(v)|, v)
  {
    assert Pow16(4) == 0x1_0000;
    FeedHex(out, colon, v, 4);
  }

  lemma FeedColon(st: Scan, s: string)
    ensures FeedAll(st, ":" + s) == FeedAll(Feed(st, ':'), s)
  {
    FeedConcat(st, ":", s);
    FeedOne(st, ':');
  }

  /** Where the parser stands when it has read the text of the groups before i. */
  function StateAt(g: seq<Group>, i: nat, base: int, len: nat): Scan
    requires |g| == 8 && i <= 8 && (base >= 0 ==> base + len <= 8)
  {
    if base >= 0 && i > base + len then
      Scan(BytesOf(g[..base]) + BytesOf(g[base + len..i - 1]), 2 * base, |Hex(g[i - 1])|, g[i - 1])
    else if base >= 0 && i == base + len then Scan(BytesOf(g[..base]), -1, 0, 0)
    else if i == 0 then Start()
    else Scan(BytesOf(g[..i - 1]), -1, |Hex(g[i - 1])|, g[i - 1])
  }

  lemma BytesNext(g: seq<Group>, a: nat, i: nat)
    requires a <= i < |g|
    ensures BytesOf(g[a..i + 1]) == BytesOf(g[a..i]) + GroupBytes(g[i])
  {
    assert g[a..i + 1][..i - a] == g[a..i];
  }

  /** One group read. */
  lemma GroupStep(g: seq<Group>, i: nat, base: int, len: nat)
    requires |g| == 8 && i < 8 && (base >= 0 ==> len >= 2 && base + len <= 8 && !(base <= i < base + len))
    ensures var st := if i == 0 then StateAt(g, 0, base, len) else Feed(StateAt(g, i, base, len), ':');
      FeedAll(st, Hex(g[i])) == StateAt(g, i + 1, base, len)
  {
    hide Hex, FeedAll, BytesOf;
    if base >= 0 && i >= base + len {
      if i == base + len {
        NoGroups(g);
        assert g[base + len..i + 1][..0] == [];
        FeedGroup(BytesOf(g[..base]), 2 * base, g[i]);
      } else {
        BytesNext(g, base + len, i - 1);
        HexLength(g[i - 1]);
        var a, b := BytesOf(g[..base]), BytesOf(g[base + len..i - 1]);
        assert (a + b) + GroupBytes(g[i - 1]) == a + (b + GroupBytes(g[i - 1]));
        FeedGroup(BytesOf(g[..base]) + BytesOf(g[base + len..i]), 2 * base, g[i]);
      }
    } else if i == 0 {
      NoGroups(g);
      FeedGroup([], -1, g[0]);
    } else {
      assert g[0..i] == g[..i] && g[0..i - 1] == g[..i - 1];
      BytesNext(g, 0, i - 1);
      HexLength(g[i - 1]);
      FeedGroup(BytesOf(g[..i]), -1, g[i]);
    }
  }

  lemma HexLength(v: Group)
    ensures 1 <= |Hex(v)| <= 4
  {
    FeedGroup([], -1, v);
  }

  /** The colon in front of the run that is left out ends the group before it. */
  lemma RunStep(g: seq<Group>, base: nat, len: nat)
    requires |g| == 8 && base > 0 && len >= 2 && base + len <= 8
    ensures Feed(StateAt(g, base, base, len), ':') == StateAt(g, base + len, base, len)
  {
    hide Hex;
    assert g[0..base] == g[..base] && g[0..base - 1] == g[..base - 1];
    BytesNext(g, 0, base - 1);
    HexLength(g[base - 1]);
  }

  /** Where the parser stands at the end. */
  function EndState(g: seq<Group>, base: int, len: nat): Scan
    requires |g| == 8 && (base >= 0 ==> base + len <= 8)
  {
    if base >= 0 && base + len == 8 then Scan(BytesOf(g[..base]), 2 * base, 0, 0) else StateAt(g, 8, base, len)
  }

  lemma {:induction false} FeedText(g: seq<Group>, i: nat, base: int, len: nat)
    requires |g| == 8 && i <= 8 && -1 <= base && (base >= 0 ==> len >= 2 && base + len <= 8 && ZeroRun(g, base, len))
    requires base >= 0 ==> i <= base || i >= base + len
    requires !(i == 0 && base == 0)
    ensures FeedAll(StateAt(g, i, base, len), TextFrom(g, i, base, len)) == EndState(g, base, len)
    decreases 8 - i
  {
    hide Hex, FeedAll, BytesOf;
    var st := StateAt(g, i, base, len);
    if i == 8 {
      if base >= 0 && base + len == 8 {
        FeedOne(st, ':');
      } else {
        FeedNothing(st);
      }
    } else if i == base {
      FeedColon(st, TextFrom(g, i + len, base, len));
      RunStep(g, base, len);
      FeedText(g, i + len, base, len);
    } else {
      var rest := TextFrom(g, i + 1, base, len);
      GroupStep(g, i, base, len);
      FeedText(g, i + 1, base, len);
      if i == 0 {
        FeedConcat(st, Hex(g[i]), rest);
        assert "" + Hex(g[i]) + rest == Hex(g[i]) + rest;
      } else {
        FeedColon(st, Hex(g[i]) + rest);
        FeedConcat(Feed(st, ':'), Hex(g[i]), rest);
        assert ":" + Hex(g[i]) + rest == ":" + (Hex(g[i]) + rest);
      }
    }
  }

  // ----- The round trip -----

  lemma {:induction false} BytesConcat(a: seq<Group>, b: seq<Group>)
    ensures BytesOf(a + b) == BytesOf(a) + BytesOf(b)
  {
    if b == [] {
      assert a + b == a;
    } else {
      assert (a + b)[..|a + b| - 1] == a + b[..|b| - 1];
      BytesConcat(a, b[..|b| - 1]);
    }
  }

  lemma {:induction false} ZeroBytes(g: seq<Group>)
    requires forall i :: 0 <= i < |g| ==> g[i] == 0
    ensures BytesOf(g) == Zeros(2 * |g|)
  {
    if g != [] {
      ZeroBytes(g[..|g| - 1]);
    }
  }

  lemma {:induction false} BytesAt(g: seq<Group>, i: nat)
    requires i < |g|
    ensures BytesOf(g)[2 * i] == GroupBytes(g[i])[0] && BytesOf(g)[2 * i + 1] == GroupBytes(g[i])[1]
  {
    if i < |g| - 1 {
      BytesAt(g[..|g| - 1], i);
    }
  }

  lemma GroupsOfBytes(a: Address)
    ensures BytesOf(Groups(a)) == a
  {
    hide BytesOf;
    var g := Groups(a);
    forall k | 0 <= k < 16
      ensures BytesOf(g)[k] == a[k]
    {
      var i := k / 2;
      BytesAt(g, i);
      Halves(a[2 * i], a[2 * i + 1]);
    }
  }

  lemma Halves(x: Byte, y: Byte)
    ensures GroupBytes(256 * (x as int) + y as int) == [x, y]
  {
  }

  /** What has been read when the text ends is the address. */
  lemma EndIs(g: seq<Group>, base: int, len: nat)
    requires |g| == 8 && -1 <= base && (base >= 0 ==> len >= 2 && base + len <= 8 && ZeroRun(g, base, len))
    ensures Finish(EndState(g, base, len)) == Some(BytesOf(g))
  {
    hide BytesOf, Hex;
    if base < 0 {
      LastGroup(g, 0);
      assert g[0..7] == g[..7] && g[0..8] == g;
    } else {
      var front, back := g[..base], g[base + len..];
      RunRestored(g, base, len);
      if base + len == 8 {
        assert back == [];
        BytesConcat(front, back);
        assert front + back == front;
      } else {
        LastGroup(g, base + len);
        var a, b := BytesOf(front), BytesOf(g[base + len..7]);
        assert (a + b) + GroupBytes(g[7]) == a + (b + GroupBytes(g[7]));
        assert g[base + len..8] == back;
      }
    }
  }

  lemma LastGroup(g: seq<Group>, from: nat)
    requires |g| == 8 && from <= 7
    ensures BytesOf(g[from..8]) == BytesOf(g[from..7]) + GroupBytes(g[7]) && |Hex(g[7])| >= 1
  {
    BytesNext(g, from, 7);
  }

  /** The bytes around the run and zeros between them. */
  lemma RunRestored(g: seq<Group>, base: nat, len: nat)
    requires |g| == 8 && base + len <= 8 && ZeroRun(g, base, len)
    ensures BytesOf(g) == BytesOf(g[..base]) + Zeros(2 * len) + BytesOf(g[base + len..])
    ensures |BytesOf(g[..base])| == 2 * base && |BytesOf(g[base + len..])| == 16 - 2 * len - 2 * base
    ensures var out := BytesOf(g[..base]) + BytesOf(g[base + len..]);
      out[..2 * base] == BytesOf(g[..base]) && out[2 * base..] == BytesOf(g[base + len..])
  {
    hide BytesOf;
    var run := g[base..base + len];
    ZeroBytes(run);
    assert g == g[..base] + run + g[base + len..];
    BytesConcat(g[..base], run);
    BytesConcat(g[..base] + run, g[base + len..]);
  }

  /** A text never starts with a single colon. */
  lemma FirstOf(g: seq<Group>, i: nat, base: int, len: nat)
    requires |g| == 8 && i <= 8 && (base >= 0 ==> len >= 2 && base + len <= 8)
    ensures i > 0 && base >= 0 && i == base + len ==>
      TextFrom(g, i, base, len) != "" && TextFrom(g, i, base, len)[0] == ':'
    ensures i == 0 && base != 0 ==> TextFrom(g, 0, base, len) != "" && TextFrom(g, 0, base, len)[0] != ':'
  {
    if i == 0 && base != 0 {
      assert TextFrom(g, 0, base, len) == "" + Hex(g[0]) + TextFrom(g, 1, base, len);
      HexStart(g[0]);
    }
  }

  lemma {:induction false} HexStart(v: nat)
    ensures Hex(v)[0] != ':'
  {
    if v >= 16 {
      HexStart(v / 16);
    } else {
      DigitIs(v);
    }
  }

  lemma TextParses(g: seq<Group>, base: int, len: nat)
    requires |g| == 8 && -1 <= base && (base >= 0 ==> len >= 2 && base + len <= 8 && ZeroRun(g, base, len))
    ensures Parse(Text(g, base, len)) == Some(BytesOf(g))
  {
    hide BytesOf, FeedAll, Finish, Hex;
    var s := Text(g, base, len);
    EndIs(g, base, len);
    if base == 0 {
      var rest := TextFrom(g, len, base, len);
      assert s == ":" + rest && s[1..] == rest;
      FirstOf(g, len, base, len);
      FeedText(g, len, base, len);
      NoGroups(g);
    } else {
      FirstOf(g, 0, base, len);
      FeedText(g, 0, base, len);
    }
  }

  lemma NoGroups(g: seq<Group>)
    ensures BytesOf(g[..0]) == []
  {
  }

  lemma {:induction false} DotFails(st: Scan, s: string)
    requires '.' in s
    ensures FeedAll(st, s) == Fail
    decreases |s|
  {
    if s[0] == '.' {
      assert Feed(st, '.') == Fail;
      Failed(s[1..]);
    } else {
      DotFails(Feed(st, s[0]), s[1..]);
    }
  }

  /** Parsing the printed form of an address gives back the address exactly when it is not IPv4-mapped: the
      dotted form is not read at all. */
  lemma PrintedParses(a: Address, os: string)
    requires Printed(a, os)
    ensures Parse(os).Some? && Parse(os).value == a <==> !IsIpv4Mapped(a)
    ensures IsIpv4Mapped(a) ==> Parse(os) == None
  {
    hide BytesOf, FeedAll, TextFrom, Hex, Decimal, Groups, BestRun;
    if IsIpv4Mapped(a) {
      var rest := Decimal(a[12]) + "." + Decimal(a[13]) + "." + Decimal(a[14]) + "." + Decimal(a[15]);
      assert os == "::ffff:" + rest;
      assert os[1..] == ":ffff:" + rest;
      assert rest[|Decimal(a[12])|] == '.';
      assert (":ffff:" + rest)[6 + |Decimal(a[12])|] == '.';
      DotFails(Start(), os[1..]);
    } else {
      var base: int, len: nat :| BestRun(Groups(a), base, len) && os == Text(Groups(a), base, len);
      RunFits(Groups(a), base, len);
      TextParses(Groups(a), base, len);
      GroupsOfBytes(a);
    }
  }

  /** Print and read back. */
  method RoundTrip(a: Address) returns (ok: bool, back: seq<Byte>)
    ensures ok == !IsIpv4Mapped(a) && (ok ==> back == a)
  {
    hide Printed, Parse;
    var os := Print(a);
    PrintedParses(a, os);
    ok, back := AsciiToIpv6Host(os);
  }
}
