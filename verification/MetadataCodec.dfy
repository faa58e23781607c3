/** How metadata items are written as bytes and read back.

An item starts with the offsets of its two neighbours.  Its type and size, and
for a piece of a header the bounds of the piece, are numbers in a variable-length
form, seven bits to a byte, lowest first, with the top bit set on all bytes but
the last.  Chunk uid and packet uid take two and four bytes.
*/
module MetadataCodec {
  import opened ByteStrings

  const NIL := 0xffff

  /** A piece, from fragStart to fragEnd, of a header or trailer of the given type and size.  An odd typeUid
      marks an item that stores its piece and the packet it comes from; an even one stands for the whole
      header of this packet. */
  datatype Item = Item(typeUid: nat, size: nat, chunkUid: nat, fragStart: nat, fragEnd: nat, packetUid: nat)

  predicate IsBig(x: Item) {
    x.typeUid % 2 == 1
  }

  predicate Fits(x: Item) {
    && x.typeUid < 0x1_0000_0000 && x.size < 0x1_0000_0000 && x.chunkUid < 0x1_0000
    && x.fragStart <= x.fragEnd <= x.size && x.packetUid < 0x1_0000_0000
  }

  /** What a small item says is what can be read from it in a packet with the given uid. */
  predicate Storable(x: Item, uid: nat) {
    Fits(x) && (!IsBig(x) ==> x.fragStart == 0 && x.fragEnd == x.size && x.packetUid == uid)
  }

  // ----- Numbers -----

  function Le16(v: nat): (s: seq<Byte>)
    requires v < 0x1_0000
    ensures |s| == 2
  {
    [v % 256, v / 256]
  }

  function Le32(v: nat): (s: seq<Byte>)
    requires v < 0x1_0000_0000
    ensures |s| == 4
  {
    [v % 256, v / 0x100 % 256, v / 0x1_0000 % 256, v / 0x100_0000]
  }

  function From16(s: seq<Byte>): nat
    requires |s| >= 2
  {
    s[0] as int + 256 * (s[1] as int)
  }

  function From32(s: seq<Byte>): nat
    requires |s| >= 4
  {
    s[0] as int + 0x100 * (s[1] as int) + 0x1_0000 * (s[2] as int) + 0x100_0000 * (s[3] as int)
  }

  lemma LittleEndian16(v: nat)
    requires v < 0x1_0000
    ensures From16(Le16(v)) == v
  {
  }

  lemma LittleEndian32(v: nat)
    requires v < 0x1_0000_0000
    ensures From32(Le32(v)) == v
  {
  }

  /** How many bytes a number takes. */
  function Uleb128Size(v: nat): (n: nat)
    ensures 1 <= n <= 5
  {
    if v < 0x80 then 1 else if v < 0x4000 then 2 else if v < 0x20_0000 then 3 else if v < 0x1000_0000 then 4 else 5
  }

  /** A number in groups of seven bits, least first; all but the last have the high bit set. */
  function Uleb128(v: nat): (s: seq<Byte>)
    requires v < 0x1_0000_0000
    ensures |s| == Uleb128Size(v)
  {
    if v < 0x80 then [v]
    else if v < 0x4000 then [0x80 + v % 128, v / 128]
    else if v < 0x20_0000 then [0x80 + v % 128, 0x80 + v / 128 % 128, v / 0x4000]
    else if v < 0x1000_0000 then [0x80 + v % 128, 0x80 + v / 128 % 128, 0x80 + v / 0x4000 % 128, v / 0x20_0000]
    else [0x80 + v % 128, 0x80 + v / 128 % 128, 0x80 + v / 0x4000 % 128, 0x80 + v / 0x20_0000 % 128, v / 0x1000_0000]
  }

  function Low(b: Byte): nat {
    b as int % 128
  }

  /** Read a number: its value and how many bytes it took, 0 if it is not valid. */
  function ReadUleb128(s: seq<Byte>): (r: (nat, nat))
    ensures r.1 <= 5 && r.1 <= |s|
  {
    if |s| >= 1 && s[0] < 0x80 then (Low(s[0]), 1)
    else if |s| >= 2 && s[1] < 0x80 then (Low(s[0]) + 0x80 * Low(s[1]), 2)
    else if |s| >= 3 && s[2] < 0x80 then (Low(s[0]) + 0x80 * Low(s[1]) + 0x4000 * Low(s[2]), 3)
    else if |s| >= 4 && s[3] < 0x80 then
      (Low(s[0]) + 0x80 * Low(s[1]) + 0x4000 * Low(s[2]) + 0x20_0000 * Low(s[3]), 4)
    else if |s| >= 5 && s[4] < 0x80 then
      (Low(s[0]) + 0x80 * Low(s[1]) + 0x4000 * Low(s[2]) + 0x20_0000 * Low(s[3]) + 0x1000_0000 * Low(s[4]), 5)
    else (0, 0)
  }

  lemma LowIs(d: nat)
    requires d < 128
    ensures Low(d) == d && Low(0x80 + d) == d
  {
  }

  lemma Read2(v: nat, s: seq<Byte>)
    requires 0x80 <= v < 0x4000 && |s| >= 2 && s[0] as int == 0x80 + v % 128 && s[1] as int == v / 128
    ensures ReadUleb128(s) == (v, 2)
  {
    LowIs(v % 128);
    LowIs(v / 128);
  }

  lemma Read3(v: nat, s: seq<Byte>)
    requires 0x4000 <= v < 0x20_0000 && |s| >= 3
    requires s[0] as int == 0x80 + v % 128 && s[1] as int == 0x80 + v / 128 % 128 && s[2] as int == v / 0x4000
    ensures ReadUleb128(s) == (v, 3)
  {
    LowIs(v % 128);
    LowIs(v / 128 % 128);
    LowIs(v / 0x4000);
  }

  lemma Read4(v: nat, s: seq<Byte>)
    requires 0x20_0000 <= v < 0x1000_0000 && |s| >= 4
    requires s[0] as int == 0x80 + v % 128 && s[1] as int == 0x80 + v / 128 % 128
    requires s[2] as int == 0x80 + v / 0x4000 % 128 && s[3] as int == v / 0x20_0000
    ensures ReadUleb128(s) == (v, 4)
  {
    LowIs(v % 128);
    LowIs(v / 128 % 128);
    LowIs(v / 0x4000 % 128);
    LowIs(v / 0x20_0000);
    Sevens(v);
  }

  lemma Read5(v: nat, s: seq<Byte>)
    requires 0x1000_0000 <= v < 0x1_0000_0000 && |s| >= 5
    requires s[0] as int == 0x80 + v % 128 && s[1] as int == 0x80 + v / 128 % 128
    requires s[2] as int == 0x80 + v / 0x4000 % 128 && s[3] as int == 0x80 + v / 0x20_0000 % 128
    requires s[4] as int == v / 0x1000_0000
    ensures ReadUleb128(s) == (v, 5)
  {
    LowIs(v % 128);
    LowIs(v / 128 % 128);
    LowIs(v / 0x4000 % 128);
    LowIs(v / 0x20_0000 % 128);
    LowIs(v / 0x1000_0000);
    Sevens(v);
  }

  /** Reading what was written gives the number back and takes just its bytes, whatever follows. */
  lemma Uleb128RoundTrip(v: nat, rest: seq<Byte>)
    requires v < 0x1_0000_0000
    ensures ReadUleb128(Uleb128(v) + rest) == (v, Uleb128Size(v))
  {
    hide ReadUleb128;
    var s := Uleb128(v) + rest;
    if v < 0x80 {
      Read1(v, s);
    } else if v < 0x4000 {
      Read2(v, s);
    } else if v < 0x20_0000 {
      Read3(v, s);
    } else if v < 0x1000_0000 {
      Read4(v, s);
    } else {
      Read5(v, s);
    }
  }

  lemma Read1(v: nat, s: seq<Byte>)
    requires v < 0x80 && |s| >= 1 && s[0] as int == v
    ensures ReadUleb128(s) == (v, 1)
  {
    LowIs(v);
  }

  lemma Sevens(v: nat)
    ensures v == v % 128 + 0x80 * (v / 128 % 128) + 0x4000 * (v / 0x4000 % 128) + 0x20_0000 * (v / 0x20_0000)
    ensures v / 0x20_0000 == v / 0x20_0000 % 128 + 0x80 * (v / 0x1000_0000)
  {
  }

  /** The number that digits to the given base stand for, least first. */
  function Positional(s: seq<Byte>, base: nat): nat
    requires base > 0
  {
    if s == [] then 0 else s[0] as int % base + base * Positional(s[1..], base)
  }

  /** A number is written to base 128, least digit first, as short as can be, with the top bit set on all bytes but
      the last; two- and four-byte numbers are written to base 256, least digit first. */
  lemma WrittenAs(v: nat)
    requires v < 0x1_0000_0000
    ensures var s := Uleb128(v);
      && Positional(s, 128) == v && (|s| > 1 ==> s[|s| - 1] > 0)
      && forall i :: 0 <= i < |s| ==> (s[i] >= 0x80 <==> i < |s| - 1)
    ensures Positional(Le32(v), 256) == v && (v < 0x1_0000 ==> Positional(Le16(v), 256) == v)
  {
    UlebDigits(v);
    FourDigits(v);
  }

  /** The digits but the first are those of the quotient. */
  lemma UlebStep(v: nat)
    requires 0x80 <= v < 0x1_0000_0000
    ensures Uleb128(v) == [0x80 + v % 128] + Uleb128(v / 128)
  {
  }

  lemma {:induction false} UlebDigits(v: nat)
    requires v < 0x1_0000_0000
    ensures Positional(Uleb128(v), 128) == v
  {
    hide Uleb128;
    if v < 0x80 {
      UlebLast(v);
    } else {
      UlebStep(v);
      UlebDigits(v / 128);
      LowIs(v % 128);
      assert ([0x80 + v % 128] + Uleb128(v / 128))[1..] == Uleb128(v / 128);
    }
  }

  lemma UlebLast(v: nat)
    requires v < 0x80
    ensures Positional(Uleb128(v), 128) == v
  {
    LowIs(v);
    assert Uleb128(v)[1..] == [];
  }

  lemma FourDigits(v: nat)
    requires v < 0x1_0000_0000
    ensures Positional(Le32(v), 256) == v && (v < 0x1_0000 ==> Positional(Le16(v), 256) == v)
  {
    var s := Le32(v);
    LittleEndian32(v);
    Bytes256(s);
    if v < 0x1_0000 {
      LittleEndian16(v);
      Bytes256(Le16(v));
    }
  }

  lemma Bytes256(s: seq<Byte>)
    ensures |s| == 4 ==> Positional(s, 256) == From32(s)
    ensures |s| == 2 ==> Positional(s, 256) == From16(s)
  {
    if |s| >= 2 {
      TwoBytes(s);
    }
    if |s| == 4 {
      TwoBytes(s[2..]);
    }
  }

  lemma TwoBytes(s: seq<Byte>)
    requires |s| >= 2
    ensures Positional(s, 256) == s[0] as int + 256 * (s[1] as int) + 0x1_0000 * Positional(s[2..], 256)
  {
    assert s[1..][1..] == s[2..];
  }

  // ----- Items -----

  /** The links of an item and the item as bytes. */
  function Encode(next: nat, prev: nat, x: Item): (s: seq<Byte>)
    requires next < 0x1_0000 && prev < 0x1_0000 && Fits(x)
    ensures |s| == Length(x)
  {
    Le16(next) + (Le16(prev) + Body(x))
  }

  function Body(x: Item): (s: seq<Byte>)
    requires Fits(x)
    ensures |s| == Length(x) - 4
  {
    Uleb128(x.typeUid) + (Uleb128(x.size) + (Le16(x.chunkUid) + Extra(x)))
  }

  function Extra(x: Item): (s: seq<Byte>)
    requires Fits(x)
  {
    if IsBig(x) then Uleb128(x.fragStart) + (Uleb128(x.fragEnd) + Le32(x.packetUid)) else []
  }

  function Length(x: Item): (n: nat)
    ensures 8 <= n <= 30
  {
    6 + Uleb128Size(x.typeUid) + Uleb128Size(x.size) +
    if IsBig(x) then Uleb128Size(x.fragStart) + Uleb128Size(x.fragEnd) + 4 else 0
  }

  /** Read the item at the start of s, in a packet with the given uid. */
  function ReadItem(s: seq<Byte>, uid: nat): (x: Item)
    requires |s| >= 8
  {
    var (typeUid, n) := ReadUleb128(s[4..]);
    var s1 := s[4 + n..];
    var (size, k) := ReadUleb128(s1);
    var s2 := s1[k..];
    var chunkUid := if |s2| >= 2 then From16(s2) else 0;
    var s3 := if |s2| >= 2 then s2[2..] else [];
    if typeUid % 2 == 0 then Item(typeUid, size, chunkUid, 0, size, uid)
    else
      var (fragStart, a) := ReadUleb128(s3);
      var s4 := s3[a..];
      var (fragEnd, b) := ReadUleb128(s4);
      var s5 := s4[b..];
      Item(typeUid, size, chunkUid, fragStart, fragEnd, if |s5| >= 4 then From32(s5) else 0)
  }

  lemma ReadBody(s: seq<Byte>, x: Item, rest: seq<Byte>, uid: nat)
    requires |s| >= 8 && Storable(x, uid) && s[4..] == Body(x) + rest
    ensures ReadItem(s, uid) == x
  {
    hide Uleb128, ReadUleb128, From16, Le16, From32, Le32;
    var t2 := Le16(x.chunkUid) + (Extra(x) + rest);
    var t1 := Uleb128(x.size) + t2;
    assert s[4..] == Uleb128(x.typeUid) + t1;
    Uleb128RoundTrip(x.typeUid, t1);
    Uleb128RoundTrip(x.size, t2);
    assert s[4 + Uleb128Size(x.typeUid)..] == s[4..][Uleb128Size(x.typeUid)..] == t1;
    assert t1[Uleb128Size(x.size)..] == t2;
    ReadChunk(x.chunkUid, Extra(x) + rest);
    if IsBig(x) {
      ReadExtra(x, rest);
    }
  }

  lemma ReadChunk(v: nat, rest: seq<Byte>)
    requires v < 0x1_0000
    ensures From16(Le16(v) + rest) == v && (Le16(v) + rest)[2..] == rest
  {
    LittleEndian16(v);
  }

  lemma ReadExtra(x: Item, rest: seq<Byte>)
    requires Fits(x) && IsBig(x)
    ensures var s3 := Extra(x) + rest;
      var (fragStart, a) := ReadUleb128(s3);
      var (fragEnd, b) := ReadUleb128(s3[a..]);
      var s5 := s3[a..][b..];
      fragStart == x.fragStart && fragEnd == x.fragEnd && |s5| >= 4 && From32(s5) == x.packetUid
  {
    hide Uleb128, ReadUleb128, From32, Le32;
    var t5 := Le32(x.packetUid) + rest;
    var t4 := Uleb128(x.fragEnd) + t5;
    assert Extra(x) + rest == Uleb128(x.fragStart) + t4;
    Uleb128RoundTrip(x.fragStart, t4);
    Uleb128RoundTrip(x.fragEnd, t5);
    assert (Uleb128(x.fragStart) + t4)[Uleb128Size(x.fragStart)..] == t4;
    assert t4[Uleb128Size(x.fragEnd)..] == t5;
    ReadUid(x.packetUid, rest);
  }

  lemma ReadUid(v: nat, rest: seq<Byte>)
    requires v < 0x1_0000_0000
    ensures From32(Le32(v) + rest) == v
  {
    LittleEndian32(v);
  }

  /** Reading what was written gives back the links and the item. */
  lemma ItemRoundTrip(next: nat, prev: nat, x: Item, rest: seq<Byte>, uid: nat)
    requires next < 0x1_0000 && prev < 0x1_0000 && Storable(x, uid)
    ensures var s := Encode(next, prev, x) + rest;
      From16(s) == next && From16(s[2..]) == prev && ReadItem(s, uid) == x
  {
    hide Body, From16, Le16;
    var s := Encode(next, prev, x) + rest;
    assert s == Le16(next) + (Le16(prev) + Body(x) + rest);
    ReadChunk(next, Le16(prev) + Body(x) + rest);
    assert s[2..] == Le16(prev) + (Body(x) + rest);
    ReadChunk(prev, Body(x) + rest);
    assert s[4..] == s[2..][2..];
    ReadBody(s, x, rest, uid);
  }
}
