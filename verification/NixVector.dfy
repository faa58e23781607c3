/** Nix-vectors: neighbour indices of given widths packed into words and taken out again last first. */
module NixVectors {

  /** A word of 32 bits, least significant first. */
  type Word = w: seq<bool> | |w| == 32 witness seq(32, _ => false)

  function Zero(): Word {
    seq(32, _ => false)
  }

  /** A machine shifts a word by a count modulo 32. */
  function Shl(w: Word, count: nat): (r: Word)
  {
    seq(32, i requires 0 <= i < 32 => i >= count % 32 && w[i - count % 32])
  }

  function Shr(w: Word, count: nat): (r: Word)
  {
    seq(32, i requires 0 <= i < 32 => i + count % 32 < 32 && w[i + count % 32])
  }

  lemma ShlAt(w: Word, count: nat, i: nat)
    requires i < 32 && count < 32
    ensures Shl(w, count)[i] == (i >= count && w[i - count])
  {
    assert count % 32 == count;
  }

  lemma ShlWhole(w: Word)
    ensures Shl(w, 32) == w
  {
  }

  lemma ShrAt(w: Word, count: nat, i: nat)
    requires i < 32 && count < 32
    ensures Shr(w, count)[i] == (i + count < 32 && w[i + count])
  {
    assert count % 32 == count;
  }

  function Or(a: Word, b: Word): (r: Word)
    ensures forall i :: 0 <= i < 32 ==> r[i] == (a[i] || b[i])
  {
    seq(32, i requires 0 <= i < 32 => a[i] || b[i])
  }

  /** The number that bits stand for. */
  function Number(bits: seq<bool>): nat {
    if bits == [] then 0 else (if bits[0] then 1 else 0) + 2 * Number(bits[1..])
  }

  function Pow2(n: nat): nat {
    if n == 0 then 1 else 2 * Pow2(n - 1)
  }

  /** No bit of the word from n on is set. */
  predicate Below(w: seq<bool>, n: nat) {
    forall i :: n <= i < |w| ==> !w[i]
  }

  /** A word is below bit n exactly when its number is less than two to the n. */
  lemma {:induction false} BelowIsLess(w: seq<bool>, n: nat)
    ensures Below(w, n) <==> Number(w) < Pow2(n)
  {
    if w == [] {
      PowPositive(n);
    } else if n == 0 {
      BelowIsLess(w[1..], 0);
      assert Below(w, 0) <==> !w[0] && Below(w[1..], 0);
    } else {
      BelowIsLess(w[1..], n - 1);
      forall i | n - 1 <= i < |w[1..]|
        ensures w[1..][i] == w[i + 1]
      {
      }
      assert Below(w, n) ==> Below(w[1..], n - 1);
      assert Below(w[1..], n - 1) ==> Below(w, n) by {
        if Below(w[1..], n - 1) {
          forall i | n <= i < |w|
            ensures !w[i]
          {
            assert !w[1..][i - 1];
          }
        }
      }
    }
  }

  lemma {:induction false} PowPositive(n: nat)
    ensures Pow2(n) > 0
  {
    if n > 0 {
      PowPositive(n - 1);
    }
  }

  // ----- Bits of a vector of words -----

  function Flat(vec: seq<Word>): (r: seq<bool>)
    ensures |r| == 32 * |vec|
  {
    if vec == [] then [] else Flat(vec[..|vec| - 1]) + vec[|vec| - 1]
  }

  lemma {:induction false} FlatAt(vec: seq<Word>, k: nat, j: nat)
    requires k < |vec| && j < 32
    ensures Flat(vec)[32 * k + j] == vec[k][j]
  {
    if k < |vec| - 1 {
      FlatAt(vec[..|vec| - 1], k, j);
    }
  }

  lemma FlatLast(vec: seq<Word>, w: Word)
    ensures Flat(vec + [w]) == Flat(vec) + w
  {
    assert (vec + [w])[..|vec + [w]| - 1] == vec;
  }

  /** A value and the number of bits it is to take. */
  datatype Index = Index(bits: Word, width: nat)

  predicate Fits(x: Index) {
    1 <= x.width <= 32 && Below(x.bits, x.width)
  }

  class NixVector {
    var vec: seq<Word>
    var used: nat
    var current: nat
    var total: nat

    ghost predicate Valid()
      reads this
    {
      && vec != [] && current <= 32 && total == 32 * (|vec| - 1) + current && used <= total
      && Below(vec[|vec| - 1], current)
    }

    /** The bits added so far, oldest first. */
    ghost function Bits(): (r: seq<bool>)
      reads this
      requires Valid()
      ensures |r| == total
    {
      Flat(vec)[..total]
    }

    constructor ()
      ensures Valid() && Bits() == [] && used == 0
    {
      vec := [Zero()];
      used, current, total := 0, 0, 0;
    }

    /** More than 32 bits at a time are an error. */
    method AddNeighborIndex(newBits: Word, numberOfBits: nat) returns (ok: bool)
      requires Valid() && Below(newBits, numberOfBits)
      modifies this
      ensures Valid() && used == old(used) && ok == (numberOfBits <= 32)
      ensures Bits() == if ok then old(Bits()) + newBits[..numberOfBits] else old(Bits())
    {
      hide Below, Flat, Shl, Shr;
      if numberOfBits > 32 {
        return false;
      }
      ok := true;
      if current + numberOfBits > 32 {
        if current == 32 {
          StartWord(newBits, numberOfBits);
        } else {
          FillAndStart(newBits, numberOfBits);
        }
      } else {
        FillWord(newBits, numberOfBits);
      }
    }

    /** The last word is full: the new bits go into another. */
    method StartWord(newBits: Word, numberOfBits: nat)
      requires Valid() && 1 <= numberOfBits <= 32 && Below(newBits, numberOfBits) && current == 32
      modifies this
      ensures Valid() && used == old(used) && Bits() == old(Bits()) + newBits[..numberOfBits]
    {
      hide Below, Flat, Shl, Shr;
      FlatLast(vec, newBits);
      vec := vec + [newBits];
      current := numberOfBits;
      total := total + numberOfBits;
    }

    /** The new bits fill the last word and go on in another. */
    method FillAndStart(newBits: Word, numberOfBits: nat)
      requires Valid() && 1 <= numberOfBits <= 32 && Below(newBits, numberOfBits)
      requires current < 32 < current + numberOfBits
      modifies this
      ensures Valid() && used == old(used) && Bits() == old(Bits()) + newBits[..numberOfBits]
    {
      hide Below, Flat, Shl, Shr;
      var n := |vec| - 1;
      ghost var front := vec[..n];
      assert vec == front + [vec[n]];
      FlatLast(front, vec[n]);
      var tempBits := Or(Shl(newBits, current), vec[n]);
      var rest := Shr(newBits, 32 - current);
      Spilled(vec[n], newBits, current, numberOfBits, tempBits, rest);
      FlatLast(front, tempBits);
      FlatLast(front + [tempBits], rest);
      Appended2(Flat(front), vec[n], tempBits, rest, newBits, current, numberOfBits);
      vec := vec[n := tempBits] + [rest];
      assert vec == front + [tempBits] + [rest];
      current := numberOfBits - (32 - current);
      total := total + numberOfBits;
    }

    /** The new bits fit into the last word. */
    method FillWord(newBits: Word, numberOfBits: nat)
      requires Valid() && Below(newBits, numberOfBits) && current + numberOfBits <= 32
      modifies this
      ensures Valid() && used == old(used) && Bits() == old(Bits()) + newBits[..numberOfBits]
    {
      hide Below, Flat, Shl, Shr;
      var n := |vec| - 1;
      ghost var front := vec[..n];
      assert vec == front + [vec[n]];
      FlatLast(front, vec[n]);
      var word := Or(Shl(newBits, current), vec[n]);
      Filled(vec[n], newBits, current, numberOfBits, word);
      FlatLast(front, word);
      Appended1(Flat(front), vec[n], word, newBits, current, numberOfBits);
      vec := vec[n := word];
      assert vec == front + [word];
      current := current + numberOfBits;
      total := total + numberOfBits;
    }

    /** Take the last bits that are left.  Too many bits, or none, are an error. */
    method ExtractNeighborIndex(numberOfBits: nat) returns (ok: bool, extracted: Word)
      requires Valid()
      modifies this`used
      ensures Valid() && Bits() == old(Bits())
      ensures ok == (1 <= numberOfBits <= 32 && numberOfBits <= total - old(used))
      ensures used == if ok then old(used) + numberOfBits else old(used)
      ensures ok ==> Below(extracted, numberOfBits)
      ensures ok ==> extracted[..numberOfBits] == Bits()[total - used..total - old(used)]
    {
      hide Below, Flat, Shl, Shr, Or;
      extracted := Zero();
      var remaining := total - used;
      if numberOfBits > 32 || numberOfBits > remaining || numberOfBits <= 0 {
        return false, extracted;
      }
      ok := true;
      var index := (remaining - 1) / 32;
      var r := remaining % 32;
      if index > 0 && numberOfBits - 1 > (remaining - 1) % 32 {
        extracted := Shl(vec[index], 32 - r);
        extracted := Shr(extracted, (32 - r) - (numberOfBits - r));
        extracted := Or(extracted, Shr(vec[index - 1], 32 - (numberOfBits - r)));
        SpanningCase(remaining, numberOfBits);
        SpanningAll(vec, remaining, numberOfBits, index, r, extracted);
      } else {
        extracted := Shl(vec[index], 32 - r);
        extracted := Shr(extracted, 32 - numberOfBits);
        WithinCase(remaining, numberOfBits);
        WithinAll(vec, remaining, numberOfBits, index, r, extracted);
      }
      Sliced(Flat(vec), total, remaining, numberOfBits, extracted);
      used := used + numberOfBits;
    }
  }

  /** New bits that fit into the last word. */
  lemma Filled(last: Word, w: Word, current: nat, n: nat, word: Word)
    requires Below(last, current) && Below(w, n) && current + n <= 32 && word == Or(Shl(w, current), last)
    ensures Below(word, current + n) && word[..current + n] == last[..current] + w[..n]
  {
    hide Shl, Shr;
    forall i | 0 <= i < 32
      ensures word[i] == ((i >= current && w[i - current]) || last[i])
    {
      if current < 32 {
        ShlAt(w, current, i);
      } else {
        ShlWhole(w);
      }
    }
  }

  /** New bits that fill the last word and go on in another. */
  lemma Spilled(last: Word, w: Word, current: nat, n: nat, temp: Word, rest: Word)
    requires Below(last, current) && Below(w, n) && 1 <= current < 32 && n <= 32 && current + n > 32
    requires temp == Or(Shl(w, current), last) && rest == Shr(w, 32 - current)
    ensures temp == last[..current] + w[..32 - current]
    ensures Below(rest, n - (32 - current)) && rest[..n - (32 - current)] == w[32 - current..n]
  {
    hide Shl, Shr;
    forall i | 0 <= i < 32
      ensures temp[i] == ((i >= current && w[i - current]) || last[i])
      ensures rest[i] == (i + (32 - current) < 32 && w[i + (32 - current)])
    {
      ShlAt(w, current, i);
      ShrAt(w, 32 - current, i);
    }
  }

  lemma Appended1(front: seq<bool>, last: Word, word: Word, w: Word, current: nat, n: nat)
    requires current + n <= 32 && word[..current + n] == last[..current] + w[..n]
    ensures (front + word)[..|front| + current + n] == (front + last)[..|front| + current] + w[..n]
  {
    assert (front + word)[..|front| + current + n] == front + word[..current + n];
    assert (front + last)[..|front| + current] == front + last[..current];
  }

  lemma Appended2(front: seq<bool>, last: Word, temp: Word, rest: Word, w: Word, current: nat, n: nat)
    requires current < 32 && n <= 32 && current + n > 32
    requires temp == last[..current] + w[..32 - current] && rest[..n - (32 - current)] == w[32 - current..n]
    ensures (front + temp + rest)[..|front| + current + n] == (front + last)[..|front| + current] + w[..n]
  {
    var m := n - (32 - current);
    assert (front + temp + rest)[..|front| + current + n] == front + temp + rest[..m];
    assert (front + last)[..|front| + current] == front + last[..current];
    assert w[..32 - current] + w[32 - current..n] == w[..n];
  }

  /** The word that holds the last of the remaining bits, and how many of them it holds. */
  lemma Position(remaining: nat)
    requires remaining > 0
    ensures var index, r := (remaining - 1) / 32, remaining % 32;
      && (r == 0 ==> remaining == 32 * index + 32 && (remaining - 1) % 32 == 31)
      && (r > 0 ==> remaining == 32 * index + r && (remaining - 1) % 32 == r - 1)
  {
  }

  lemma Sliced(all: seq<bool>, total: nat, remaining: nat, n: nat, x: Word)
    requires n <= remaining <= total <= |all| && n <= 32
    requires forall i :: 0 <= i < n ==> x[i] == all[remaining - n + i]
    ensures x[..n] == all[..total][remaining - n..remaining]
  {
  }

  /** Bits taken from one word. */
  lemma WithinAll(vec: seq<Word>, remaining: nat, n: nat, index: nat, r: nat, x: Word)
    requires index < |vec| && 1 <= n <= 32 && r < 32 && n <= remaining <= 32 * |vec|
    requires if r == 0 then remaining == 32 * index + 32 else remaining == 32 * index + r && n <= r
    requires x == Shr(Shl(vec[index], 32 - r), 32 - n)
    ensures Below(x, n) && forall i :: 0 <= i < n ==> x[i] == Flat(vec)[remaining - n + i]
  {
    hide Flat, Shl, Shr;
    forall i | 0 <= i < 32
      ensures i < n ==> x[i] == Flat(vec)[remaining - n + i]
      ensures i >= n ==> !x[i]
    {
      WithinAt(vec, remaining, n, index, r, i);
    }
  }

  lemma WithinAt(vec: seq<Word>, remaining: nat, n: nat, index: nat, r: nat, i: nat)
    requires index < |vec| && 1 <= n <= 32 && i < 32 && r < 32 && n <= remaining <= 32 * |vec|
    requires if r == 0 then remaining == 32 * index + 32 else remaining == 32 * index + r && n <= r
    ensures var bit := Shr(Shl(vec[index], 32 - r), 32 - n)[i];
      if i < n then bit == Flat(vec)[remaining - n + i] else !bit
  {
    hide Flat, Shl, Shr;
    ShrAt(Shl(vec[index], 32 - r), 32 - n, i);
    if i < n {
      FlatAt(vec, index, remaining - n + i - 32 * index);
      if r == 0 {
        ShlWhole(vec[index]);
      } else {
        ShlAt(vec[index], 32 - r, i + (32 - n));
      }
    }
  }

  lemma WithinCase(remaining: nat, n: nat)
    requires remaining > 0 && n <= remaining && ((remaining - 1) / 32 == 0 || n - 1 <= (remaining - 1) % 32)
    ensures var index, r := (remaining - 1) / 32, remaining % 32;
      if r == 0 then remaining == 32 * index + 32 else remaining == 32 * index + r && n <= r
  {
    Position(remaining);
  }

  lemma SpanningCase(remaining: nat, n: nat)
    requires remaining > 0 && n <= 32 && n - 1 > (remaining - 1) % 32
    ensures var r := remaining % 32; 0 < r < n && remaining == 32 * ((remaining - 1) / 32) + r
  {
    Position(remaining);
  }

  /** Bits taken from two words. */
  lemma SpanningAll(vec: seq<Word>, remaining: nat, n: nat, index: nat, r: nat, x: Word)
    requires 0 < index < |vec| && n <= 32 && 0 < r < 32 && r < n <= remaining <= 32 * |vec|
    requires remaining == 32 * index + r
    requires x == Or(Shr(Shl(vec[index], 32 - r), (32 - r) - (n - r)), Shr(vec[index - 1], 32 - (n - r)))
    ensures Below(x, n) && forall i :: 0 <= i < n ==> x[i] == Flat(vec)[remaining - n + i]
  {
    hide Flat, Shl, Shr;
    forall i | 0 <= i < 32
      ensures i < n ==> x[i] == Flat(vec)[remaining - n + i]
      ensures i >= n ==> !x[i]
    {
      SpanningAt(vec, remaining, n, index, r, i);
    }
  }

  lemma SpanningAt(vec: seq<Word>, remaining: nat, n: nat, index: nat, r: nat, i: nat)
    requires 0 < index < |vec| && n <= 32 && i < 32 && 0 < r < 32 && r < n <= remaining <= 32 * |vec|
    requires remaining == 32 * index + r
    ensures var bit := Shr(Shl(vec[index], 32 - r), (32 - r) - (n - r))[i] || Shr(vec[index - 1], 32 - (n - r))[i];
      if i < n then bit == Flat(vec)[remaining - n + i] else !bit
  {
    hide Flat, Shl, Shr;
    ShrAt(Shl(vec[index], 32 - r), 32 - n, i);
    ShrAt(vec[index - 1], 32 - (n - r), i);
    if i < n {
      ShlAt(vec[index], 32 - r, i + (32 - n));
      if i < n - r {
        FlatAt(vec, index - 1, 32 - (n - r) + i);
      } else {
        FlatAt(vec, index, i - (n - r));
      }
    }
  }

  /** The width with which every one of the given number of neighbours, and no fewer bits, can be told apart. */
  method BitCount(numberOfNeighbors: nat) returns (bitCount: nat)
    ensures bitCount >= 1 && numberOfNeighbors <= Pow2(bitCount)
    ensures numberOfNeighbors >= 2 ==> Pow2(bitCount - 1) < numberOfNeighbors
  {
    if numberOfNeighbors < 2 {
      return 1;
    }
    bitCount := 0;
    var rest: nat := numberOfNeighbors - 1;
    BitLengthBounds(rest);
    while rest != 0
      invariant bitCount + BitLength(rest) == BitLength(numberOfNeighbors - 1)
    {
      rest := rest / 2;
      bitCount := bitCount + 1;
    }
  }

  function BitLength(n: nat): nat {
    if n == 0 then 0 else 1 + BitLength(n / 2)
  }

  lemma {:induction false} BitLengthBounds(n: nat)
    ensures n < Pow2(BitLength(n)) && (n > 0 ==> Pow2(BitLength(n) - 1) <= n)
  {
    if n > 0 {
      BitLengthBounds(n / 2);
    }
  }

  // ----- A stack -----

  /** The bits that come out when n bits are extracted right after n bits of v have been added, when used bits had
      been extracted before. */
  function Reread(bits: seq<bool>, used: nat, v: Word, n: nat): seq<bool>
    requires used <= |bits| && n <= 32
  {
    (bits + v[..n])[|bits| - used..|bits| - used + n]
  }

  /** An index that is added comes out first, whatever it is, exactly when nothing has been extracted yet: an
      addition does not take back what is used. */
  lemma AddAfterExtract(bits: seq<bool>, used: nat, n: nat)
    requires used <= |bits| && 1 <= n <= 32
    ensures (forall v: Word :: Below(v, n) ==> Reread(bits, used, v, n) == v[..n]) <==> used == 0
  {
    if used > 0 {
      var v: Word := Zero()[0 := !bits[|bits| - used]];
      assert Below(v, n);
      assert Reread(bits, used, v, n)[0] == bits[|bits| - used] != v[..n][0];
    }
  }

  /** Add an index and extract one of its width. */
  method AddThenExtract(nix: NixVector, x: Index) returns (v: Word)
    requires nix.Valid() && Fits(x)
    modifies nix
    ensures nix.Valid() && nix.Bits() == old(nix.Bits()) + x.bits[..x.width] && nix.used == old(nix.used) + x.width
    ensures Below(v, x.width) && v[..x.width] == old(Reread(nix.Bits(), nix.used, x.bits, x.width))
    ensures old(nix.used) == 0 ==> v == x.bits
  {
    hide Flat, Shl, Shr, Or;
    var ok := nix.AddNeighborIndex(x.bits, x.width);
    ok, v := nix.ExtractNeighborIndex(x.width);
    if old(nix.used) == 0 {
      forall i | 0 <= i < 32
        ensures v[i] == x.bits[i]
      {
        if i < x.width {
          assert v[..x.width][i] == x.bits[..x.width][i];
        }
      }
    }
  }

  /** The bits of a list of indices. */
  function Packed(items: seq<Index>): seq<bool> {
    if items == [] then [] else Packed(items[..|items| - 1]) + Kept(items[|items| - 1])
  }

  /** The bits that an index takes. */
  function Kept(x: Index): seq<bool> {
    x.bits[..if x.width <= 32 then x.width else 32]
  }

  method AddAll(nix: NixVector, items: seq<Index>)
    requires nix.Valid() && forall x :: x in items ==> Fits(x)
    modifies nix
    ensures nix.Valid() && nix.used == old(nix.used) && nix.Bits() == old(nix.Bits()) + Packed(items)
  {
    hide Below, Flat, Packed, Shl, Shr;
    var k := 0;
    NonePacked(items);
    assert nix.Bits() + [] == nix.Bits();
    while k < |items|
      invariant k <= |items| && nix.Valid() && nix.used == old(nix.used)
      invariant nix.Bits() == old(nix.Bits()) + Packed(items[..k])
    {
      PackedNext(items, k);
      assert Fits(items[k]);
      var ok := nix.AddNeighborIndex(items[k].bits, items[k].width);
      assert old(nix.Bits()) + Packed(items[..k]) + Kept(items[k])
          == old(nix.Bits()) + (Packed(items[..k]) + Kept(items[k]));
      k := k + 1;
    }
    assert items[..k] == items;
  }

  /** Extract as many indices as have been added last, of the same widths, last first: across the ends of words
      they are those that were added. */
  method ExtractAll(nix: NixVector, items: seq<Index>, ghost bits: seq<bool>) returns (values: seq<Word>)
    requires nix.Valid() && nix.used == 0 && forall x :: x in items ==> Fits(x)
    requires nix.Bits() == bits + Packed(items)
    modifies nix
    ensures nix.Valid() && |values| == |items| && nix.Bits() == old(nix.Bits()) && nix.used == |Packed(items)|
    ensures forall k :: 0 <= k < |items| ==> values[k] == items[|items| - 1 - k].bits
  {
    hide Below, Flat, Packed, Shl, Shr;
    values := [];
    var k := |items|;
    assert items[..k] == items;
    while k > 0
      invariant k <= |items| && nix.Valid() && nix.Bits() == bits + Packed(items)
      invariant |bits| + |Packed(items[..k])| == nix.total - nix.used
      invariant bits + Packed(items[..k]) == nix.Bits()[..nix.total - nix.used]
      invariant |values| == |items| - k
      invariant forall j :: 0 <= j < |values| ==> values[j] == items[|items| - 1 - j].bits
    {
      var x := items[k - 1];
      PackedNext(items, k - 1);
      assert Fits(x);
      var ok, v := nix.ExtractNeighborIndex(x.width);
      LastPacked(bits + Packed(items[..k - 1]), x, nix.Bits(), v);
      values := values + [v];
      k := k - 1;
    }
    NonePacked(items);
  }

  /** A nix-vector from which nothing has been extracted is a stack: what is added comes out again, last first. */
  method AddAndExtractAll(nix: NixVector, items: seq<Index>) returns (values: seq<Word>)
    requires nix.Valid() && nix.used == 0 && forall x :: x in items ==> Fits(x)
    modifies nix
    ensures nix.Valid() && |values| == |items| && nix.Bits() == old(nix.Bits()) + Packed(items)
    ensures forall k :: 0 <= k < |items| ==> values[k] == items[|items| - 1 - k].bits
  {
    hide *;
    ghost var bits := nix.Bits();
    AddAll(nix, items);
    values := ExtractAll(nix, items, bits);
  }

  lemma NonePacked(items: seq<Index>)
    ensures Packed(items[..0]) == []
  {
  }

  lemma PackedNext(items: seq<Index>, k: nat)
    requires k < |items|
    ensures Packed(items[..k + 1]) == Packed(items[..k]) + Kept(items[k])
  {
    assert items[..k + 1][..k] == items[..k];
  }

  /** The last bits are those of the last index. */
  lemma LastPacked(p: seq<bool>, x: Index, all: seq<bool>, v: Word)
    requires Fits(x) && Below(v, x.width) && |p| + x.width <= |all|
    requires all[..|p| + x.width] == p + Kept(x)
    requires v[..x.width] == all[|p|..|p| + x.width]
    ensures v == x.bits && p == all[..|p|]
  {
    assert all[..|p| + x.width][|p|..] == Kept(x);
    assert all[..|p| + x.width][..|p|] == p;
    forall i | 0 <= i < 32
      ensures v[i] == x.bits[i]
    {
      if i < x.width {
        assert v[..x.width][i] == Kept(x)[i];
      }
    }
  }
}
