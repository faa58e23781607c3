/** Packet buffers with copy-on-write storage: the operations, and each buffer as bytes of its own.

A buffer is a window on storage with a zero area in the middle that takes no
room.  Storage records which part of it is in use by any buffer, so that a buffer
at the edge of that part may grow in place although others share the storage.
*/
module Buffers {
  import opened Addresses
  import opened ByteStrings
  import opened BufferMemory

  const WORD := 0x1_0000_0000

  /** Unsigned 32-bit subtraction. */
  function Minus32(a: nat, b: nat): nat {
    (a - b) % WORD
  }

  // ----- Offsets after a removal -----

  /** Offsets after the first n bytes are gone. */
  function StartRemoved(b: Buf, n: nat): Buf
    requires Ordered(b)
  {
    var newStart := b.start + n;
    if newStart <= b.zeroStart then b.(start := newStart)
    else if newStart <= b.zeroEnd then
      var delta := newStart - b.zeroStart;
      b.(start := b.zeroStart, zeroEnd := b.zeroEnd - delta, end := b.end - delta)
    else if newStart <= b.end then
      var s := newStart - ZeroSize(b);
      Buf(b.data, s, s, s, b.end - ZeroSize(b))
    else
      var e := InternalEnd(b);
      Buf(b.data, e, e, e, e)
  }

  /** Offsets after the last n bytes are gone. */
  function EndRemoved(b: Buf, n: nat): Buf
    requires Ordered(b)
  {
    var newEnd := b.end - Min(n, b.end - b.start);
    if newEnd > b.zeroEnd then b.(end := newEnd)
    else if newEnd > b.zeroStart then b.(zeroEnd := newEnd, end := newEnd)
    else if newEnd > b.start then b.(zeroStart := newEnd, zeroEnd := newEnd, end := newEnd)
    else b.(zeroStart := b.start, zeroEnd := b.start, end := b.start)
  }

  /** A removal only shrinks the real bytes, and those only together with the end. */
  predicate Shrinks(b: Buf, b2: Buf) {
    && Ordered(b) && Ordered(b2) && b2.data == b.data
    && b.start <= b2.start && b2.end <= b.end && InternalEnd(b2) <= InternalEnd(b)
    && (b2.end == b.end ==> InternalEnd(b2) == InternalEnd(b))
  }

  lemma StartRemovedIs(b: Buf, d: Data, n: nat)
    requires Consistent(b, d)
    ensures Consistent(StartRemoved(b, n), d) && Shrinks(b, StartRemoved(b, n))
    ensures Denotes(StartRemoved(b, n), d) == Denotes(b, d)[Min(n, Size(b))..]
  {
    hide Denotes;
    var b2, k := StartRemoved(b, n), Min(n, Size(b));
    forall i | 0 <= i < Size(b2)
      ensures Denotes(b2, d)[i] == Denotes(b, d)[k..][i]
    {
      DenotesAt(b2, d, i);
      DenotesAt(b, d, k + i);
    }
  }

  lemma EndRemovedIs(b: Buf, d: Data, n: nat)
    requires Consistent(b, d)
    ensures Consistent(EndRemoved(b, n), d) && Shrinks(b, EndRemoved(b, n))
    ensures Denotes(EndRemoved(b, n), d) == Denotes(b, d)[..Size(b) - Min(n, Size(b))]
  {
    hide Denotes;
    var b2 := EndRemoved(b, n);
    forall i | 0 <= i < Size(b2)
      ensures Denotes(b2, d)[i] == Denotes(b, d)[i]
    {
      DenotesAt(b2, d, i);
      DenotesAt(b, d, i);
    }
  }

  class BufferStore {
    var datas: map<DataId, Data>
    var bufs: map<BufId, Buf>

    ghost function M(): Mem
      reads this
    {
      Mem(datas, bufs)
    }

    ghost predicate Valid()
      reads this
    {
      Wf(M())
    }

    /** The bytes each buffer denotes. */
    ghost function Bytes(): (v: Views)
      reads this
      requires Valid()
      ensures v.Keys == bufs.Keys
    {
      View(M())
    }

    /** How many bytes of a buffer are zeros without storage. */
    ghost function Virtual(b: BufId): nat
      reads this
      requires Valid() && b in bufs
    {
      CountedData(M(), b);
      ZeroSize(bufs[b])
    }

    constructor ()
      ensures Valid() && Bytes() == map[]
    {
      datas, bufs := map[], map[];
    }

    /** New storage of at least the given size, with whatever bytes are there. */
    method Allocate(size: nat) returns (n: DataId, bytes: seq<Byte>)
      ensures n !in datas && |bytes| >= size
    {
      SomeIsFree(datas.Keys);
      n :| n > 0 && n !in datas.Keys;
      assert |Zeros(size)| >= size;
      bytes :| |bytes| >= size;
    }

    /** One reference to storage d less. */
    method Unref(d: DataId)
      requires d in datas && datas[d].count > 0
      modifies this`datas
      ensures M() == Release(old(M()), d)
    {
      var count := datas[d].count - 1;
      if count == 0 {
        datas := datas - {d};
      } else {
        datas := datas[d := datas[d].(count := count)];
      }
    }

    method Ref(d: DataId)
      requires d in datas
      modifies this`datas
      ensures M() == Retain(old(M()), d)
    {
      datas := datas[d := datas[d].(count := datas[d].count + 1)];
    }

    /** A new buffer of zeros that take no storage. */
    method Initialize(b: BufId, zeroSize: nat, recommendedStart: nat)
      requires Valid() && b !in bufs
      modifies this
      ensures Valid() && Bytes() == old(Bytes())[b := Zeros(zeroSize)] && Virtual(b) == zeroSize
    {
      hide Denotes, Sharers, View, BufsOk, LeadersOk, CountsOk;
      ghost var m := M();
      var n, bytes := Allocate(0);
      var start := Min(|bytes|, recommendedStart);
      var buf := Buf(n, start, start, start + zeroSize, start + zeroSize);
      datas := datas[n := Data(1, start, start + zeroSize, bytes)];
      bufs := bufs[b := buf];
      OwnKeeps(m, b, buf, bytes);
      AllZeros(buf, Data(0, start, start + zeroSize, bytes));
      OwnIs(m, b, buf, bytes, M());
    }

    /** Move buffer b to storage of its own. */
    method Move(b: BufId, buf: Buf, bytes: seq<Byte>)
      requires Valid() && b in bufs && Ordered(buf) && InternalEnd(buf) <= |bytes| && buf.data !in datas
      modifies this
      ensures Valid() && Bytes() == old(Bytes())[b := Denotes(buf, Data(0, buf.start, buf.end, bytes))]
      ensures bufs[b] == buf && buf.data in datas && datas[buf.data].count == 1 && Virtual(b) == ZeroSize(buf)
    {
      hide Denotes, Sharers, LeadersOk;
      ghost var m := M();
      CountedData(m, b);
      Unref(bufs[b].data);
      datas := datas[buf.data := Data(1, buf.start, buf.end, bytes)];
      bufs := bufs[b := buf];
      OwnKeeps(m, b, buf, bytes);
      OwnIs(m, b, buf, bytes, M());
    }

    method AddAtStart(b: BufId, n: nat)
      requires Valid() && b in bufs
      modifies this
      ensures Valid() && b in bufs && Owned(M(), b, 0, n)
      ensures Bytes() == old(Bytes())[b := Bytes()[b]] && Virtual(b) == old(Virtual(b))
      ensures |Bytes()[b]| == n + |old(Bytes())[b]| && Bytes()[b][n..] == old(Bytes())[b]
    {
      hide Denotes, Sharers, LeadersOk, CountsOk, Consistent;
      ghost var m := M();
      var buf := bufs[b];
      CountedData(m, b);
      StateIs(buf, datas[buf.data]);
      var d := datas[buf.data];
      var isDirty := d.count > 1 && buf.start > d.dirtyStart;
      if buf.start >= n && !isDirty {
        bufs := bufs[b := buf.(start := buf.start - n)];
        datas := datas[buf.data := d.(dirtyStart := buf.start - n)];
        StartGrows(m, b, n, M());
        StartIsOwned(m, b, n, M());
      } else {
        var nid, bytes := Allocate(InternalSize(buf) + n);
        bytes := bytes[..n] + d.bytes[buf.start..buf.start + InternalSize(buf)] + bytes[n + InternalSize(buf)..];
        var delta := n - buf.start;
        var moved := Buf(nid, 0, buf.zeroStart + delta, buf.zeroEnd + delta, buf.end + delta);
        MovedForStart(buf, d, moved, n, bytes);
        Move(b, moved, bytes);
        SoleIsOwned(M(), b, 0, n);
      }
    }

    method AddAtEnd(b: BufId, n: nat)
      requires Valid() && b in bufs
      modifies this
      ensures Valid() && b in bufs && Owned(M(), b, |old(Bytes())[b]|, n)
      ensures Bytes() == old(Bytes())[b := Bytes()[b]] && Virtual(b) == old(Virtual(b))
      ensures |Bytes()[b]| == |old(Bytes())[b]| + n && Bytes()[b][..|old(Bytes())[b]|] == old(Bytes())[b]
    {
      hide Denotes, Sharers, LeadersOk, CountsOk, Consistent;
      ghost var m := M();
      var buf := bufs[b];
      CountedData(m, b);
      StateIs(buf, datas[buf.data]);
      var d := datas[buf.data];
      var isDirty := d.count > 1 && buf.end < d.dirtyEnd;
      if InternalEnd(buf) + n <= |d.bytes| && !isDirty {
        bufs := bufs[b := buf.(end := buf.end + n)];
        datas := datas[buf.data := d.(dirtyEnd := buf.end + n)];
        EndGrows(m, b, n, M());
        EndIsOwned(m, b, n, M());
      } else {
        var nid, bytes := Allocate(InternalSize(buf) + n);
        bytes := d.bytes[buf.start..buf.start + InternalSize(buf)] + bytes[InternalSize(buf)..];
        var moved := Buf(nid, 0, buf.zeroStart - buf.start, buf.zeroEnd - buf.start, buf.end - buf.start + n);
        MovedForEnd(buf, d, moved, n, bytes);
        Move(b, moved, bytes);
        SoleIsOwned(M(), b, |old(Bytes())[b]|, n);
      }
    }

    /** A copy shares the storage of the original. */
    method CopyConstruct(b: BufId, o: BufId)
      requires Valid() && b !in bufs && o in bufs
      modifies this
      ensures Valid() && Bytes() == old(Bytes())[b := old(Bytes())[o]] && Virtual(b) == old(Virtual(o))
    {
      hide Denotes, Sharers, LeadersOk, Consistent;
      CountedData(M(), o);
      ShareKeeps(M(), b, o);
      Ref(bufs[o].data);
      bufs := bufs[b := bufs[o]];
    }

    method Assign(b: BufId, o: BufId)
      requires Valid() && b in bufs && o in bufs
      modifies this
      ensures Valid() && Bytes() == old(Bytes())[b := old(Bytes())[o]]
    {
      hide Denotes, Sharers, LeadersOk, Consistent;
      ghost var m := M();
      CountedData(m, b);
      CountedData(m, o);
      ShareKeeps(m, b, o);
      if bufs[b].data != bufs[o].data {
        OtherStays(m, b, o);
        Unref(bufs[b].data);
        Ref(bufs[o].data);
      }
      bufs := bufs[b := bufs[o]];
    }

    method Destroy(b: BufId)
      requires Valid() && b in bufs
      modifies this
      ensures Valid() && Bytes() == old(Bytes()) - {b}
    {
      hide Denotes, Sharers, LeadersOk, Consistent;
      ghost var m := M();
      CountedData(m, b);
      Unref(bufs[b].data);
      bufs := bufs - {b};
      DropKeeps(m, b, M());
    }

    /** Read the byte at position i. */
    method Peek(b: BufId, i: nat) returns (v: Byte)
      requires Valid() && b in bufs && i < |Bytes()[b]|
      ensures v == Bytes()[b][i]
    {
      hide Denotes, Sharers, LeadersOk, CountsOk;
      var buf := bufs[b];
      CountedData(M(), b);
      DenotesAt(buf, datas[buf.data], i);
      var current := buf.start + i;
      if current < buf.zeroStart {
        v := datas[buf.data].bytes[current];
      } else if current < buf.zeroEnd {
        v := 0;
      } else {
        v := datas[buf.data].bytes[current - (buf.zeroEnd - buf.zeroStart)];
      }
    }

    /** Write a byte at a position that holds a real byte of this buffer alone. */
    method WriteU8(b: BufId, i: nat, v: Byte)
      requires Valid() && b in bufs && RealAt(bufs[b], i) && Exclusive(M(), b, Offset(bufs[b], i))
      modifies this`datas
      ensures Valid() && i < |old(Bytes())[b]| && Bytes() == old(Bytes())[b := Put(old(Bytes())[b], i, v)]
    {
      hide Denotes, Sharers, LeadersOk, CountsOk;
      ghost var m := M();
      var buf := bufs[b];
      CountedData(m, b);
      var current := buf.start + i;
      var d := datas[buf.data];
      if current < buf.zeroStart {
        datas := datas[buf.data := d.(bytes := d.bytes[current := v])];
      } else {
        var at := current - (buf.zeroEnd - buf.zeroStart);
        datas := datas[buf.data := d.(bytes := d.bytes[at := v])];
      }
      PokeKeeps(m, b, i, v, M());
    }

    method Write(b: BufId, i: nat, data: seq<Byte>)
      requires Valid() && b in bufs && Owned(M(), b, i, |data|) && i + |data| <= |Bytes()[b]|
      modifies this`datas
      ensures Valid()
      ensures var v := old(Bytes())[b]; Bytes() == old(Bytes())[b := v[..i] + data + v[i + |data|..]]
    {
      hide Denotes, Sharers, LeadersOk, CountsOk, BufsOk, View;
      ghost var all, v := Bytes(), Bytes()[b];
      var k := 0;
      assert v[..i] + data[..0] + v[i..] == v;
      assert all[b := v] == all;
      while k < |data|
        invariant k <= |data| && Valid() && Owned(M(), b, i, |data|)
        invariant Bytes() == all[b := v[..i] + data[..k] + v[i + k..]]
      {
        WriteU8(b, i + k, data[k]);
        PutNext(v, i, data, k);
        k := k + 1;
      }
      assert data[..k] == data;
    }

    method AddHeader(b: BufId, data: seq<Byte>)
      requires Valid() && b in bufs
      modifies this
      ensures Valid() && Bytes() == old(Bytes())[b := data + old(Bytes())[b]] && Virtual(b) == old(Virtual(b))
    {
      hide Wf, View, Owned;
      AddAtStart(b, |data|);
      ghost var w := Bytes()[b];
      Write(b, 0, data);
      assert w[..0] + data + w[|data|..] == data + old(Bytes())[b];
    }

    method AddTrailer(b: BufId, data: seq<Byte>)
      requires Valid() && b in bufs
      modifies this
      ensures Valid() && Bytes() == old(Bytes())[b := old(Bytes())[b] + data] && Virtual(b) == old(Virtual(b))
    {
      hide Wf, View, Owned;
      AddAtEnd(b, |data|);
      ghost var w := Bytes()[b];
      var size := GetSize(b);
      var n := size - |data|;
      Write(b, n, data);
      assert w[..n] + data + w[n + |data|..] == old(Bytes())[b] + data;
    }

    /** The part of length bytes from start on; empty when that is not within the buffer, since the number of
        bytes to take off the end then wraps around. */
    method CreateFragment(f: BufId, b: BufId, start: nat, length: nat)
      requires Valid() && b in bufs && f !in bufs && start + length < WORD && |Bytes()[b]| < WORD
      modifies this
      ensures Valid()
      ensures var v := old(Bytes())[b];
        Bytes() == old(Bytes())[f := if start + length <= |v| then v[start..start + length] else []]
    {
      hide Wf, View;
      ghost var v := Bytes()[b];
      var size := GetSize(b);
      CopyConstruct(f, b);
      RemoveAtStart(f, start);
      RemoveAtEnd(f, Minus32(size, start + length));
      CutBoth(v, start, length);
    }

    method GetSize(b: BufId) returns (n: nat)
      requires Valid() && b in bufs
      ensures n == |Bytes()[b]|
    {
      CountedData(M(), b);
      n := bufs[b].end - bufs[b].start;
    }

    /** A copy in which the zeros take storage like other bytes. */
    method CreateFullCopy(f: BufId, b: BufId, recommendedStart: nat)
      requires Valid() && b in bufs && f !in bufs
      modifies this
      ensures Valid() && Bytes() == old(Bytes())[f := old(Bytes())[b]] && Virtual(f) == 0
    {
      hide Wf, View, Denotes, Zeros;
      var buf := bufs[b];
      BufState(M(), b);
      var zeroSize := buf.zeroEnd - buf.zeroStart;
      if zeroSize != 0 {
        var d := datas[buf.data].bytes;
        var first := d[buf.start..buf.zeroStart];
        var last := d[buf.zeroStart..buf.zeroStart + (buf.end - buf.zeroEnd)];
        Initialize(f, 0, recommendedStart);
        AddHeader(f, Zeros(zeroSize));
        AddHeader(f, first);
        AddTrailer(f, last);
        assert Zeros(zeroSize) + Zeros(0) == Zeros(zeroSize);
      } else {
        CopyConstruct(f, b);
      }
    }

    method RemoveAtStart(b: BufId, n: nat)
      requires Valid() && b in bufs
      modifies this`bufs
      ensures Valid() && Bytes() == old(Bytes())[b := old(Bytes())[b][Min(n, |old(Bytes())[b]|)..]]
    {
      hide Denotes, LeadersOk, CountsOk, Sharers, View, BufsOk;
      ghost var m := M();
      var buf := bufs[b];
      CountedData(m, b);
      StartRemovedIs(buf, datas[buf.data], n);
      var newStart := buf.start + n;
      if newStart <= buf.zeroStart {
        buf := buf.(start := newStart);
      } else if newStart <= buf.zeroEnd {
        var delta := newStart - buf.zeroStart;
        buf := buf.(start := buf.zeroStart, zeroEnd := buf.zeroEnd - delta, end := buf.end - delta);
      } else if newStart <= buf.end {
        var zeroSize := buf.zeroEnd - buf.zeroStart;
        buf := Buf(buf.data, newStart - zeroSize, newStart - zeroSize, newStart - zeroSize, buf.end - zeroSize);
      } else {
        var e := buf.end - (buf.zeroEnd - buf.zeroStart);
        buf := Buf(buf.data, e, e, e, e);
      }
      bufs := bufs[b := buf];
      ReshapeKeeps(m, b, buf);
    }

    method RemoveAtEnd(b: BufId, n: nat)
      requires Valid() && b in bufs
      modifies this`bufs
      ensures Valid()
      ensures var v := old(Bytes())[b]; Bytes() == old(Bytes())[b := v[..|v| - Min(n, |v|)]]
    {
      hide Denotes, LeadersOk, CountsOk, Sharers, View, BufsOk;
      ghost var m := M();
      var buf := bufs[b];
      CountedData(m, b);
      EndRemovedIs(buf, datas[buf.data], n);
      var newEnd := buf.end - Min(n, buf.end - buf.start);
      if newEnd > buf.zeroEnd {
        buf := buf.(end := newEnd);
      } else if newEnd > buf.zeroStart {
        buf := buf.(zeroEnd := newEnd, end := newEnd);
      } else if newEnd > buf.start {
        buf := buf.(zeroStart := newEnd, zeroEnd := newEnd, end := newEnd);
      } else {
        buf := buf.(zeroStart := buf.start, zeroEnd := buf.start, end := buf.start);
      }
      bufs := bufs[b := buf];
      ReshapeKeeps(m, b, buf);
    }
  }

  lemma AllZeros(b: Buf, d: Data)
    requires Consistent(b, d) && b.start == b.zeroStart && b.zeroEnd == b.end
    ensures Denotes(b, d) == Zeros(ZeroSize(b))
  {
  }

  lemma StateIs(b: Buf, d: Data)
    requires Consistent(b, d)
    ensures Ordered(b) && d.dirtyStart <= b.start && b.end <= d.dirtyEnd && InternalEnd(b) <= |d.bytes|
    ensures b.start + InternalSize(b) == InternalEnd(b)
  {
  }

  /** Moving to a storage counted once is placing the buffer on a storage without users. */
  lemma OwnIs(m: Mem, b: BufId, buf: Buf, bytes: seq<Byte>, m2: Mem)
    requires Wf(m) && buf.data !in m.datas
    requires var base := if b in m.bufs then Release(m, m.bufs[b].data) else m;
      && m2.bufs == m.bufs[b := buf]
      && m2.datas == base.datas[buf.data := Data(1, buf.start, buf.end, bytes)]
    ensures var m1 := AddStorage(m, buf.data, Data(0, buf.start, buf.end, bytes));
      && (b in m.bufs ==> m1.bufs[b].data in m1.datas && m1.datas[m1.bufs[b].data].count > 0)
      && m2 == Place(m1, b, buf)
  {
    hide Sharers, LeadersOk;
    if b in m.bufs {
      CountedData(m, b);
    }
    var m1 := AddStorage(m, buf.data, Data(0, buf.start, buf.end, bytes));
    assert m2.datas == Place(m1, b, buf).datas;
  }

  /** The offsets and bytes after a move that makes room at the start. */
  lemma MovedForStart(b: Buf, d: Data, b2: Buf, n: nat, bytes: seq<Byte>)
    requires Consistent(b, d) && |bytes| >= n + InternalSize(b)
    requires bytes[n..n + InternalSize(b)] == d.bytes[b.start..InternalEnd(b)]
    requires var delta := n - b.start; b2 == Buf(b2.data, 0, b.zeroStart + delta, b.zeroEnd + delta, b.end + delta)
    ensures Ordered(b2) && InternalEnd(b2) <= |bytes| && forall j :: 0 <= j < n ==> RealAt(b2, j)
    ensures var v := Denotes(b2, Data(0, b2.start, b2.end, bytes)); |v| == n + Size(b) && v[n..] == Denotes(b, d)
  {
    hide Denotes;
    var d2 := Data(0, b2.start, b2.end, bytes);
    forall i | 0 <= i < Size(b)
      ensures Denotes(b2, d2)[n + i] == Denotes(b, d)[i]
    {
      DenotesAt(b2, d2, n + i);
      DenotesAt(b, d, i);
      MovedByte(b, d, n, bytes, if b.start + i < b.zeroStart then i else i - ZeroSize(b));
    }
  }

  lemma MovedByte(b: Buf, d: Data, n: nat, bytes: seq<Byte>, k: int)
    requires Consistent(b, d) && |bytes| >= n + InternalSize(b)
    requires bytes[n..n + InternalSize(b)] == d.bytes[b.start..InternalEnd(b)]
    ensures 0 <= k < InternalSize(b) ==> bytes[n + k] == d.bytes[b.start + k]
  {
    if 0 <= k < InternalSize(b) {
      assert bytes[n..n + InternalSize(b)][k] == d.bytes[b.start..InternalEnd(b)][k];
    }
  }

  /** The offsets and bytes after a move that makes room at the end. */
  lemma MovedForEnd(b: Buf, d: Data, b2: Buf, n: nat, bytes: seq<Byte>)
    requires Consistent(b, d) && |bytes| >= InternalSize(b) + n
    requires bytes[0..InternalSize(b)] == d.bytes[b.start..InternalEnd(b)]
    requires b2 == Buf(b2.data, 0, b.zeroStart - b.start, b.zeroEnd - b.start, b.end - b.start + n)
    ensures Ordered(b2) && InternalEnd(b2) <= |bytes|
    ensures forall j :: Size(b) <= j < Size(b) + n ==> RealAt(b2, j)
    ensures var v := Denotes(b2, Data(0, b2.start, b2.end, bytes)); |v| == Size(b) + n && v[..Size(b)] == Denotes(b, d)
  {
    hide Denotes;
    var d2 := Data(0, b2.start, b2.end, bytes);
    forall i | 0 <= i < Size(b)
      ensures Denotes(b2, d2)[i] == Denotes(b, d)[i]
    {
      DenotesAt(b2, d2, i);
      DenotesAt(b, d, i);
      MovedByte(b, d, 0, bytes, if b.start + i < b.zeroStart then i else i - ZeroSize(b));
    }
  }

  lemma BufState(m: Mem, b: BufId)
    requires Wf(m) && b in m.bufs
    ensures m.bufs[b].data in m.datas
    ensures var buf, d := m.bufs[b], m.datas[m.bufs[b].data].bytes;
      && Ordered(buf) && InternalEnd(buf) <= |d|
      && View(m)[b] == d[buf.start..buf.zeroStart] + Zeros(ZeroSize(buf)) + d[buf.zeroStart..InternalEnd(buf)]
  {
    CountedData(m, b);
  }

  /** A buffer's storage outlives the release of another storage. */
  lemma OtherStays(m: Mem, b: BufId, o: BufId)
    requires Wf(m) && b in m.bufs && o in m.bufs && m.bufs[o].data != m.bufs[b].data
    requires m.bufs[b].data in m.datas && m.datas[m.bufs[b].data].count > 0
    ensures m.bufs[o].data in Release(m, m.bufs[b].data).datas
  {
    CountedData(m, o);
  }

  lemma PutNext(v: seq<Byte>, i: nat, data: seq<Byte>, k: nat)
    requires i + |data| <= |v| && k < |data|
    ensures Put(v[..i] + data[..k] + v[i + k..], i + k, data[k]) == v[..i] + data[..k + 1] + v[i + (k + 1)..]
  {
  }

  /** Taking bytes off the start and then off the end, as many as fragmenting does. */
  lemma CutBoth(v: seq<Byte>, start: nat, length: nat)
    requires start + length < WORD && |v| < WORD
    ensures var rest := v[Min(start, |v|)..]; var n := Minus32(|v|, start + length);
      rest[..|rest| - Min(n, |rest|)] == if start + length <= |v| then v[start..start + length] else []
  {
  }
}
