/** The rotating calendar queue: slots that turn, so that the first one is that of the current round. */
module CalendarQueue {
  import opened Elements
  import opened RoundRanks
  import opened StableQueue
  import opened CalendarModel

  // ----- Slots -----

  /** Slot j of the calendar holds the entries whose key is j rounds ahead. */
  ghost predicate SlotsOk(fifos: seq<seq<Cell>>, p: seq<Entry>, round: nat) {
    && (forall j :: 0 <= j < |fifos| ==> fifos[j] == Slot(p, round + j))
    && (forall e :: e in p ==> round <= e.key < round + |fifos|)
  }

  lemma SlotsArrive(fifos: seq<seq<Cell>>, p: seq<Entry>, round: nat, n: nat, cell: Cell)
    requires SlotsOk(fifos, p, round) && n < |fifos|
    ensures SlotsOk(fifos[n := fifos[n] + [cell]], p + [Entry(round + n, cell)], round)
  {
    hide Slot;
    var e, after := Entry(round + n, cell), fifos[n := fifos[n] + [cell]];
    forall j | 0 <= j < |after|
      ensures after[j] == Slot(p + [e], round + j)
    {
      SlotConcat(p, [e], round + j);
      OneSlot(e, round + j);
    }
  }

  lemma SlotsRotate(fifos: seq<seq<Cell>>, p: seq<Entry>, round: nat)
    requires SlotsOk(fifos, p, round) && fifos != [] && fifos[0] == []
    ensures SlotsOk(fifos[1..] + [fifos[0]], p, round + 1)
    ensures p != [] ==> p[FirstLeast(p)].key > round
  {
    hide Slot, FirstLeast;
    var n := |fifos|;
    SlotEmpty(p, round);
    SlotEmpty(p, round + n);
    var after := fifos[1..] + [fifos[0]];
    forall j | 0 <= j < |after|
      ensures after[j] == Slot(p, round + 1 + j)
    {
      if j + 1 < n {
        assert fifos[1..][j] == fifos[j + 1];
      }
    }
  }

  lemma SlotsServe(fifos: seq<seq<Cell>>, p: seq<Entry>, round: nat)
    requires SlotsOk(fifos, p, round) && fifos != [] && fifos[0] != []
    ensures p != [] && p[FirstLeast(p)].key == round && p[FirstLeast(p)].cell == fifos[0][0]
    ensures SlotsOk(fifos[0 := fifos[0][1..]], Without(p, FirstLeast(p)), round)
  {
    hide Slot, FirstLeast, Without;
    SlotEmpty(p, round);
    assert exists e :: e in p && e.key == round;
    var i := FirstLeast(p);
    var w := Without(p, i);
    WithoutRest(p, i);
    ServeSlots(p, round);
    var after := fifos[0 := fifos[0][1..]];
    forall j | 0 <= j < |after|
      ensures after[j] == Slot(w, round + j)
    {
      ServeSlots(p, round + j);
    }
  }

  lemma AllEmpty(fifos: seq<seq<Cell>>, p: seq<Entry>, round: nat)
    requires SlotsOk(fifos, p, round)
    ensures (forall j :: 0 <= j < |fifos| ==> fifos[j] == []) <==> p == []
  {
    hide Slot;
    if p == [] {
      forall j | 0 <= j < |fifos|
        ensures fifos[j] == []
      {
        SlotEmpty(p, round + j);
      }
    } else {
      var e := p[0];
      assert e in p;
      SlotEmpty(p, e.key);
      assert fifos[e.key - round] == Slot(p, round + (e.key - round));
    }
  }

  // ----- Sizes of slots -----

  function CellBytes(q: seq<Cell>): nat {
    if q == [] then 0 else CellBytes(q[..|q| - 1]) + q[|q| - 1].pkt.length
  }

  lemma {:induction false} CellBytesCons(q: seq<Cell>)
    requires q != []
    ensures CellBytes(q) == q[0].pkt.length + CellBytes(q[1..])
  {
    if |q| > 1 {
      CellBytesCons(q[..|q| - 1]);
      assert q[..|q| - 1][1..] == q[1..][..|q| - 2];
    } else {
      assert q[..0] == [] && q[1..] == [];
    }
  }

  lemma NoCells()
    ensures CellBytes([]) == 0
  {
  }

  lemma CellsSnoc(q: seq<Cell>, cell: Cell)
    ensures CellBytes(q + [cell]) == CellBytes(q) + cell.pkt.length
  {
    assert (q + [cell])[..|q|] == q;
  }

  // ----- The scheduler -----

  class WFQPCQScheduler {
    const algorithm: WFQPCQAlgorithm
    const fifoNum: nat
    const bufferPerQueue: real
    var fifos: seq<seq<Cell>>
    var currentRound: nat
    var fifoSizes: seq<int>
    var queue: seq<Item>

    ghost var h: History

    function Settings(): Config
    {
      Config(algorithm.Quotas(), fifoNum, bufferPerQueue)
    }

    /** The state of the stable priority queue that the slots stand for. */
    ghost function Now(): State
      reads this, algorithm
    {
      State(h, currentRound, algorithm.flowid2bytes, fifoSizes, queue)
    }

    ghost predicate Valid()
      reads this, algorithm
    {
      && algorithm.Valid() && fifoNum > 0 && |fifos| == |fifoSizes| == fifoNum
      && SlotsOk(fifos, h.pending, currentRound)
    }

    /** The size recorded for each slot is that of the slot. */
    ghost predicate Matched()
      reads this
    {
      |fifos| == |fifoSizes| && forall j :: 0 <= j < |fifos| ==> fifoSizes[j] == CellBytes(fifos[j])
    }

    constructor (algorithm: WFQPCQAlgorithm, fifoNum: nat, bufferSize: real)
      requires algorithm.Valid() && fifoNum > 0
      ensures Valid() && Matched() && this.algorithm == algorithm
      ensures Settings() == Config(algorithm.Quotas(), fifoNum, bufferSize / fifoNum as real)
      ensures Now() == Initial(Settings()).(charged := algorithm.flowid2bytes)
    {
      this.algorithm, this.fifoNum := algorithm, fifoNum;
      bufferPerQueue := bufferSize / fifoNum as real;
      fifos := seq(fifoNum, _ => []);
      currentRound := 0;
      fifoSizes := seq(fifoNum, _ => 0);
      queue := [];
      h := History([], [], []);
    }

    /** Ask for a rank and put the packet that many slots ahead, unless that is too far or the slot is full.
        The flow is charged in either case; an unknown flow is an error. */
    method Enqueue(pkt: Pkt) returns (known: bool, ghost o: Outcome)
      requires Valid()
      modifies this, algorithm
      ensures Valid() && ValidConfig(Settings()) && old(Shape(Settings(), Now()))
      ensures (o, Now()) == OnOffer(Settings(), old(Now()), pkt) && (known <==> pkt.flowid in Settings().quota)
      ensures old(Matched()) ==> Matched()
    {
      hide RoundOf, SlotsOk, FirstLeast, CellBytes, Slot, OnOffer, ChargedTo, WFQPCQAlgorithm.Quota;
      ghost var c, before := Settings(), Now();
      ValidShape(this);
      o := Refused(pkt);
      var n;
      known, n := algorithm.RankCal(pkt, currentRound);
      if !known {
        OfferUnknown(c, before, pkt);
        return;
      }
      assert algorithm.flowid2bytes == before.charged[pkt.flowid := Charge(c, before, pkt)];
      OfferIs(c, before, pkt, n);
      if n >= fifoNum || (fifoSizes[n] + pkt.length) as real > bufferPerQueue {
        return;
      }
      ghost var e := Entry(currentRound + n, Cell(n, pkt));
      o := Took(e);
      SlotsArrive(fifos, h.pending, currentRound, n, Cell(n, pkt));
      CellsSnoc(fifos[n], Cell(n, pkt));
      fifoSizes := fifoSizes[n := fifoSizes[n] + pkt.length];
      fifos := fifos[n := fifos[n] + [Cell(n, pkt)]];
      queue := Insert(queue, ItemOf(Cell(n, pkt)));
      h := Arrive(h, e);
    }

    /** Give out the first entry of least key, turning to its round. */
    method Dequeue() returns (r: Served)
      requires Valid()
      modifies this
      ensures Valid() && ValidConfig(Settings()) && old(Shape(Settings(), Now()))
      ensures (Gave(r), Now()) == OnAsk(Settings(), old(Now()))
      ensures old(Matched()) && r.Sent? && r.pkt.length > 0 ==> (Matched() <==> old(fifos)[0] != [])
    {
      hide RoundOf, SlotsOk, FirstLeast, CellBytes, Slot, Without;
      ValidShape(this);
      var empty := IsEmpty();
      if empty {
        return Nothing;
      }
      ghost var turned := false;
      while fifos[0] == []
        invariant Valid() && h == old(h) && h.pending != [] && fifoSizes == old(fifoSizes) && queue == old(queue)
        invariant if turned then old(fifos)[0] == [] else fifos == old(fifos)
        decreases h.pending[FirstLeast(h.pending)].key - currentRound
      {
        SlotsRotate(fifos, h.pending, currentRound);
        RotateQueues();
        turned := true;
      }
      SlotsServe(fifos, h.pending, currentRound);
      var cell := fifos[0][0];
      CellBytesCons(fifos[0]);
      NoCells();
      fifos := fifos[0 := fifos[0][1..]];
      fifoSizes := fifoSizes[0 := fifoSizes[0] - cell.pkt.length];
      var rankError := BisectLeft(queue, ItemOf(cell));
      queue := Remove(queue, ItemOf(cell));
      h := Serve(h);
      r := Sent(cell.pkt, cell.rank, rankError);
      if turned {
        assert old(Matched()) ==> fifoSizes[0] + cell.pkt.length == 0;
        assert CellBytes(fifos[0]) >= 0;
      } else {
        assert forall j :: 1 <= j < |fifos| ==> fifos[j] == old(fifos)[j] && fifoSizes[j] == old(fifoSizes)[j];
      }
    }

    method RotateQueues()
      requires fifos != []
      modifies this`fifos, this`currentRound
      ensures fifos == old(fifos)[1..] + [old(fifos)[0]] && currentRound == old(currentRound) + 1
    {
      var first := fifos[0];
      fifos := fifos[1..];
      fifos := fifos + [first];
      currentRound := currentRound + 1;
    }

    method IsEmpty() returns (empty: bool)
      requires Valid()
      ensures empty <==> h.pending == []
    {
      AllEmpty(fifos, h.pending, currentRound);
      empty := forall j :: 0 <= j < |fifos| ==> fifos[j] == [];
    }
  }

  lemma OfferUnknown(c: Config, s: State, pkt: Pkt)
    requires ValidConfig(c) && Shape(c, s) && pkt.flowid !in c.quota
    ensures OnOffer(c, s, pkt) == (Refused(pkt), s)
  {
  }

  lemma OfferIs(c: Config, s: State, pkt: Pkt, n: nat)
    requires ValidConfig(c) && Shape(c, s) && pkt.flowid in c.quota
    requires n + s.round == RoundOf(Charge(c, s, pkt), c.quota[pkt.flowid])
    ensures var t := s.(charged := s.charged[pkt.flowid := Charge(c, s, pkt)]);
      OnOffer(c, s, pkt) ==
        if n >= c.fifoNum || (s.sizes[n] + pkt.length) as real > c.bufferPerQueue then (Refused(pkt), t) else
          var e := Entry(s.round + n, Cell(n, pkt));
          (Took(e), t.(h := Arrive(s.h, e), sizes := s.sizes[n := s.sizes[n] + pkt.length],
                       shadow := Insert(s.shadow, ItemOf(e.cell))))
  {
    hide Charge, RoundOf;
  }

  lemma ValidShape(s: WFQPCQScheduler)
    requires s.Valid()
    ensures ValidConfig(s.Settings()) && Shape(s.Settings(), s.Now())
  {
    hide SlotsOk;
  }

  /** After one packet that is due two rounds ahead has been served, the sizes recorded for the slots are wrong:
      its own has kept its length, and that of the first slot is negative. */
  method SizesDrift() returns (s: WFQPCQScheduler)
    ensures fresh(s) && s.Valid() && s.Now().h.pending == [] && !s.Matched()
  {
    hide SlotsOk, FirstLeast, CellBytes, Without;
    var a := new WFQPCQAlgorithm(map[0 := 1.0], 10);
    s := new WFQPCQScheduler(a, 4, 4000.0);
    ghost var c, before := s.Settings(), s.Now();
    ValidShape(s);
    var known, o := s.Enqueue(Pkt(0, 0, 25, 25));
    assert c.quota[0] == 10.0 && Charge(c, before, Pkt(0, 0, 25, 25)) == 25.0;
    assert RoundOf(25.0, 10.0) == 2;
    ghost var p := [Entry(2, Cell(2, Pkt(0, 0, 25, 25)))];
    assert s.h.pending == p;
    FirstSlotEmpty(s, p);
    OneLeast(p);
    var r := s.Dequeue();
  }

  lemma FirstSlotEmpty(s: WFQPCQScheduler, p: seq<Entry>)
    requires s.Valid() && s.h.pending == p && s.currentRound == 0 && |p| == 1 && p[0].key == 2
    ensures s.fifos[0] == []
  {
    assert s.fifos[0] == Slot(p, 0 + 0);
  }

  lemma OneLeast(p: seq<Entry>)
    requires |p| == 1
    ensures FirstLeast(p) == 0 && Without(p, 0) == []
  {
  }
}
