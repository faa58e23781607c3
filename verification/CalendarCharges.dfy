/** What the calendar queue charges, records and lets in, told from the calls alone. */
module CalendarCharges {
  import opened Elements
  import opened RoundRanks
  import opened StableQueue
  import opened CalendarModel

  /** The round after the calls is that of the entry served last. */
  function RoundAfter(c: Config, calls: seq<Call>): nat
    requires ValidConfig(c)
  {
    var served := Run(c, calls).1.h.served;
    if served == [] then 0 else served[|served| - 1].key
  }

  /** The quota of a flow in the rounds gone by. */
  function QuotaGone(c: Config, calls: seq<Call>, f: nat): real
    requires ValidConfig(c) && f in c.quota
  {
    RoundAfter(c, calls) as real * c.quota[f]
  }

  /** What the calls charge to a flow: the length of each of its packets, and before that what the flow lacks of its
      quota in the rounds gone by. */
  function ChargedOver(c: Config, calls: seq<Call>, f: nat): (bytes: real)
    requires ValidConfig(c) && f in c.quota
  {
    if calls == [] then 0.0 else
      var init, call := calls[..|calls| - 1], calls[|calls| - 1];
      var before := ChargedOver(c, init, f);
      var lacks := QuotaGone(c, init, f) - before;
      if call.Ask? || call.pkt.flowid != f then before
      else before + (if lacks > 0.0 then lacks else 0.0) + call.pkt.length as real
  }

  /** What the outcomes record for slot j: the packets put there; all packets given out are taken off the first slot. */
  function Recorded(run: seq<Outcome>, j: nat): int {
    if run == [] then 0 else
      var o := run[|run| - 1];
      Recorded(run[..|run| - 1], j) +
      if o.Took? && o.entry.cell.rank == j then o.entry.cell.pkt.length
      else if o.Gave? && o.served.Sent? && j == 0 then -(o.served.pkt.length as int)
      else 0
  }

  lemma StepCharges(c: Config, s: State, call: Call, f: nat)
    requires ValidConfig(c) && Shape(c, s) && f in c.quota
    ensures var t := Respond(c, s, call).1;
      t.charged[f] == if call.Ask? || call.pkt.flowid != f then s.charged[f] else Charge(c, s, call.pkt)
  {
    hide KeyOf, Charge, FirstLeast, Without, BisectLeft, Insert, Remove;
  }

  lemma StepTurns(c: Config, s: State, call: Call)
    requires ValidConfig(c) && Shape(c, s)
    requires s.round == if s.h.served == [] then 0 else s.h.served[|s.h.served| - 1].key
    ensures var t := Respond(c, s, call).1;
      t.round == if t.h.served == [] then 0 else t.h.served[|t.h.served| - 1].key
  {
    hide KeyOf, Charge, FirstLeast, Without, BisectLeft, Insert, Remove;
  }

  lemma StepRecords(c: Config, s: State, call: Call, run: seq<Outcome>, j: nat)
    requires ValidConfig(c) && Shape(c, s) && j < c.fifoNum && s.sizes[j] == Recorded(run, j)
    ensures var (o, t) := Respond(c, s, call); t.sizes[j] == Recorded(run + [o], j)
  {
    hide KeyOf, Charge, FirstLeast, Without, BisectLeft, Insert, Remove;
    var o := Respond(c, s, call).0;
    assert (run + [o])[..|run + [o]| - 1] == run;
  }

  /** In every run the round is that of the entry served last, and what is charged and recorded is what the calls
      and their outcomes say. */
  lemma {:induction false} RunCharges(c: Config, calls: seq<Call>, f: nat, j: nat)
    requires ValidConfig(c) && f in c.quota && j < c.fifoNum
    ensures var (run, s) := Run(c, calls);
      s.round == RoundAfter(c, calls) && s.charged[f] == ChargedOver(c, calls, f) && s.sizes[j] == Recorded(run, j)
  {
    hide Respond, ChargedTo;
    if calls != [] {
      var n := |calls| - 1;
      RunCharges(c, calls[..n], f, j);
      var run, s := Run(c, calls[..n]).0, Run(c, calls[..n]).1;
      if calls[n].Offer? {
        ChargeAdds(s.charged[f], s.round, c.quota[f], calls[n].pkt.length);
      }
      StepCharges(c, s, calls[n], f);
      StepTurns(c, s, calls[n]);
      StepRecords(c, s, calls[n], run, j);
    }
  }

  /** After any run, a packet of a known flow is queued under the round in which the last byte charged to its flow
      falls, exactly if that is less than the number of slots ahead and what is recorded for its slot leaves room; a
      packet of an unknown flow is turned away. */
  lemma OfferDecides(c: Config, calls: seq<Call>, pkt: Pkt) returns (key: nat)
    requires ValidConfig(c)
    ensures pkt.flowid !in c.quota ==> Respond(c, Run(c, calls).1, Offer(pkt)) == (Refused(pkt), Run(c, calls).1)
    ensures pkt.flowid in c.quota ==> var f := pkt.flowid;
      var bytes, round := ChargedOver(c, calls + [Offer(pkt)], f), RoundAfter(c, calls);
      && key as real * c.quota[f] <= bytes < (key + 1) as real * c.quota[f] && key >= round
      && var n := key - round;
        var room := n < c.fifoNum && (Recorded(Run(c, calls).0, n) + pkt.length) as real <= c.bufferPerQueue;
        Respond(c, Run(c, calls).1, Offer(pkt)).0 == if room then Took(Entry(key, Cell(n, pkt))) else Refused(pkt)
  {
    hide Run, RoundOf, Charge, KeyOf, Insert, Recorded, ChargedOver, RoundAfter;
    key := 0;
    if pkt.flowid in c.quota {
      var f, s := pkt.flowid, Run(c, calls).1;
      key := KeyOf(c, s, pkt);
      RunCharges(c, calls, f, if key - s.round < c.fifoNum then key - s.round else 0);
      KeyHolds(c, s, pkt);
      ChargedNext(c, calls, pkt);
    }
  }

  lemma KeyHolds(c: Config, s: State, pkt: Pkt)
    requires ValidConfig(c) && Shape(c, s) && pkt.flowid in c.quota
    ensures var key, quota := KeyOf(c, s, pkt), c.quota[pkt.flowid];
      key as real * quota <= Charge(c, s, pkt) < (key + 1) as real * quota
  {
    hide RoundOf, Charge;
    RoundBounds(Charge(c, s, pkt), c.quota[pkt.flowid]);
  }

  lemma ChargedNext(c: Config, calls: seq<Call>, pkt: Pkt)
    requires ValidConfig(c) && pkt.flowid in c.quota
    ensures ChargedOver(c, calls + [Offer(pkt)], pkt.flowid) == Charge(c, Run(c, calls).1, pkt)
  {
    hide Run, RoundOf, ChargedTo, ChargedOver, RoundAfter;
    RunCharges(c, calls, pkt.flowid, 0);
    OneMore(c, calls, pkt);
    ChargeAdds(ChargedOver(c, calls, pkt.flowid), RoundAfter(c, calls), c.quota[pkt.flowid], pkt.length);
  }

  lemma OneMore(c: Config, calls: seq<Call>, pkt: Pkt)
    requires ValidConfig(c) && pkt.flowid in c.quota
    ensures var before := ChargedOver(c, calls, pkt.flowid);
      var lacks := QuotaGone(c, calls, pkt.flowid) - before;
      ChargedOver(c, calls + [Offer(pkt)], pkt.flowid)
        == before + (if lacks > 0.0 then lacks else 0.0) + pkt.length as real
  {
    hide Run, QuotaGone;
    assert (calls + [Offer(pkt)])[..|calls + [Offer(pkt)]| - 1] == calls;
  }

  lemma ChargeAdds(before: real, round: nat, quota: real, length: nat)
    ensures var lacks := round as real * quota - before;
      ChargedTo(before, round, quota, length) == before + (if lacks > 0.0 then lacks else 0.0) + length as real
  {
  }
}
