/** Whole runs of the rotating calendar queue: it is a stable priority queue keyed by absolute round. */
module CalendarRuns {
  import opened Elements
  import opened StableQueue
  import opened CalendarModel
  import opened CalendarQueue

  method Perform(s: WFQPCQScheduler, call: Call) returns (ghost o: Outcome, out: seq<Served>)
    requires s.Valid()
    modifies s, s.algorithm
    ensures s.Valid() && ValidConfig(s.Settings()) && old(Shape(s.Settings(), s.Now()))
    ensures (o, s.Now()) == Respond(s.Settings(), old(s.Now()), call)
    ensures out == if o.Gave? && o.served.Sent? then [o.served] else []
  {
    hide OnOffer, OnAsk, SlotsOk, Shape;
    out := [];
    match call
    case Offer(pkt) =>
      OfferGivesNothing(s, pkt);
      var known;
      known, o := s.Enqueue(pkt);
    case Ask =>
      var r := s.Dequeue();
      o := Gave(r);
      if r.Sent? {
        out := [r];
      }
  }

  lemma OfferGivesNothing(s: WFQPCQScheduler, pkt: Pkt)
    requires s.Valid()
    ensures ValidConfig(s.Settings()) && Shape(s.Settings(), s.Now())
    ensures !OnOffer(s.Settings(), s.Now(), pkt).0.Gave?
  {
    hide SlotsOk;
    ValidShape(s);
  }

  /** Over any run of calls on a fresh scheduler, with packets of any flows, the packets given out and the state
      reached are those of the stable priority queue: which packets are turned away, the round each of the others
      is queued under, and which of them each request is served. */
  method Execute(s: WFQPCQScheduler, calls: seq<Call>) returns (out: seq<Served>)
    requires s.Valid() && s.Now() == Initial(s.Settings())
    modifies s, s.algorithm
    ensures s.Valid() && ValidConfig(s.Settings())
    ensures s.Now() == Run(s.Settings(), calls).1 && out == Output(Run(s.Settings(), calls).0)
  {
    hide SlotsOk, Shape, Initial, Respond;
    ValidShape(s);
    ghost var c, run := s.Settings(), [];
    out := [];
    var k := 0;
    assert calls[..0] == [];
    while k < |calls|
      invariant k <= |calls| && s.Valid() && (run, s.Now()) == Run(c, calls[..k])
      invariant out == Output(run)
    {
      assert calls[..k + 1][..k] == calls[..k];
      var more;
      ghost var o;
      o, more := Perform(s, calls[k]);
      assert (run + [o])[..|run + [o]| - 1] == run;
      run := run + [o];
      out := out + more;
      k := k + 1;
    }
    assert calls[..k] == calls;
  }
}
