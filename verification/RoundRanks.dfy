/** Weighted fair ranks in rounds: a flow of weight w has a quota of bytes in each round. */
module RoundRanks {
  import opened Elements

  /** The round in which the last of the given bytes of a flow falls. */
  function RoundOf(bytes: real, quota: real): int
    requires quota > 0.0
  {
    (bytes / quota).Floor
  }

  lemma Scaled(x: real, y: real, q: real)
    requires q > 0.0
    ensures x <= y ==> x * q <= y * q
    ensures x < y ==> x * q < y * q
  {
  }

  lemma RoundBounds(bytes: real, quota: real)
    requires quota > 0.0
    ensures var k := RoundOf(bytes, quota); k as real * quota <= bytes < (k + 1) as real * quota
  {
    var x := bytes / quota;
    var k := RoundOf(bytes, quota);
    assert k as real <= x < (k + 1) as real;
    Multiplied(x, k as real, (k + 1) as real, bytes, quota);
  }

  lemma Multiplied(x: real, lo: real, hi: real, bytes: real, quota: real)
    requires quota > 0.0 && lo <= x < hi && x == bytes / quota
    ensures lo * quota <= bytes < hi * quota
  {
    assert x * quota == bytes;
    Scaled(lo, x, quota);
    Scaled(x, hi, quota);
  }

  lemma RoundMonotone(a: real, b: real, quota: real)
    requires quota > 0.0 && a <= b
    ensures RoundOf(a, quota) <= RoundOf(b, quota)
  {
    var x, y := a / quota, b / quota;
    assert x * quota == a && y * quota == b;
    if x > y {
      Scaled(y, x, quota);
    }
  }

  lemma RoundAtLeast(bytes: real, round: int, quota: real)
    requires quota > 0.0 && bytes >= round as real * quota
    ensures RoundOf(bytes, quota) >= round
    ensures (bytes / quota - round as real).Floor == RoundOf(bytes, quota) - round
  {
    var x := bytes / quota;
    assert x * quota == bytes;
    if x < round as real {
      Scaled(x, round as real, quota);
    }
  }

  /** Bytes after the start of a round fall as many rounds later as they are whole quotas. */
  lemma RoundsAhead(bytes: real, round: nat, quota: real)
    requires quota > 0.0
    ensures RoundOf(round as real * quota + bytes, quota) == round + (bytes / quota).Floor
  {
    var x := bytes / quota;
    assert x * quota == bytes;
    assert (round as real + x) * quota == round as real * quota + x * quota;
    assert (round as real * quota + bytes) / quota == round as real + x;
  }

  /** The bytes of a flow after a packet of the given length, counted from the start of the round at the earliest. */
  function ChargedTo(before: real, round: nat, quota: real, length: nat): (bytes: real)
  {
    (if before >= round as real * quota then before else round as real * quota) + length as real
  }

  lemma ChargeAhead(before: real, round: nat, quota: real, length: nat)
    requires quota > 0.0
    ensures ChargedTo(before, round, quota, length) >= before + length as real
    ensures ChargedTo(before, round, quota, length) >= round as real * quota
  {
  }

  /** A flow that has been charged at least for the rounds gone by is charged the length of a packet more; any other
      is charged the length from the start of the current round on, and n is the number of whole quotas in the length.
      In either case the last byte charged falls in the n-th round after the current one. */
  ghost predicate Charges(before: real, after: real, round: nat, n: nat, quota: real, length: nat) {
    var gone := round as real * quota;
    && quota > 0.0
    && (before >= gone ==> after == before + length as real)
    && (before < gone ==> after == gone + length as real && n == (length as real / quota).Floor)
    && (round + n) as real * quota <= after < (round + n + 1) as real * quota
  }

  lemma ChargeIs(before: real, round: nat, quota: real, length: nat, n: nat)
    requires quota > 0.0 && round + n == RoundOf(ChargedTo(before, round, quota, length), quota)
    ensures Charges(before, ChargedTo(before, round, quota, length), round, n, quota, length)
  {
    hide RoundOf;
    RoundBounds(ChargedTo(before, round, quota, length), quota);
    RoundsAhead(length as real, round, quota);
  }

  class WFQPCQAlgorithm {
    const flowid2weight: map<nat, real>
    const bpR: int
    var flowid2bytes: map<nat, real>

    /** The bytes a flow may send in one round. */
    function Quota(f: nat): real
      requires f in flowid2weight
    {
      bpR as real * flowid2weight[f]
    }

    function Quotas(): (q: map<nat, real>)
      ensures q.Keys == flowid2weight.Keys && forall f :: f in q ==> q[f] == Quota(f)
    {
      map f | f in flowid2weight :: Quota(f)
    }

    ghost predicate Valid()
      reads this
    {
      && flowid2bytes.Keys == flowid2weight.Keys
      && forall f :: f in flowid2weight ==> Quota(f) > 0.0 && flowid2bytes[f] >= 0.0
    }

    constructor (flowid2weight: map<nat, real>, bpR: int)
      requires bpR > 0 && forall f :: f in flowid2weight ==> flowid2weight[f] > 0.0
      ensures Valid() && this.flowid2weight == flowid2weight && this.bpR == bpR
      ensures forall f :: f in flowid2weight ==> flowid2bytes[f] == 0.0 && Quota(f) == bpR as real * flowid2weight[f]
    {
      this.flowid2weight := flowid2weight;
      this.bpR := bpR;
      flowid2bytes := map f | f in flowid2weight :: 0.0;
      new;
      forall f | f in flowid2weight
        ensures Quota(f) > 0.0
      {
        Scaled(0.0, bpR as real, flowid2weight[f]);
      }
    }

    /** The rank of a packet is how many rounds ahead its last byte falls, counting the bytes of its flow
        from the start of the current round at the earliest.  A flow without a weight is an error. */
    method RankCal(pkt: Pkt, currentRound: nat) returns (known: bool, n: nat)
      requires Valid()
      modifies this
      ensures Valid() && (known <==> pkt.flowid in flowid2weight)
      ensures !known ==> flowid2bytes == old(flowid2bytes)
      ensures known ==> pkt.flowid in old(flowid2bytes)
      ensures known ==> var f := pkt.flowid;
        var bytes := ChargedTo(old(flowid2bytes)[f], currentRound, Quota(f), pkt.length);
        flowid2bytes == old(flowid2bytes)[f := bytes] && n + currentRound == RoundOf(bytes, Quota(f))
      ensures known ==> var f := pkt.flowid;
        Charges(old(flowid2bytes)[f], flowid2bytes[f], currentRound, n, Quota(f), pkt.length)
    {
      hide RoundOf, ChargedTo, Quota, Charges;
      var f := pkt.flowid;
      n := 0;
      known := f in flowid2weight;
      if !known {
        return;
      }
      var bytes;
      bytes, n := ChargeFlow(flowid2bytes[f], currentRound, Quota(f), pkt.length);
      flowid2bytes := flowid2bytes[f := bytes];
    }

    /** The bytes charged to a flow after a packet, and how many rounds after the current one the last of them falls. */
    method ChargeFlow(before: real, currentRound: nat, quota: real, length: nat) returns (bytes: real, n: nat)
      requires quota > 0.0
      ensures bytes == ChargedTo(before, currentRound, quota, length) && n + currentRound == RoundOf(bytes, quota)
      ensures Charges(before, bytes, currentRound, n, quota, length) && bytes >= before
    {
      hide RoundOf;
      var baseline := currentRound as real * quota;
      bytes := (if before >= baseline then before else baseline) + length as real;
      ChargeAhead(before, currentRound, quota, length);
      n := WholeRounds(bytes, quota, currentRound);
      ChargeIs(before, currentRound, quota, length, n);
    }

    /** How many rounds after the current one the last of the bytes falls. */
    method WholeRounds(numerator: real, quota: real, currentRound: nat) returns (n: nat)
      requires quota > 0.0 && numerator >= currentRound as real * quota
      ensures n + currentRound == RoundOf(numerator, quota)
    {
      hide RoundOf;
      RoundAtLeast(numerator, currentRound, quota);
      var rank := (numerator / quota - currentRound as real).Floor;
      n := if rank > 0 then rank else 0;
    }
  }
}
