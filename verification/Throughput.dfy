/**
 The throughput measurer's protocol overhead and efficiency arithmetic. Byte counts are unbounded
 naturals; the subtraction in the efficiency is on unsigned integers, so it must not go below zero.
 */
module Throughput {
  import opened Common

  /** Headers and encryption, 20% for routing and 15% for error correction, each part truncated. */
  function Overhead(sent: nat): nat
  {
    (32 + 16) + (sent as real * 0.20).Floor + (sent as real * 0.15).Floor
  }

  /** What truncation takes away from the estimate, in twentieths of a byte. */
  function Residue(sent: nat): nat
  {
    4 * (sent % 5) + (3 * sent) % 20
  }

  /** The estimate in integers: 48 bytes and 7 bytes in 20, less the truncated part. */
  lemma OverheadInIntegers(sent: nat)
    ensures 20 * Overhead(sent) + Residue(sent) == 960 + 7 * sent
  {
    RoutingFloor(sent, sent / 5, sent % 5);
    CorrectionFloor(sent, (3 * sent) / 20, (3 * sent) % 20);
  }

  lemma RoutingFloor(sent: nat, q: nat, r: nat)
    requires sent == 5 * q + r && r < 5
    ensures (sent as real * 0.20).Floor == q
  {
    assert sent as real == 5.0 * q as real + r as real;
    assert q as real <= sent as real * 0.20 < q as real + 1.0;
  }

  lemma CorrectionFloor(sent: nat, q: nat, r: nat)
    requires 3 * sent == 20 * q + r && r < 20
    ensures (sent as real * 0.15).Floor == q
  {
    assert 3.0 * sent as real == 20.0 * q as real + r as real;
    assert q as real <= sent as real * 0.15 < q as real + 1.0;
  }

  /** The estimate stays within what was sent exactly from 72 bytes on. */
  lemma OverheadWithinSent(sent: nat)
    ensures Overhead(sent) <= sent <==> sent >= 72
  {
    OverheadInIntegers(sent);
    if 70 < sent < 74 {
      assert sent == 71 || sent == 72 || sent == 73;
    }
  }

  datatype Transfer = Transfer(sent: nat, received: nat)

  function SentOf(t: Transfer): nat
  {
    t.sent
  }

  function OverheadOf(t: Transfer): nat
  {
    Overhead(t.sent)
  }

  function ResidueOf(t: Transfer): nat
  {
    Residue(t.sent)
  }

  function Bytes(n: nat): nat
  {
    n
  }

  function TotalSent(ts: seq<Transfer>): nat
  {
    SumOf(ts, SentOf)
  }

  function TotalOverhead(ts: seq<Transfer>): nat
  {
    SumOf(ts, OverheadOf)
  }

  function TotalResidue(ts: seq<Transfer>): nat
  {
    SumOf(ts, ResidueOf)
  }

  lemma {:induction false} TotalInIntegers(ts: seq<Transfer>)
    ensures 20 * TotalOverhead(ts) + TotalResidue(ts) == 960 * |ts| + 7 * TotalSent(ts)
  {
    if ts == [] {
    } else {
      TotalInIntegers(ts[..|ts| - 1]);
      OverheadInIntegers(ts[|ts| - 1].sent);
    }
  }

  datatype Efficiency = Efficiency(overheadPercentage: real, efficiency: real)

  /** The subtraction underflows; with nothing sent no subtraction is made. */
  predicate Underflows(sent: nat, overhead: nat)
  {
    sent > 0 && overhead > sent
  }

  function EfficiencyOf(sent: nat, overhead: nat): Efficiency
    requires !Underflows(sent, overhead)
  {
    if sent > 0
    then Efficiency(overhead as real / sent as real * 100.0, (sent - overhead) as real / sent as real * 100.0)
    else Efficiency(0.0, 100.0)
  }

  /** `e` splits the bytes sent into the overhead's share and the rest, which are percentages of them. */
  ghost predicate Splits(e: Efficiency, sent: nat, overhead: nat)
  {
    && 0.0 <= e.efficiency <= 100.0
    && e.efficiency + e.overheadPercentage == 100.0
    && if sent == 0 then e.efficiency == 100.0 else e.overheadPercentage * sent as real == overhead as real * 100.0
  }

  lemma EfficiencyComplements(sent: nat, overhead: nat)
    requires !Underflows(sent, overhead)
    ensures Splits(EfficiencyOf(sent, overhead), sent, overhead)
  {
    if sent > 0 {
      var s, o := sent as real, overhead as real;
      ShareOf(o, s);
      assert (sent - overhead) as real == s - o;
      Complement(o, s);
      QuotientSign(o, s);
      QuotientSign(s - o, s);
    }
  }

  lemma ShareOf(o: real, s: real)
    requires s > 0.0
    ensures (o / s * 100.0) * s == o * 100.0
  {
    assert o / s * s == o;
  }

  lemma Complement(o: real, s: real)
    requires s > 0.0
    ensures o / s + (s - o) / s == 1.0
  {
    assert o / s + (s - o) / s == (o + (s - o)) / s;
  }

  lemma QuotientSign(a: real, s: real)
    requires a >= 0.0 && s > 0.0
    ensures a / s >= 0.0
  {
  }

  lemma {:induction false} RunWithinSent(ts: seq<Transfer>)
    requires forall i :: 0 <= i < |ts| ==> ts[i].sent >= 72
    ensures TotalOverhead(ts) <= TotalSent(ts)
  {
    if ts == [] {
    } else {
      RunWithinSent(ts[..|ts| - 1]);
      OverheadWithinSent(ts[|ts| - 1].sent);
    }
  }

  lemma {:induction false} RunBeyondSent(ts: seq<Transfer>)
    requires forall i :: 0 <= i < |ts| ==> ts[i].sent < 72
    ensures ts != [] ==> TotalOverhead(ts) > TotalSent(ts)
  {
    if ts == [] {
    } else {
      RunBeyondSent(ts[..|ts| - 1]);
      OverheadWithinSent(ts[|ts| - 1].sent);
      assert |ts| == 1 ==> TotalSent(ts[..0]) == 0 == TotalOverhead(ts[..0]);
    }
  }

  /**
   For every run that sends anything the subtraction underflows exactly if the bytes sent are too few for
   the number of transfers. It never does if every transfer has at least 72 bytes, and efficiency and
   overhead then add up to 100%; it always does if every transfer has fewer.
   */
  lemma EfficiencyOfRuns(ts: seq<Transfer>)
    ensures Underflows(TotalSent(ts), TotalOverhead(ts)) <==>
            TotalSent(ts) > 0 && 13 * TotalSent(ts) + TotalResidue(ts) < 960 * |ts|
    ensures (forall i :: 0 <= i < |ts| ==> ts[i].sent >= 72) ==>
              && !Underflows(TotalSent(ts), TotalOverhead(ts))
              && Splits(EfficiencyOf(TotalSent(ts), TotalOverhead(ts)), TotalSent(ts), TotalOverhead(ts))
    ensures (forall i :: 0 <= i < |ts| ==> ts[i].sent < 72) && TotalSent(ts) > 0 ==>
              Underflows(TotalSent(ts), TotalOverhead(ts))
  {
    TotalInIntegers(ts);
    if forall i :: 0 <= i < |ts| ==> ts[i].sent >= 72 {
      RunWithinSent(ts);
      EfficiencyComplements(TotalSent(ts), TotalOverhead(ts));
    }
    if forall i :: 0 <= i < |ts| ==> ts[i].sent < 72 {
      RunBeyondSent(ts);
    }
  }

  class ThroughputMeasurer {
    var overheads: seq<nat>
    var totalSent: nat
    var totalReceived: nat
    ghost var transfers: seq<Transfer>

    ghost predicate Valid()
      reads this
    {
      totalSent == TotalSent(transfers) && SumOf(overheads, Bytes) == TotalOverhead(transfers)
    }

    constructor ()
      ensures Valid() && transfers == []
    {
      overheads, totalSent, totalReceived, transfers := [], 0, 0, [];
    }

    method RecordTransfer(sent: nat, received: nat)
      requires Valid()
      modifies this
      ensures Valid() && transfers == old(transfers) + [Transfer(sent, received)]
      ensures totalReceived == old(totalReceived) + received
    {
      totalSent := totalSent + sent;
      totalReceived := totalReceived + received;
      ghost var before, list := transfers, overheads;
      overheads := overheads + [Overhead(sent)];
      transfers := transfers + [Transfer(sent, received)];
      assert transfers[..|transfers| - 1] == before && overheads[..|overheads| - 1] == list;
    }

    /** The two percentages of the statistics; `None` marks the unsigned underflow. */
    method Percentages() returns (ok: bool, e: Efficiency)
      requires Valid()
      ensures ok <==> !Underflows(TotalSent(transfers), TotalOverhead(transfers))
      ensures ok ==> Splits(e, TotalSent(transfers), TotalOverhead(transfers))
    {
      var total := SumOf(overheads, Bytes);
      ok, e := !Underflows(totalSent, total), Efficiency(0.0, 100.0);
      if ok {
        e := EfficiencyOf(totalSent, total);
        EfficiencyComplements(totalSent, total);
      }
    }
  }
}
