/**
 How the window moves: exactly by what is acknowledged in slow start, by a packet a
 window after it, down on losses and on a standing queue; and what the controller's
 counters, rate and RTT floor are in every reachable state.
 */
module CongestionLaws {
  import opened Basics
  import opened Congestion
  import opened CongestionProofs

  function Ceiling(c: Controller): nat { Packets(MAX_CWND_PACKETS, c.mtu) }

  function Floor(c: Controller): nat { Packets(MIN_CWND_PACKETS, c.mtu) }

  predicate IsAck(e: Timed) { e.event.AckRtt? || e.event.AckNoRtt? }

  /** Inflation is measured: SRTT against the RTT floor, and none before the first sample. */
  lemma InflationIff(c: Controller, k: nat)
    ensures c.Inflation() >= k as real
            <==> if c.rttInitialized && c.minRtt > 0 then c.srtt >= k * c.minRtt else k <= 1
  {
    if c.rttInitialized && c.minRtt > 0 {
      var q := Ratio(c.srtt, c.minRtt);
      assert q * c.minRtt as real == c.srtt as real;
      if q >= k as real { assert q * c.minRtt as real >= k as real * c.minRtt as real; }
      assert k as real * c.minRtt as real == (k * c.minRtt) as real;
    }
  }

  // ---------- Slow start ----------

  /** ACKs only, none of which finds the RTT doubled. */
  ghost predicate Rising(c: Controller, run: seq<Timed>) {
    run == []
    || (&& Rising(c, run[..|run| - 1]) && IsAck(run[|run| - 1])
        && After(c, run).Inflation() < RTT_INFLATION_EXIT_SLOW_START)
  }

  /** One ACK in slow start, whatever the queue. */
  lemma SlowStartStep(c: Controller, e: Timed)
    requires WindowBounded(c) && c.phase == SlowStart && IsAck(e)
    ensures var d := Apply(c, e);
            && d.mtu == c.mtu && WindowBounded(d)
            && (d.phase == ProbeBandwidth <==> d.Inflation() >= 2.0 || c.cwnd + e.event.bytes >= c.ssthresh)
            && (d.Inflation() < 2.0 ==> d.cwnd == Min(c.cwnd + e.event.bytes, Ceiling(c)) && d.ssthresh == c.ssthresh)
            && (2.0 <= d.Inflation() < 4.0 ==> d.cwnd == d.ssthresh == c.cwnd)
  {
    StepKeepsWindow(c, e);
  }

  /** `d` is `c` in slow start with `acked` bytes more in its window. */
  ghost predicate Risen(c: Controller, d: Controller, acked: nat) {
    && WindowBounded(d) && d.phase == SlowStart && d.mtu == c.mtu && d.ssthresh == c.ssthresh
    && d.cwnd == Min(c.cwnd + acked, Ceiling(c))
  }

  lemma RisesOn(c: Controller, d: Controller, acked: nat, e: Timed)
    requires Risen(c, d, acked) && IsAck(e) && Apply(d, e).Inflation() < RTT_INFLATION_EXIT_SLOW_START
    requires c.cwnd + acked + e.event.bytes < c.ssthresh
    ensures Risen(c, Apply(d, e), acked + e.event.bytes)
  {
    SlowStartStep(d, e);
  }

  /** In slow start the window grows by exactly what is acknowledged, up to its ceiling. */
  lemma {:induction false} SlowStartIsExact(c: Controller, run: seq<Timed>)
    requires WindowBounded(c) && c.phase == SlowStart && Rising(c, run) && c.cwnd + AckedBytes(run) < c.ssthresh
    ensures Risen(c, After(c, run), AckedBytes(run))
  {
    if run != [] {
      var front := run[..|run| - 1];
      SlowStartIsExact(c, front);
      RisesOn(c, After(c, front), AckedBytes(front), run[|run| - 1]);
    }
  }

  /** So ACKs for one whole window double it. */
  lemma FullWindowDoubles(c: Controller, run: seq<Timed>)
    requires WindowBounded(c) && c.phase == SlowStart && Rising(c, run)
    requires AckedBytes(run) == c.cwnd && 2 * c.cwnd < c.ssthresh && 2 * c.cwnd <= Ceiling(c)
    ensures After(c, run).cwnd == 2 * c.cwnd && After(c, run).phase == SlowStart
  {
    SlowStartIsExact(c, run);
  }

  /** In `x`, where slow start began at `c` and has added `acked` bytes, the ACK ends it exactly when it should. */
  ghost predicate EndsDuly(c: Controller, x: Controller, acked: nat, e: Timed)
    requires IsAck(e)
  {
    Apply(x, e).phase == ProbeBandwidth
    <==> Apply(x, e).Inflation() >= 2.0 || Min(c.cwnd + acked, Ceiling(c)) + e.event.bytes >= c.ssthresh
  }

  lemma RisenEndsIff(c: Controller, x: Controller, acked: nat, e: Timed)
    requires Risen(c, x, acked) && IsAck(e)
    ensures EndsDuly(c, x, acked, e)
  {
    SlowStartStep(x, e);
  }

  /** Slow start ends with the ACK that brings the window to the threshold or finds the RTT doubled, and with no other. */
  lemma SlowStartEndsIff(c: Controller, front: seq<Timed>, e: Timed)
    requires WindowBounded(c) && c.phase == SlowStart && Rising(c, front) && c.cwnd + AckedBytes(front) < c.ssthresh
    requires IsAck(e)
    ensures EndsDuly(c, After(c, front), AckedBytes(front), e)
  {
    SlowStartIsExact(c, front);
    RisenEndsIff(c, After(c, front), AckedBytes(front), e);
  }

  // ---------- After slow start ----------

  /** One calm ACK below the ceiling adds its share of a packet, rounded down. */
  lemma CalmAckAdds(c: Controller, e: Timed)
    requires WindowBounded(c) && c.phase == ProbeBandwidth && IsAck(e)
    requires Apply(c, e).Inflation() < RTT_INFLATION_BACKOFF && Apply(c, e).cwnd < Ceiling(c)
    ensures var d := Apply(c, e);
            && c.cwnd <= d.cwnd && d.phase == ProbeBandwidth && d.mtu == c.mtu && WindowBounded(d)
            && (d.cwnd - c.cwnd) * c.cwnd <= e.event.bytes * c.mtu < (d.cwnd - c.cwnd + 1) * c.cwnd
  {
    CalmAckStep(c, e);
    var step := AdditiveStep(e.event.bytes, c.mtu, c.cwnd);
    assert Apply(c, e).cwnd == c.cwnd + step;
    ShareOf(e.event.bytes * c.mtu, c.cwnd);
  }

  lemma ShareOf(a: nat, w: nat)
    requires w > 0
    ensures a / w * w <= a < (a / w + 1) * w
  {
  }

  /** Acknowledged bytes have been paid back: growth, and at most a byte an ACK lost to rounding, make up for them. */
  ghost predicate PaidBack(c: Controller, d: Controller, acked: nat, acks: nat) {
    d.phase == ProbeBandwidth && d.mtu == c.mtu && WindowBounded(d) && c.cwnd <= d.cwnd
    && acked * c.mtu <= (d.cwnd - c.cwnd + acks) * d.cwnd
  }

  lemma PaidBackOn(c: Controller, d: Controller, acked: nat, acks: nat, e: Timed)
    requires PaidBack(c, d, acked, acks) && IsAck(e)
    requires Apply(d, e).Inflation() < RTT_INFLATION_BACKOFF && Apply(d, e).cwnd < Ceiling(c)
    ensures PaidBack(c, Apply(d, e), acked + e.event.bytes, acks + 1)
  {
    CalmAckAdds(d, e);
    var f, bytes := Apply(d, e), e.event.bytes;
    PaidArithmetic(acked, bytes, c.mtu, d.cwnd - c.cwnd + acks, f.cwnd - d.cwnd + 1, d.cwnd, f.cwnd);
  }

  lemma PaidArithmetic(acked: nat, bytes: nat, mtu: nat, before: nat, more: nat, w: nat, v: nat)
    requires acked * mtu <= before * w && bytes * mtu <= more * w && w <= v
    ensures (acked + bytes) * mtu <= (before + more) * v
  {
    assert (acked + bytes) * mtu == acked * mtu + bytes * mtu;
    assert (before + more) * v == before * v + more * v;
    TimesMonotone(w, v, before);
    TimesMonotone(w, v, more);
    assert before * w == w * before && more * w == w * more && before * v == v * before && more * v == v * more;
  }

  lemma CalmFront(c: Controller, run: seq<Timed>)
    requires run != [] && CalmAcks(c, run) && WindowBounded(c) && c.phase == ProbeBandwidth
    ensures After(c, run[..|run| - 1]).cwnd <= After(c, run).cwnd && After(c, run).mtu == c.mtu
  {
    var front := run[..|run| - 1];
    GrowthIsPaidFor(c, front);
    CalmAckStep(After(c, front), run[|run| - 1]);
  }

  /** The partner of the bound on growth: below the ceiling the window does grow, by what is acknowledged. */
  lemma {:induction false} GrowthIsPaidBack(c: Controller, run: seq<Timed>)
    requires WindowBounded(c) && c.phase == ProbeBandwidth && CalmAcks(c, run) && After(c, run).cwnd < Ceiling(c)
    ensures PaidBack(c, After(c, run), AckedBytes(run), |run|)
  {
    if run != [] {
      var front := run[..|run| - 1];
      CalmFront(c, run);
      GrowthIsPaidBack(c, front);
      PaidBackOn(c, After(c, front), AckedBytes(front), |front|, run[|run| - 1]);
    }
  }

  /** An ACK on a standing queue halves the window, once down to two packets, and ends slow start there. */
  lemma StandingQueueHalves(c: Controller, e: Timed)
    requires WindowBounded(c) && IsAck(e) && Apply(c, e).Inflation() >= RTT_INFLATION_BACKOFF
    ensures var d := Apply(c, e);
            d.cwnd == d.ssthresh == Max(c.cwnd / 2, Floor(c)) && d.phase == ProbeBandwidth
  {
  }

  // ---------- Losses ----------

  ghost predicate OnlyLosses(run: seq<Timed>) {
    forall i :: 0 <= i < |run| ==> run[i].event.Loss?
  }

  function Power(b: nat, n: nat): nat { if n == 0 then 1 else b * Power(b, n - 1) }

  lemma LossStep(c: Controller, e: Timed)
    requires WindowBounded(c) && c.phase == ProbeBandwidth && e.event.Loss?
    ensures var d := Apply(c, e);
            d.cwnd == Max(c.cwnd * 7 / 10, Floor(c)) && d.phase == ProbeBandwidth && d.mtu == c.mtu && WindowBounded(d)
  {
    StepKeepsWindow(c, e);
  }

  /** After `n` losses past slow start the window is at most 0.7^n of what it was, or two packets. */
  lemma {:induction false} LossesDecay(c: Controller, run: seq<Timed>)
    requires WindowBounded(c) && c.phase == ProbeBandwidth && OnlyLosses(run)
    ensures var d := After(c, run);
            && d.phase == ProbeBandwidth && d.mtu == c.mtu && WindowBounded(d)
            && (d.cwnd == Floor(c) || Power(10, |run|) * d.cwnd <= Power(7, |run|) * c.cwnd)
  {
    if run != [] {
      var front := run[..|run| - 1];
      LossesDecay(c, front);
      var m := After(c, front);
      LossStep(m, run[|run| - 1]);
      var d := After(c, run);
      if d.cwnd != Floor(c) { DecayArithmetic(Power(10, |front|), Power(7, |front|), m.cwnd, c.cwnd, d.cwnd); }
    }
  }

  lemma DecayArithmetic(ten: nat, seven: nat, m: nat, c: nat, d: nat)
    requires ten * m <= seven * c && d == m * 7 / 10
    ensures 10 * ten * d <= 7 * seven * c
  {
    assert 10 * d <= 7 * m;
    TimesMonotone(10 * d, 7 * m, ten);
    assert 10 * ten * d == 10 * d * ten && 7 * m * ten == 7 * (ten * m);
    assert 7 * (ten * m) <= 7 * (seven * c);
    assert 7 * seven * c == 7 * (seven * c);
  }

  /** Where the tolerance window starts when a loss comes at `now`. */
  function ToleranceStart(c: Controller, now: int): int {
    if Since(now, c.slowStartLossWindowStart) > 500 * MILLISECOND then now else c.slowStartLossWindowStart
  }

  /**
   Three losses end slow start if and only if the third comes within half a second of
   the start of the tolerance window the first one fell into or opened; then the
   threshold is half the window. Until then each costs a fifth of it.
   */
  lemma ThirdLossEndsIff(c: Controller, e1: Timed, e2: Timed, e3: Timed)
    requires WindowBounded(c) && c.phase == SlowStart && c.slowStartLosses == 0
    requires e1.event.Loss? && e2.event.Loss? && e3.event.Loss? && e1.now <= e2.now <= e3.now
    ensures var c1, c2, c3 := Apply(c, e1), Apply(Apply(c, e1), e2), Apply(Apply(Apply(c, e1), e2), e3);
            && c1.phase == c2.phase == SlowStart
            && c1.cwnd == Max(c.cwnd * 8 / 10, Floor(c)) && c2.cwnd == Max(c1.cwnd * 8 / 10, Floor(c))
            && (c3.phase == ProbeBandwidth <==> Since(e3.now, ToleranceStart(c, e1.now)) <= 500 * MILLISECOND)
            && (if c3.phase == ProbeBandwidth then c3.ssthresh == c2.cwnd / 2 && c3.cwnd == Max(c2.cwnd / 2, Floor(c))
                else c3.cwnd == Max(c2.cwnd * 8 / 10, Floor(c)))
  {
    TolerantLoss(c, e1);
    TolerantLoss(Apply(c, e1), e2);
    TolerantLoss(Apply(Apply(c, e1), e2), e3);
  }

  lemma TolerantLoss(c: Controller, e: Timed)
    requires c.phase == SlowStart && e.event.Loss?
    ensures var d, start := Apply(c, e), ToleranceStart(c, e.now);
            var losses := (if start == c.slowStartLossWindowStart then c.slowStartLosses else 0) + 1;
            && d.mtu == c.mtu && d.slowStartLosses == losses && d.slowStartLossWindowStart == start
            && (if losses >= 3 then d.phase == ProbeBandwidth && d.ssthresh == c.cwnd / 2 && d.cwnd == Max(c.cwnd / 2, Floor(c))
                else d.phase == SlowStart && d.cwnd == Max(c.cwnd * 8 / 10, Floor(c)))
  {
  }

  // ---------- The path reset ----------

  /** A fresh controller is in slow start, open-ended, with 32 packets to send and none in flight. */
  lemma FreshStarts(mtu: Mtu, now: int)
    ensures var c := Fresh(mtu, now);
            && c.phase == SlowStart && c.cwnd == 32 * mtu && c.ssthresh == U64_MAX && c.bytesInFlight == 0
            && !c.rttInitialized && c.minRtt == 30 * MILLISECOND && c.Rto() == 90 * MILLISECOND && c.slowStartLosses == 0
            && c.pacingTokens == c.cwnd as real && WindowBounded(c)
  {
  }

  /** A reset leaves a fresh controller, but for what is in flight and what was ever acknowledged. */
  lemma ResetForgets(c: Controller, now: int)
    ensures c.ResetPath(now) == Fresh(c.mtu, now).(bytesInFlight := c.bytesInFlight, totalAcked := c.totalAcked)
  {
  }

  // ---------- Counters ----------

  function LostBytes(run: seq<Timed>): nat {
    if run == [] then 0
    else LostBytes(run[..|run| - 1]) + match run[|run| - 1].event case Loss(b) => b case _ => 0
  }

  /** Losses since the path was last reset. */
  function Losses(run: seq<Timed>): nat {
    if run == [] then 0
    else
      match run[|run| - 1].event
      case Loss(_) => Losses(run[..|run| - 1]) + 1
      case PathReset => 0
      case _ => Losses(run[..|run| - 1])
  }

  /** At no moment have more bytes left flight than had entered it, and fewer than 2^64 entered in all. */
  ghost predicate Balanced(run: seq<Timed>) {
    && AckedBytes(run) + LostBytes(run) <= SentBytes(run) <= U64_MAX
    && (run != [] ==> Balanced(run[..|run| - 1]))
  }

  /** When the last ACK came, or the path was last reset; `start` if neither happened. */
  function LastAck(run: seq<Timed>, start: int): int {
    if run == [] then start
    else
      var e := run[|run| - 1];
      if IsAck(e) || e.event.PathReset? then e.now else LastAck(run[..|run| - 1], start)
  }

  ghost predicate Counted(c: Controller, run: seq<Timed>, start: int) {
    && c.lastAckTime == LastAck(run, start)
    && c.totalAcked == Min(AckedBytes(run), U64_MAX) && c.lossCount == Losses(run)
    && c.bytesInFlight <= SentBytes(run) && c.pacingRate == Rate(c.cwnd, c.minRtt)
    && (Balanced(run) ==> c.bytesInFlight == SentBytes(run) - AckedBytes(run) - LostBytes(run))
  }

  lemma StepCounts(c: Controller, front: seq<Timed>, e: Timed, start: int)
    requires Counted(c, front, start)
    ensures Counted(Apply(c, e), front + [e], start)
  {
    var run := front + [e];
    assert run[..|run| - 1] == front;
    match e.event
    case Send(b) =>
    case AckRtt(b, r) => AckCounts(c.Acked(b).Measured(r, e.now), b, e.now);
    case AckNoRtt(b) => AckCounts(c.Acked(b), b, e.now);
    case Loss(b) => LossCountsOne(c, b, e.now);
    case PathReset =>
  }

  lemma AckCounts(c: Controller, bytes: nat, now: int)
    ensures var d := c.GrowWindow(bytes).Repaced().(lastAckTime := now);
            && d.totalAcked == c.totalAcked && d.lossCount == c.lossCount && d.bytesInFlight == c.bytesInFlight
            && d.lastAckTime == now
            && d.pacingRate == Rate(d.cwnd, d.minRtt)
  {
  }

  lemma LossCountsOne(c: Controller, bytes: nat, now: int)
    ensures var d := c.OnLoss(bytes, now);
            && d.totalAcked == c.totalAcked && d.lossCount == c.lossCount + 1 && d.lastAckTime == c.lastAckTime
            && d.bytesInFlight == Monus(c.bytesInFlight, bytes) && d.pacingRate == Rate(d.cwnd, d.minRtt)
  {
  }

  /**
   In every reachable state: every acknowledged byte was counted once; losses are
   those since the last reset; the last ACK is dated; the rate is that of the window; and while no more leaves
   flight than entered it, what is in flight is exactly the difference.
   */
  lemma {:induction false} CountersAreExact(mtu: Mtu, start: int, run: seq<Timed>)
    ensures Counted(After(Fresh(mtu, start), run), run, start)
  {
    if run != [] {
      var front := run[..|run| - 1];
      CountersAreExact(mtu, start, front);
      StepCounts(After(Fresh(mtu, start), front), front, run[|run| - 1], start);
      assert run == front + [run[|run| - 1]];
    }
  }

  /** The rate empties the window once in the RTT floor, to the microsecond and the byte. */
  lemma RateEmptiesWindow(cwnd: nat, minRtt: nat)
    requires minRtt >= MICROSECOND
    ensures Rate(cwnd, minRtt) * (minRtt / MICROSECOND) <= cwnd * 1_000_000 < (Rate(cwnd, minRtt) + 1) * (minRtt / MICROSECOND)
  {
    ShareOf(cwnd * 1_000_000, minRtt / MICROSECOND);
  }

  // ---------- The RTT floor ----------

  const MICROSECOND: nat := 1000

  /**
   The floor was set by sample `i`, or is the initial 30 ms if `i` is -1; no sample since
   was lower, nor came ten seconds later.
   */
  ghost predicate FloorSet(c: Controller, run: seq<Timed>, i: int) {
    && -1 <= i < |run|
    && (i == -1 ==> c.minRtt == INITIAL_RTT)
    && (i >= 0 ==> (run[i].event.AckRtt? && run[i].event.rtt == c.minRtt && run[i].now == c.minRttStamp)
                   || (run[i].event.PathReset? && c.minRtt == INITIAL_RTT && run[i].now == c.minRttStamp))
    && forall j :: i < j < |run| ==>
         && !run[j].event.PathReset?
         && (run[j].event.AckRtt? ==> run[j].event.rtt >= c.minRtt && Since(run[j].now, c.minRttStamp) < 10 * SECOND)
  }

  lemma FloorStep(c: Controller, front: seq<Timed>, e: Timed, i: int) returns (k: int)
    requires FloorSet(c, front, i)
    ensures FloorSet(Apply(c, e), front + [e], k)
  {
    var d, run := Apply(c, e), front + [e];
    FloorAfter(c, e);
    k := if (d.minRtt, d.minRttStamp) == (c.minRtt, c.minRttStamp) && !e.event.PathReset?
            && (e.event.AckRtt? ==> e.event.rtt >= c.minRtt && Since(e.now, c.minRttStamp) < 10 * SECOND) then i else |front|;
    assert forall j :: 0 <= j < |front| ==> run[j] == front[j];
    assert run[|front|] == e;
  }

  lemma FloorAfter(c: Controller, e: Timed)
    ensures var d := Apply(c, e);
            match e.event
            case AckRtt(_, r) =>
              if r < c.minRtt || Since(e.now, c.minRttStamp) >= 10 * SECOND then d.minRtt == r && d.minRttStamp == e.now
              else d.minRtt == c.minRtt && d.minRttStamp == c.minRttStamp
            case PathReset => d.minRtt == INITIAL_RTT && d.minRttStamp == e.now
            case _ => d.minRtt == c.minRtt && d.minRttStamp == c.minRttStamp
  {
  }

  /**
   In every reachable state the RTT floor is one sample's, under ten seconds old at the
   last sample, and none since was lower.
   */
  lemma {:induction false} FloorIsASample(mtu: Mtu, start: int, run: seq<Timed>) returns (i: int)
    ensures FloorSet(After(Fresh(mtu, start), run), run, i)
  {
    if run == [] {
      i := -1;
    } else {
      var front, e := run[..|run| - 1], run[|run| - 1];
      i := FloorIsASample(mtu, start, front);
      i := FloorStep(After(Fresh(mtu, start), front), front, e, i);
      assert run == front + [e];
    }
  }

  // ---------- What callers read ----------

  /** The timeout is SRTT and four deviations, between 50 ms and 16 s. */
  lemma RtoIs(c: Controller)
    ensures 50 * MILLISECOND <= c.Rto() <= 16 * SECOND
    ensures 50 * MILLISECOND <= c.srtt + 4 * c.rttvar <= 16 * SECOND ==> c.Rto() == c.srtt + 4 * c.rttvar
    ensures c.Rto() < c.srtt + 4 * c.rttvar ==> c.Rto() == 16 * SECOND
    ensures c.Rto() > c.srtt + 4 * c.rttvar ==> c.Rto() == 50 * MILLISECOND
  {
  }

  /** A tick may resend a quarter of the window's packets, but two at least and 64 at most. */
  lemma BudgetIsAQuarter(c: Controller)
    requires WindowBounded(c)
    ensures var packets, budget := c.cwnd / c.mtu, c.RetransmitBudget();
            && (8 <= packets <= 256 ==> 4 * budget <= packets < 4 * (budget + 1))
            && (packets < 8 ==> budget == 2) && (packets > 256 ==> budget == 64)
  {
    BudgetBounded(c);
  }

  /** A packet may go exactly when the tokens left and those earned since make up one mtu; the cap never stands in its way. */
  lemma CanPaceIff(c: Controller, now: int)
    ensures c.CanPacePacket(now)
            <==> c.pacingTokens + Earned(c.pacingRate, Since(now, c.pacingLastRefill)) >= c.mtu as real
  {
  }

  /** Sending takes exactly its bytes from the allowance. */
  lemma SendDebits(c: Controller, bytes: nat, now: int)
    ensures c.OnSend(bytes, now).PacingAvailable(now) == c.PacingAvailable(now) - bytes as real
  {
    assert Earned(c.pacingRate, 0) == 0.0;
  }
}
