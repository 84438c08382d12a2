/**
 What the controller keeps over whole runs: the estimator's exactness, the
 window's bounds, additive increase, and the pacer's bound on bytes released.
 */
module CongestionProofs {
  import opened Basics
  import opened Congestion

  // ---------- Runs ----------

  datatype Event =
    | Send(bytes: nat)
    | AckRtt(bytes: nat, rtt: nat)
    | AckNoRtt(bytes: nat)
    | Loss(bytes: nat)
    | PathReset

  datatype Timed = At(event: Event, now: int)

  function Apply(c: Controller, e: Timed): Controller {
    match e.event
    case Send(b) => c.OnSend(b, e.now)
    case AckRtt(b, r) => c.OnAck(b, r, e.now)
    case AckNoRtt(b) => c.OnAckNoRtt(b, e.now)
    case Loss(b) => c.OnLoss(b, e.now)
    case PathReset => c.ResetPath(e.now)
  }

  /** The controller after `run`, oldest event first. */
  function After(c: Controller, run: seq<Timed>): Controller {
    if run == [] then c else Apply(After(c, run[..|run| - 1]), run[|run| - 1])
  }

  // ---------- The window ----------

  ghost predicate WindowBounded(c: Controller) {
    && Packets(MIN_CWND_PACKETS, c.mtu) <= c.cwnd <= Packets(MAX_CWND_PACKETS, c.mtu)
  }

  lemma GrowthKeepsWindow(c: Controller, bytes: nat)
    requires WindowBounded(c)
    ensures WindowBounded(c.GrowWindow(bytes)) && c.GrowWindow(bytes).mtu == c.mtu
  {
  }

  lemma LossKeepsWindow(c: Controller, now: int)
    requires WindowBounded(c)
    ensures WindowBounded(c.Punished(now)) && c.Punished(now).mtu == c.mtu
  {
  }

  lemma StepKeepsWindow(c: Controller, e: Timed)
    requires WindowBounded(c)
    ensures WindowBounded(Apply(c, e)) && Apply(c, e).mtu == c.mtu
  {
    match e.event
    case AckRtt(b, r) => GrowthKeepsWindow(c.Acked(b).Measured(r, e.now), b);
    case AckNoRtt(b) => GrowthKeepsWindow(c.Acked(b), b);
    case Loss(b) =>
      LossKeepsWindow(c.(bytesInFlight := Monus(c.bytesInFlight, b), lossCount := c.lossCount + 1), e.now);
    case _ =>
  }

  lemma BudgetBounded(c: Controller)
    ensures 2 <= c.RetransmitBudget() <= 64
    ensures WindowBounded(c) ==> c.CwndPackets() == c.cwnd / c.mtu && 2 <= c.CwndPackets() <= MAX_CWND_PACKETS
  {
    if WindowBounded(c) {
      QuotientBetween(c.cwnd, c.mtu, 2, 1024);
    }
  }

  lemma QuotientBetween(a: nat, m: nat, lo: nat, hi: nat)
    requires m > 0 && lo * m <= a <= hi * m
    ensures lo <= a / m <= hi
  {
    var q := a / m;
    assert a == q * m + a % m;
    if q < lo {
      TimesMonotone(q + 1, lo, m);
      assert false;
    }
  }

  lemma TimesMonotone(a: nat, b: nat, m: nat)
    requires a <= b
    ensures a * m <= b * m
  {
  }

  /** In every reachable state the window is between 2 and 1024 packets. */
  lemma {:induction false} WindowStaysBounded(mtu: Mtu, start: int, run: seq<Timed>)
    ensures WindowBounded(After(Fresh(mtu, start), run)) && After(Fresh(mtu, start), run).mtu == mtu
    ensures 2 <= After(Fresh(mtu, start), run).RetransmitBudget() <= 64
  {
    BudgetBounded(After(Fresh(mtu, start), run));
    if run != [] {
      WindowStaysBounded(mtu, start, run[..|run| - 1]);
      StepKeepsWindow(After(Fresh(mtu, start), run[..|run| - 1]), run[|run| - 1]);
    }
  }

  // ---------- Additive increase ----------

  /** ACKs only, none of them arriving on a standing queue. */
  ghost predicate CalmAcks(c: Controller, run: seq<Timed>) {
    run == []
    || (&& CalmAcks(c, run[..|run| - 1])
        && (run[|run| - 1].event.AckRtt? || run[|run| - 1].event.AckNoRtt?)
        && After(c, run).Inflation() < RTT_INFLATION_BACKOFF)
  }

  function AckedBytes(run: seq<Timed>): nat {
    if run == [] then 0
    else
      AckedBytes(run[..|run| - 1]) +
      match run[|run| - 1].event
      case AckRtt(b, _) => b
      case AckNoRtt(b) => b
      case _ => 0
  }

  lemma StepAddsFraction(bytes: nat, mtu: Mtu, cwnd: nat, start: nat)
    requires 0 < start <= cwnd
    ensures AdditiveStep(bytes, mtu, cwnd) * start <= bytes * mtu
  {
    var q := AdditiveStep(bytes, mtu, cwnd);
    assert q * cwnd <= bytes * mtu;
    assert q * start <= q * cwnd;
  }

  lemma CalmAckStep(c: Controller, e: Timed)
    requires e.event.AckRtt? || e.event.AckNoRtt?
    requires WindowBounded(c) && c.phase == ProbeBandwidth
    requires Apply(c, e).Inflation() < RTT_INFLATION_BACKOFF
    ensures Apply(c, e).phase == ProbeBandwidth
    ensures c.cwnd <= Apply(c, e).cwnd <= c.cwnd + AdditiveStep(e.event.bytes, c.mtu, c.cwnd)
    ensures Apply(c, e).mtu == c.mtu && WindowBounded(Apply(c, e))
  {
    StepKeepsWindow(c, e);
  }

  lemma GrowthArithmetic(growth: nat, step: nat, grown: nat, start: nat, acked: nat, bytes: nat, mtu: nat)
    requires grown <= growth + step
    requires growth * start <= acked * mtu
    requires step * start <= bytes * mtu
    ensures grown * start <= (acked + bytes) * mtu
  {
    TimesMonotone(grown, growth + step, start);
    assert (growth + step) * start == growth * start + step * start;
    assert (acked + bytes) * mtu == acked * mtu + bytes * mtu;
  }

  lemma GrowthCapped(growth: nat, start: nat, acked: nat, mtu: nat)
    requires growth * start <= acked * mtu && acked <= start && start > 0
    ensures growth <= mtu
  {
    TimesMonotone(acked, start, mtu);
    if growth > mtu {
      TimesMonotone(mtu + 1, growth, start);
      assert false;
    }
  }

  ghost predicate PaidFor(c: Controller, d: Controller, acked: nat) {
    && d.phase == ProbeBandwidth && d.mtu == c.mtu && WindowBounded(d) && c.cwnd <= d.cwnd
    && (d.cwnd - c.cwnd) * c.cwnd <= acked * c.mtu
  }

  lemma PaidForCapped(c: Controller, d: Controller, acked: nat)
    requires PaidFor(c, d, acked) && 0 < c.cwnd && acked <= c.cwnd
    ensures c.cwnd <= d.cwnd <= c.cwnd + c.mtu
  {
    GrowthCapped(d.cwnd - c.cwnd, c.cwnd, acked, c.mtu);
  }

  lemma CalmAckPaid(c: Controller, d: Controller, acked: nat, e: Timed)
    requires PaidFor(c, d, acked) && c.cwnd > 0
    requires e.event.AckRtt? || e.event.AckNoRtt?
    requires Apply(d, e).Inflation() < RTT_INFLATION_BACKOFF
    ensures PaidFor(c, Apply(d, e), acked + e.event.bytes)
  {
    var bytes := e.event.bytes;
    CalmAckStep(d, e);
    StepAddsFraction(bytes, d.mtu, d.cwnd, c.cwnd);
    GrowthArithmetic(d.cwnd - c.cwnd, AdditiveStep(bytes, d.mtu, d.cwnd), Apply(d, e).cwnd - c.cwnd, c.cwnd, acked,
                     bytes, c.mtu);
  }

  lemma NothingPaid(c: Controller)
    requires WindowBounded(c) && c.phase == ProbeBandwidth
    ensures PaidFor(c, c, 0)
  {
  }

  /** The exact account: growth times the starting window is paid for by acknowledged bytes. */
  lemma {:induction false} GrowthIsPaidFor(c: Controller, run: seq<Timed>)
    requires WindowBounded(c) && c.phase == ProbeBandwidth
    requires CalmAcks(c, run)
    ensures PaidFor(c, After(c, run), AckedBytes(run))
  {
    if run == [] {
      NothingPaid(c);
    } else {
      var front := run[..|run| - 1];
      GrowthIsPaidFor(c, front);
      CalmAckPaid(c, After(c, front), AckedBytes(front), run[|run| - 1]);
    }
  }

  /** Outside slow start, one window's worth of ACKs grows the window by at most one packet. */
  lemma AdditiveIncrease(c: Controller, run: seq<Timed>)
    requires WindowBounded(c) && c.phase == ProbeBandwidth
    requires CalmAcks(c, run)
    requires AckedBytes(run) <= c.cwnd
    ensures c.cwnd <= After(c, run).cwnd <= c.cwnd + c.mtu
  {
    GrowthIsPaidFor(c, run);
    PaidForCapped(c, After(c, run), AckedBytes(run));
  }

  // ---------- The estimator ----------

  /** The estimate after a non-empty list of samples, oldest first. */
  function Estimated(samples: seq<nat>): Estimate
    requires samples != []
  {
    if |samples| == 1 then FirstSample(samples[0])
    else Smoothed(Estimated(samples[..|samples| - 1]), samples[|samples| - 1])
  }

  /** The samples taken since the path was last reset. */
  function Samples(run: seq<Timed>): seq<nat> {
    if run == [] then []
    else
      var front := Samples(run[..|run| - 1]);
      match run[|run| - 1].event
      case AckRtt(_, r) => front + [r]
      case PathReset => []
      case _ => front
  }

  ghost predicate Tracks(c: Controller, samples: seq<nat>) {
    && c.rttInitialized == (samples != [])
    && (samples != [] ==> (c.srtt, c.rttvar) == Estimated(samples))
    && (samples == [] ==> c.srtt == INITIAL_RTT && c.rttvar == INITIAL_RTT / 2)
  }

  /** Growing the window and pacing leave the estimate alone. */
  lemma GrowthKeepsEstimate(c: Controller, bytes: nat)
    ensures var d := c.GrowWindow(bytes); (d.srtt, d.rttvar, d.rttInitialized) == (c.srtt, c.rttvar, c.rttInitialized)
  {
  }

  lemma LossKeepsEstimate(c: Controller, bytes: nat, now: int)
    ensures var d := c.OnLoss(bytes, now); (d.srtt, d.rttvar, d.rttInitialized) == (c.srtt, c.rttvar, c.rttInitialized)
  {
  }

  lemma SampleTracks(c: Controller, bytes: nat, rtt: nat, now: int, samples: seq<nat>)
    requires Tracks(c, samples)
    ensures Tracks(c.OnAck(bytes, rtt, now), samples + [rtt])
  {
    assert (samples + [rtt])[..|samples|] == samples;
    var m := c.Acked(bytes).Measured(rtt, now);
    assert Tracks(m, samples + [rtt]);
    GrowthKeepsEstimate(m, bytes);
  }

  lemma StepTracks(c: Controller, e: Timed, samples: seq<nat>)
    requires Tracks(c, samples)
    ensures Tracks(Apply(c, e), match e.event case AckRtt(_, r) => samples + [r] case PathReset => [] case _ => samples)
  {
    match e.event
    case AckRtt(b, r) => SampleTracks(c, b, r, e.now, samples);
    case AckNoRtt(b) => GrowthKeepsEstimate(c.Acked(b), b);
    case Loss(b) => LossKeepsEstimate(c, b, e.now);
    case _ =>
  }

  /** Sends, losses and sample-less ACKs never touch the estimate; ACKs fold their samples in. */
  lemma {:induction false} EstimatorTracksSamples(mtu: Mtu, start: int, run: seq<Timed>)
    ensures Tracks(After(Fresh(mtu, start), run), Samples(run))
  {
    if run != [] {
      var front := run[..|run| - 1];
      EstimatorTracksSamples(mtu, start, front);
      StepTracks(After(Fresh(mtu, start), front), run[|run| - 1], Samples(front));
    }
  }

  ghost predicate AllWithin(samples: seq<nat>, lo: nat, hi: nat) {
    forall i :: 0 <= i < |samples| ==> lo <= samples[i] <= hi
  }

  lemma SmoothedStaysWithin(e: Estimate, r: nat, lo: nat, hi: nat)
    requires lo <= e.0 <= hi && lo <= r <= hi
    requires e.1 <= Max(hi / 2, hi - lo)
    ensures lo <= Smoothed(e, r).0 <= hi
    ensures Smoothed(e, r).1 <= Max(hi / 2, hi - lo)
  {
  }

  /** SRTT never leaves the range of the samples; RTTVAR is bounded by their spread. */
  lemma {:induction false} EstimateWithinSamples(samples: seq<nat>, lo: nat, hi: nat)
    requires samples != [] && AllWithin(samples, lo, hi)
    ensures lo <= Estimated(samples).0 <= hi
    ensures Estimated(samples).1 <= Max(hi / 2, hi - lo)
  {
    assert lo <= samples[0] <= hi;
    if |samples| > 1 {
      var front := samples[..|samples| - 1];
      assert forall i :: 0 <= i < |front| ==> front[i] == samples[i];
      EstimateWithinSamples(front, lo, hi);
      SmoothedStaysWithin(Estimated(front), samples[|samples| - 1], lo, hi);
    }
  }

  /** Section 2 of RFC 6298 with no rounding at all. */
  function ExactSrtt(samples: seq<nat>): real
    requires samples != []
  {
    if |samples| == 1 then samples[0] as real
    else 0.875 * ExactSrtt(samples[..|samples| - 1]) + 0.125 * samples[|samples| - 1] as real
  }

  lemma FloorError(x: nat, d: nat)
    requires d > 0
    ensures (x / d) as real <= x as real / d as real
    ensures x as real - (d - 1) as real <= (x / d) as real * d as real
  {
    assert x == x / d * d + x % d;
    assert ((x / d) * d) as real == (x / d) as real * d as real;
  }

  /** One floored step errs by under 7/8 ns either way. */
  lemma SmoothedError(s: nat, r: nat, x: real)
    requires -7.0 <= s as real - x <= 7.0
    ensures var e := Smoothed((s, 0), r).0 as real - (0.875 * x + 0.125 * r as real);
            -7.0 <= e <= 7.0
  {
    FloorError(s, 8);
    FloorError(r, 8);
    var a, b := s / 8, r / 8;
    assert Smoothed((s, 0), r).0 == s - a + b;
    assert a as real * 8.0 <= s as real <= a as real * 8.0 + 7.0;
    assert b as real * 8.0 <= r as real <= b as real * 8.0 + 7.0;
  }

  /** Integer rounding never accumulates: SRTT stays within 7 ns of the exact recurrence. */
  lemma {:induction false} SrttIsNearlyExact(samples: seq<nat>)
    requires samples != []
    ensures -7.0 <= Estimated(samples).0 as real - ExactSrtt(samples) <= 7.0
  {
    if |samples| > 1 {
      var front, r := samples[..|samples| - 1], samples[|samples| - 1];
      SrttIsNearlyExact(front);
      SmoothedError(Estimated(front).0, r, ExactSrtt(front));
    }
  }

  // ---------- Constant RTT ----------

  function Pow2(k: nat): nat { if k == 0 then 1 else 2 * Pow2(k - 1) }

  /** In every reachable state the estimate is that of the samples since the last path reset, with all it implies. */
  lemma ReachableEstimate(mtu: Mtu, start: int, run: seq<Timed>, lo: nat, hi: nat)
    requires Samples(run) != [] && AllWithin(Samples(run), lo, hi)
    ensures var c := After(Fresh(mtu, start), run);
            && lo <= c.srtt <= hi && c.rttvar <= Max(hi / 2, hi - lo)
            && -7.0 <= c.srtt as real - ExactSrtt(Samples(run)) <= 7.0
  {
    EstimatorTracksSamples(mtu, start, run);
    EstimateWithinSamples(Samples(run), lo, hi);
    SrttIsNearlyExact(Samples(run));
  }

  /** RTTVAR after `n` samples that all equal SRTT. */
  function Decay(v: nat, n: nat): (d: nat)
    ensures d <= v
  {
    if n == 0 then v else Decay(v, n - 1) - Decay(v, n - 1) / 4
  }

  lemma SteadyNext(e: Estimate, r: nat, n: nat)
    requires e == (r, Decay(r / 2, n))
    ensures Smoothed(e, r) == (r, Decay(r / 2, n + 1))
  {
  }

  lemma EstimatedNext(front: seq<nat>, r: nat)
    requires front != []
    ensures Estimated(front + [r]) == Smoothed(Estimated(front), r)
  {
    assert (front + [r])[..|front|] == front;
  }

  lemma {:induction false} SteadyEstimate(samples: seq<nat>, r: nat)
    requires samples != [] && AllWithin(samples, r, r)
    ensures Estimated(samples) == (r, Decay(r / 2, |samples| - 1))
  {
    assert samples[|samples| - 1] == r;
    if |samples| > 1 {
      var front := samples[..|samples| - 1];
      assert forall i :: 0 <= i < |front| ==> front[i] == samples[i];
      assert samples == front + [r];
      SteadyEstimate(front, r);
      EstimatedNext(front, r);
      SteadyNext(Estimated(front), r, |front| - 1);
    }
  }

  /** Four steps at least halve the variance, until nothing is left to take a quarter of. */
  lemma {:induction false} FourStepsHalve(v: nat, n: nat)
    requires n >= 4
    ensures Decay(v, n) <= Max(3, Decay(v, n - 4) / 2)
  {
    var a := Decay(v, n - 4);
    assert Decay(v, n - 3) == a - a / 4;
    assert Decay(v, n - 2) == Decay(v, n - 3) - Decay(v, n - 3) / 4;
    assert Decay(v, n - 1) == Decay(v, n - 2) - Decay(v, n - 2) / 4;
  }

  lemma {:induction false} DecayBelow(v: nat, k: nat, n: nat)
    requires v < 4 * Pow2(k) && n >= 4 * k
    ensures Decay(v, n) <= 3
    decreases n
  {
    if n > 4 * k {
      DecayBelow(v, k, n - 1);
    } else {
      DecayHalves(v, k, k);
    }
  }

  lemma {:induction false} DecayHalves(v: nat, k: nat, j: nat)
    requires j <= k && v < 4 * Pow2(k)
    ensures Decay(v, 4 * j) <= 3 || Decay(v, 4 * j) < 4 * Pow2(k - j)
  {
    if j > 0 {
      DecayHalves(v, k, j - 1);
      FourStepsHalve(v, 4 * j);
      assert Pow2(k - (j - 1)) == 2 * Pow2(k - j);
    }
  }

  /**
   Under a constant RTT below 2^(k+3) ns, 4k + 1 samples or more leave SRTT exact
   and the unclamped RTO at most 12 ns above it.
   */
  lemma ConstantRttSettles(samples: seq<nat>, r: nat, k: nat)
    requires |samples| > 4 * k && AllWithin(samples, r, r)
    requires r < 8 * Pow2(k)
    ensures var e := Estimated(samples);
            e.0 == r && e.1 <= 3 && r <= e.0 + 4 * e.1 <= r + 12
  {
    SteadyEstimate(samples, r);
    DecayBelow(r / 2, k, |samples| - 1);
  }

  // ---------- Pacing ----------

  ghost predicate Ordered(run: seq<Timed>) {
    forall i, j :: 0 <= i <= j < |run| ==> run[i].now <= run[j].now
  }

  ghost predicate AdmittedAt(before: Controller, e: Timed, limit: nat, rate: nat) {
    && before.pacingRate <= rate
    && (e.event.Send? ==> e.event.bytes <= limit && before.CanPacePacket(e.now))
  }

  /** Every packet was admitted by the pacer, none is over `limit` bytes, and the rate never exceeds `rate`. */
  ghost predicate Admitted(c: Controller, run: seq<Timed>, limit: nat, rate: nat) {
    forall i :: 0 <= i < |run| ==> AdmittedAt(After(c, run[..i]), run[i], limit, rate)
  }

  ghost predicate OnePath(run: seq<Timed>) {
    forall i :: 0 <= i < |run| ==> !run[i].event.PathReset?
  }

  function Resets(run: seq<Timed>): nat {
    if run == [] then 0 else Resets(run[..|run| - 1]) + if run[|run| - 1].event.PathReset? then 1 else 0
  }

  function SentBytes(run: seq<Timed>): nat {
    if run == [] then 0
    else SentBytes(run[..|run| - 1]) + if run[|run| - 1].event.Send? then run[|run| - 1].event.bytes else 0
  }

  function BurstBound(mtu: Mtu, rate: nat): real {
    MaxReal(Earned(rate, PACING_BURST), Packets(4, mtu) as real)
  }

  lemma EarnedMonotone(r: nat, r': nat, ns: nat)
    requires r <= r'
    ensures Earned(r, ns) <= Earned(r', ns)
  {
    assert Seconds(ns) >= 0.0;
  }

  lemma EarnedAdds(rate: nat, a: nat, b: nat)
    ensures Earned(rate, a) + Earned(rate, b) == Earned(rate, a + b)
  {
    assert Seconds(a) + Seconds(b) == Seconds(a + b);
  }

  ghost predicate NoSends(run: seq<Timed>) {
    forall i :: 0 <= i < |run| ==> !run[i].event.Send?
  }

  lemma BurstNeverMore(c: Controller, now: int, rate: nat)
    requires c.pacingRate <= rate
    ensures c.PacingAvailable(now) <= BurstBound(c.mtu, rate)
    ensures c.PacingAvailable(now) <= c.pacingTokens + Earned(rate, Since(now, c.pacingLastRefill))
  {
    EarnedMonotone(c.pacingRate, rate, PACING_BURST);
    EarnedMonotone(c.pacingRate, rate, Since(now, c.pacingLastRefill));
  }

  /**
   The bucket's account: what was sent since `start` plus what is left is covered
   by one burst and the time elapsed, and the debt is at most one packet's excess.
   */
  ghost predicate Balanced(d: Controller, sent: nat, limit: nat, rate: nat, start: int) {
    && start <= d.pacingLastRefill
    && sent as real + d.pacingTokens <= BurstBound(d.mtu, rate) + Earned(rate, d.pacingLastRefill - start)
    && d.pacingTokens >= d.mtu as real - limit as real
  }

  lemma FirstSendBalances(c: Controller, bytes: nat, now: int, limit: nat, rate: nat, start: int)
    requires start <= now && bytes <= limit && c.pacingRate <= rate && c.CanPacePacket(now)
    ensures Balanced(c.OnSend(bytes, now), bytes, limit, rate, start)
  {
    BurstNeverMore(c, now, rate);
    EarnedPositive(rate, now - start);
  }

  lemma NextSendBalances(c: Controller, sent: nat, bytes: nat, now: int, limit: nat, rate: nat, start: int)
    requires Balanced(c, sent, limit, rate, start)
    requires c.pacingLastRefill <= now && bytes <= limit && c.pacingRate <= rate && c.CanPacePacket(now)
    ensures Balanced(c.OnSend(bytes, now), sent + bytes, limit, rate, start)
  {
    BurstNeverMore(c, now, rate);
    EarnedAdds(rate, c.pacingLastRefill - start, now - c.pacingLastRefill);
  }

  lemma EarnedPositive(rate: nat, ns: nat)
    ensures Earned(rate, ns) >= 0.0
  {
  }

  ghost predicate SameBucket(c: Controller, d: Controller) {
    d.pacingTokens == c.pacingTokens && d.pacingLastRefill == c.pacingLastRefill && d.mtu == c.mtu
  }

  lemma QuietStep(c: Controller, e: Timed)
    requires !e.event.Send? && !e.event.PathReset?
    ensures SameBucket(c, Apply(c, e))
  {
  }

  ghost predicate Account(c: Controller, run: seq<Timed>, limit: nat, rate: nat) {
    var d := After(c, run);
    if NoSends(run) then SameBucket(c, d) && SentBytes(run) == 0
    else
      && d.mtu == c.mtu && d.pacingLastRefill <= run[|run| - 1].now
      && Balanced(d, SentBytes(run), limit, rate, run[0].now)
  }

  lemma RunEndsWith(c: Controller, front: seq<Timed>, e: Timed)
    ensures After(c, front + [e]) == Apply(After(c, front), e)
    ensures SentBytes(front + [e]) == SentBytes(front) + if e.event.Send? then e.event.bytes else 0
    ensures NoSends(front + [e]) == (NoSends(front) && !e.event.Send?)
  {
    assert (front + [e])[..|front|] == front;
    assert forall i :: 0 <= i < |front| ==> (front + [e])[i] == front[i];
    assert (front + [e])[|front|] == e;
  }

  lemma AccountAfterQuiet(c: Controller, front: seq<Timed>, e: Timed, limit: nat, rate: nat)
    requires Account(c, front, limit, rate) && !e.event.Send? && !e.event.PathReset?
    requires front != [] ==> front[|front| - 1].now <= e.now
    ensures Account(c, front + [e], limit, rate)
  {
    RunEndsWith(c, front, e);
    QuietStep(After(c, front), e);
  }

  lemma AccountAfterSend(c: Controller, front: seq<Timed>, e: Timed, limit: nat, rate: nat)
    requires Account(c, front, limit, rate) && e.event.Send? && e.event.bytes <= limit
    requires After(c, front).pacingRate <= rate && After(c, front).CanPacePacket(e.now)
    requires front != [] ==> front[0].now <= front[|front| - 1].now <= e.now
    ensures Account(c, front + [e], limit, rate)
  {
    RunEndsWith(c, front, e);
    var b := After(c, front);
    var start := (front + [e])[0].now;
    if NoSends(front) {
      FirstSendBalances(b, e.event.bytes, e.now, limit, rate, start);
    } else {
      NextSendBalances(b, SentBytes(front), e.event.bytes, e.now, limit, rate, start);
    }
  }

  /** `e` comes no earlier than anything in `front`. */
  ghost predicate InTime(front: seq<Timed>, e: Timed) {
    front != [] ==> front[0].now <= front[|front| - 1].now <= e.now
  }

  lemma FrontAdmitted(c: Controller, front: seq<Timed>, e: Timed, limit: nat, rate: nat)
    requires Ordered(front + [e]) && Admitted(c, front + [e], limit, rate) && OnePath(front + [e])
    ensures Ordered(front) && Admitted(c, front, limit, rate) && OnePath(front) && !e.event.PathReset?
    ensures InTime(front, e) && AdmittedAt(After(c, front), e, limit, rate)
  {
    PartsAdmitted(c, front, [e], limit, rate);
    assert AdmittedAt(After(After(c, front), [e][..0]), [e][0], limit, rate) && [e][..0] == [];
    FrontOnePath(front, e);
    FrontInTime(front, e);
  }

  lemma FrontOnePath(front: seq<Timed>, e: Timed)
    requires OnePath(front + [e])
    ensures OnePath(front) && !e.event.PathReset?
  {
    assert (front + [e])[|front|] == e;
    assert forall i :: 0 <= i < |front| ==> (front + [e])[i] == front[i];
  }

  lemma FrontInTime(front: seq<Timed>, e: Timed)
    requires Ordered(front + [e])
    ensures InTime(front, e)
  {
    var run, n := front + [e], |front|;
    assert run[n] == e;
    if n > 0 { assert run[0] == front[0] && run[n - 1] == front[n - 1] && run[0].now <= run[n - 1].now <= run[n].now; }
  }

  lemma {:induction false} BucketBalance(c: Controller, run: seq<Timed>, limit: nat, rate: nat)
    requires Ordered(run) && Admitted(c, run, limit, rate) && OnePath(run)
    ensures Account(c, run, limit, rate)
  {
    if run != [] {
      var front, e := run[..|run| - 1], run[|run| - 1];
      assert run == front + [e];
      FrontAdmitted(c, front, e, limit, rate);
      BucketBalance(c, front, limit, rate);
      if e.event.Send? {
        AccountAfterSend(c, front, e, limit, rate);
      } else {
        AccountAfterQuiet(c, front, e, limit, rate);
      }
    }
  }

  lemma BalancedBound(d: Controller, sent: nat, limit: nat, rate: nat, start: int, end: int)
    requires Balanced(d, sent, limit, rate, start) && d.pacingLastRefill <= end
    ensures sent as real <= BurstBound(d.mtu, rate) + Earned(rate, end - start) + Monus(limit, d.mtu) as real
  {
    var used := d.pacingLastRefill - start;
    EarnedAdds(rate, used, end - start - used);
    EarnedPositive(rate, end - start - used);
  }

  /** The time spanned by a run. */
  function Span(run: seq<Timed>): nat
    requires Ordered(run)
  {
    if run == [] then 0 else run[|run| - 1].now - run[0].now
  }

  /** One burst, and one packet's excess over the MTU. */
  function Allowance(mtu: Mtu, limit: nat, rate: nat): real {
    BurstBound(mtu, rate) + Monus(limit, mtu) as real
  }

  lemma AccountBound(c: Controller, run: seq<Timed>, limit: nat, rate: nat)
    requires run != [] && run[0].now <= run[|run| - 1].now && Account(c, run, limit, rate)
    ensures SentBytes(run) as real
              <= BurstBound(c.mtu, rate) + Earned(rate, run[|run| - 1].now - run[0].now) + Monus(limit, c.mtu) as real
  {
    var start, end := run[0].now, run[|run| - 1].now;
    if NoSends(run) {
      EarnedPositive(rate, end - start);
    } else {
      BalancedBound(After(c, run), SentBytes(run), limit, rate, start, end);
    }
  }

  lemma OnePathBound(c: Controller, run: seq<Timed>, limit: nat, rate: nat)
    requires Ordered(run) && Admitted(c, run, limit, rate) && OnePath(run)
    ensures SentBytes(run) as real <= Allowance(c.mtu, limit, rate) + Earned(rate, Span(run))
  {
    if run == [] {
      EarnedPositive(rate, 0);
    } else {
      BucketBalance(c, run, limit, rate);
      assert run[0].now <= run[|run| - 1].now;
      AccountBound(c, run, limit, rate);
    }
  }

  lemma {:induction false} AfterConcat(c: Controller, a: seq<Timed>, b: seq<Timed>)
    ensures After(c, a + b) == After(After(c, a), b)
    ensures SentBytes(a + b) == SentBytes(a) + SentBytes(b)
    ensures Resets(a + b) == Resets(a) + Resets(b)
  {
    if b == [] {
      assert a + b == a;
    } else {
      assert (a + b)[..|a + b| - 1] == a + b[..|b| - 1];
      AfterConcat(c, a, b[..|b| - 1]);
    }
  }

  lemma StepKeepsMtu(c: Controller, e: Timed)
    ensures Apply(c, e).mtu == c.mtu
  {
  }

  lemma {:induction false} SameMtu(c: Controller, run: seq<Timed>)
    ensures After(c, run).mtu == c.mtu
  {
    if run != [] {
      SameMtu(c, run[..|run| - 1]);
      StepKeepsMtu(After(c, run[..|run| - 1]), run[|run| - 1]);
    }
  }

  lemma {:induction false} NoResets(run: seq<Timed>)
    requires Resets(run) == 0
    ensures OnePath(run)
  {
    if run != [] { NoResets(run[..|run| - 1]); }
  }

  /** The part of a run after its last reset. */
  lemma {:induction false} LastReset(run: seq<Timed>) returns (i: nat)
    requires Resets(run) > 0
    ensures i < |run| && run[i].event.PathReset? && OnePath(run[i + 1..])
  {
    var n := |run| - 1;
    if run[n].event.PathReset? {
      i := n;
    } else {
      i := LastReset(run[..n]);
      assert run[i + 1..] == run[..n][i + 1..] + [run[n]];
    }
  }

  lemma PartsAdmitted(c: Controller, a: seq<Timed>, b: seq<Timed>, limit: nat, rate: nat)
    requires Ordered(a + b) && Admitted(c, a + b, limit, rate)
    ensures Ordered(a) && Admitted(c, a, limit, rate) && Ordered(b) && Admitted(After(c, a), b, limit, rate)
    ensures Span(a) + Span(b) <= Span(a + b)
  {
    var run := a + b;
    forall i | 0 <= i < |a|
      ensures AdmittedAt(After(c, a[..i]), a[i], limit, rate)
    {
      assert run[..i] == a[..i] && run[i] == a[i];
    }
    forall i | 0 <= i < |b|
      ensures AdmittedAt(After(After(c, a), b[..i]), b[i], limit, rate)
    {
      assert run[..|a| + i] == a + b[..i] && run[|a| + i] == b[i];
      AfterConcat(c, a, b[..i]);
    }
    PartsOrdered(a, b);
  }

  lemma PartsOrdered(a: seq<Timed>, b: seq<Timed>)
    requires Ordered(a + b)
    ensures Ordered(a) && Ordered(b) && Span(a) + Span(b) <= Span(a + b)
  {
    var run := a + b;
    assert forall i :: 0 <= i < |a| ==> run[i] == a[i];
    assert forall i :: 0 <= i < |b| ==> run[|a| + i] == b[i];
    if a != [] && b != [] { assert run[|a| - 1].now <= run[|a|].now; }
  }

  lemma EarnedShares(rate: nat, a: nat, b: nat, total: nat)
    requires a + b <= total
    ensures Earned(rate, a) + Earned(rate, b) <= Earned(rate, total)
  {
    EarnedAdds(rate, a, b);
    EarnedAdds(rate, a + b, total - a - b);
    EarnedPositive(rate, total - a - b);
  }

  /** `n` allowances. */
  function Times(n: nat, q: real): real {
    if n == 0 then 0.0 else Times(n - 1, q) + q
  }

  lemma {:induction false} TimesIsProduct(n: nat, q: real)
    ensures Times(n, q) == n as real * q
  {
    if n > 0 {
      TimesIsProduct(n - 1, q);
      assert n as real * q == (n - 1) as real * q + q;
    }
  }

  /** A run and its last reset: what comes before, and what comes after on the new path. */
  ghost predicate SplitAtReset(c: Controller, run: seq<Timed>, a: seq<Timed>, d: Controller, b: seq<Timed>, limit: nat, rate: nat) {
    && |a| < |run|
    && Ordered(a) && Admitted(c, a, limit, rate) && Ordered(b) && Admitted(d, b, limit, rate) && OnePath(b)
    && d.mtu == c.mtu && Resets(run) == Resets(a) + 1 && SentBytes(run) == SentBytes(a) + SentBytes(b)
    && Ordered(run) && Span(a) + Span(b) <= Span(run)
  }

  lemma SplitRun(c: Controller, run: seq<Timed>, limit: nat, rate: nat) returns (a: seq<Timed>, d: Controller, b: seq<Timed>)
    requires Ordered(run) && Admitted(c, run, limit, rate) && Resets(run) > 0
    ensures SplitAtReset(c, run, a, d, b, limit, rate)
  {
    var i := LastReset(run);
    var reset := [run[i]];
    a, b := run[..i], run[i + 1..];
    assert run == a + reset + b && reset[..0] == [];
    AfterConcat(c, a, reset);
    AfterConcat(c, a + reset, b);
    assert Resets(reset) == Resets([]) + 1 && SentBytes(reset) == SentBytes([]) + 0;
    NoResetsAfter(b);
    PartsAdmitted(c, a + reset, b, limit, rate);
    PartsAdmitted(c, a, reset, limit, rate);
    SameMtu(c, a + reset);
    d := After(c, a + reset);
  }

  lemma {:induction false} NoResetsAfter(run: seq<Timed>)
    requires OnePath(run)
    ensures Resets(run) == 0
  {
    if run != [] { NoResetsAfter(run[..|run| - 1]); }
  }

  lemma {:induction false} PathsBound(c: Controller, run: seq<Timed>, limit: nat, rate: nat, q: real)
    requires Ordered(run) && Admitted(c, run, limit, rate) && q == Allowance(c.mtu, limit, rate)
    ensures SentBytes(run) as real <= Times(Resets(run) + 1, q) + Earned(rate, Span(run))
    decreases |run|
  {
    if Resets(run) == 0 {
      NoResets(run);
      OnePathBound(c, run, limit, rate);
      assert Times(1, q) == Times(0, q) + q;
    } else {
      var a, d, b := SplitRun(c, run, limit, rate);
      PathsBound(c, a, limit, rate, q);
      OnePathBound(d, b, limit, rate);
      EarnedShares(rate, Span(a), Span(b), Span(run));
      assert Times(Resets(run) + 1, q) == Times(Resets(a) + 1, q) + q;
    }
  }

  /**
   Over any span, what is released is at most the rate for the time spanned and, for
   each path the run was on, one burst and one packet's excess over the MTU, although
   each new rate also applies to time already elapsed.
   */
  lemma PacingBound(c: Controller, run: seq<Timed>, limit: nat, rate: nat)
    requires Ordered(run) && Admitted(c, run, limit, rate)
    ensures SentBytes(run) as real <= Times(Resets(run) + 1, Allowance(c.mtu, limit, rate)) + Earned(rate, Span(run))
  {
    PathsBound(c, run, limit, rate, Allowance(c.mtu, limit, rate));
  }

  /** Each reset really does grant a new burst: two full packets at one instant, where one path allows only one. */
  lemma ResetGrantsBurst()
    ensures var c, run := Fresh(1, 0), [At(Send(10), 0), At(PathReset, 0), At(Send(10), 0)];
            && Ordered(run) && Admitted(c, run, 10, 1066) && Resets(run) == 1
            && SentBytes(run) as real > Allowance(c.mtu, 10, 1066) + Earned(1066, Span(run))
  {
    var c, run := Fresh(1, 0), [At(Send(10), 0), At(PathReset, 0), At(Send(10), 0)];
    TwoSends(run);
    assert c.pacingRate == 1066 && c.CanPacePacket(0);
    var d := c.OnSend(10, 0).ResetPath(0);
    assert d.pacingRate == 1066 && d.CanPacePacket(0);
    assert run[..0] == [] && After(c, run[..0]) == c;
    assert run[..1][..0] == [] && After(c, run[..1]) == c.OnSend(10, 0);
    assert run[..2][..1] == run[..1] && After(c, run[..2]) == d;
  }

  lemma TwoSends(run: seq<Timed>)
    requires run == [At(Send(10), 0), At(PathReset, 0), At(Send(10), 0)]
    ensures Resets(run) == 1 && SentBytes(run) == 20
  {
    assert run[..1][..0] == [] && run[..2][..1] == run[..1] && run[..3] == run && run[..3][..2] == run[..2];
    assert Resets(run[..1]) == 0 && Resets(run[..2]) == 1;
    assert SentBytes(run[..1]) == 10 && SentBytes(run[..2]) == 10;
  }
}
