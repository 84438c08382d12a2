/**
 The congestion controller: an RFC 6298 estimator in integer nanoseconds, a
 window with slow start and additive increase, a loss and delay response, and a
 token-bucket pacer.

 `Controller` is the controller's state as a value and the functions below are
 its specification; `CongestionController` is the object that updates its fields
 in place. Instants are nanoseconds on one clock, durations are natural numbers
 of nanoseconds, and the quantities the program keeps as floats are reals.
 */
module Congestion {

  import opened Basics

  const INITIAL_CWND_PACKETS: nat := 32
  const MIN_CWND_PACKETS: nat := 2
  const MAX_CWND_PACKETS: nat := 1024
  const MIN_RTT_EXPIRY: nat := 10 * SECOND
  const RTT_INFLATION_EXIT_SLOW_START: real := 2.0
  const RTT_INFLATION_BACKOFF: real := 4.0
  const PACING_BURST: nat := 10 * MILLISECOND
  const RTO_MIN: nat := 50 * MILLISECOND
  const RTO_MAX: nat := 16 * SECOND
  const INITIAL_RTT: nat := 30 * MILLISECOND
  const SLOW_START_LOSS_TOLERANCE: nat := 3
  const SLOW_START_LOSS_WINDOW: nat := 500 * MILLISECOND

  /** Up to 2^32 bytes, so that no product of the window leaves 64 bits. */
  type Mtu = m: nat | 1 <= m <= 0x1_0000_0000 witness 1200

  datatype Phase = SlowStart | ProbeBandwidth

  function Packets(count: nat, mtu: Mtu): nat { count * mtu }

  /** Bytes a second that empty the window once per floor RTT. */
  function Rate(cwnd: nat, minRtt: nat): nat { cwnd * 1_000_000 / Max(minRtt / 1000, 1) }

  /** What one acknowledgement adds to the window outside slow start. */
  function AdditiveStep(bytes: nat, mtu: Mtu, cwnd: nat): nat { bytes * mtu / Max(cwnd, 1) }

  /** Bytes of allowance earned in `ns` nanoseconds. */
  function Earned(rate: nat, ns: nat): real { Seconds(ns) * rate as real }

  function Ratio(a: nat, b: nat): real
    requires b != 0
  {
    a as real / b as real
  }

  datatype Controller = Controller(
    cwnd: nat,
    ssthresh: nat,
    phase: Phase,
    minRtt: nat,
    srtt: nat,
    rttvar: nat,
    rttInitialized: bool,
    bytesInFlight: nat,
    totalAcked: nat,
    lastAckTime: int,
    lossCount: nat,
    pacingRate: nat,
    pacingTokens: real,
    mtu: Mtu,
    pacingLastRefill: int,
    minRttStamp: int,
    slowStartLosses: nat,
    slowStartLossWindowStart: int)
  {
    // ---------- What callers read ----------

    function Rto(): nat {
      Clamp(srtt + 4 * rttvar, RTO_MIN, RTO_MAX)
    }

    function CwndPackets(): nat {
      Max(cwnd / mtu, MIN_CWND_PACKETS)
    }

    function RetransmitBudget(): nat {
      Min(Max(CwndPackets() / 4, 2), 64)
    }

    function PacingBurst(): real {
      MaxReal(Earned(pacingRate, PACING_BURST), Packets(4, mtu) as real)
    }

    function PacingAvailable(now: int): real {
      MinReal(pacingTokens + Earned(pacingRate, Since(now, pacingLastRefill)), PacingBurst())
    }

    predicate CanPacePacket(now: int) {
      PacingAvailable(now) >= mtu as real
    }

    /** SRTT over the path's floor: how much the queue has grown. */
    function Inflation(): real {
      if rttInitialized && minRtt != 0 then Ratio(srtt, minRtt) else 1.0
    }

    // ---------- What events do ----------

    function OnSend(bytes: nat, now: int): Controller {
      this.(bytesInFlight := Min(bytesInFlight + bytes, U64_MAX),
            pacingTokens := PacingAvailable(now) - bytes as real,
            pacingLastRefill := now)
    }

    function Repaced(): Controller {
      this.(pacingRate := Rate(cwnd, minRtt))
    }

    function ClampedCwnd(): Controller {
      this.(cwnd := Min(cwnd, Packets(MAX_CWND_PACKETS, mtu)))
    }

    function GrowWindow(bytes: nat): Controller {
      if Inflation() >= RTT_INFLATION_BACKOFF then
        var w := Max(cwnd / 2, Packets(MIN_CWND_PACKETS, mtu));
        this.(cwnd := w, ssthresh := w, phase := ProbeBandwidth).ClampedCwnd()
      else
        match phase
        case SlowStart =>
          if Inflation() >= RTT_INFLATION_EXIT_SLOW_START then
            this.(ssthresh := cwnd, phase := ProbeBandwidth).ClampedCwnd()
          else
            var w := cwnd + bytes;
            this.(cwnd := w, phase := if w >= ssthresh then ProbeBandwidth else SlowStart).ClampedCwnd()
        case ProbeBandwidth =>
          this.(cwnd := cwnd + AdditiveStep(bytes, mtu, cwnd)).ClampedCwnd()
    }

    function Measured(rtt: nat, now: int): Controller {
      var lower := rtt < minRtt || Since(now, minRttStamp) >= MIN_RTT_EXPIRY;
      var (s, v) := if rttInitialized then Smoothed((srtt, rttvar), rtt) else FirstSample(rtt);
      this.(minRtt := if lower then rtt else minRtt,
            minRttStamp := if lower then now else minRttStamp,
            srtt := s, rttvar := v, rttInitialized := true)
    }

    function Acked(bytes: nat): Controller {
      this.(bytesInFlight := Monus(bytesInFlight, bytes), totalAcked := Min(totalAcked + bytes, U64_MAX))
    }

    function OnAck(bytes: nat, rtt: nat, now: int): Controller {
      Acked(bytes).Measured(rtt, now).GrowWindow(bytes).Repaced().(lastAckTime := now)
    }

    function OnAckNoRtt(bytes: nat, now: int): Controller {
      Acked(bytes).GrowWindow(bytes).Repaced().(lastAckTime := now)
    }

    /** The window and phase after one more loss. */
    function Punished(now: int): Controller {
      var floor := Packets(MIN_CWND_PACKETS, mtu);
      match phase
      case ProbeBandwidth => this.(cwnd := Max(cwnd * 7 / 10, floor))
      case SlowStart =>
        var aged := Since(now, slowStartLossWindowStart) > SLOW_START_LOSS_WINDOW;
        var losses := (if aged then 0 else slowStartLosses) + 1;
        var c := this.(slowStartLosses := losses,
                       slowStartLossWindowStart := if aged then now else slowStartLossWindowStart);
        if losses >= SLOW_START_LOSS_TOLERANCE then
          c.(ssthresh := cwnd / 2, cwnd := Max(cwnd / 2, floor), phase := ProbeBandwidth)
        else
          c.(cwnd := Max(cwnd * 8 / 10, floor))
    }

    function OnLoss(bytes: nat, now: int): Controller {
      this.(bytesInFlight := Monus(bytesInFlight, bytes), lossCount := lossCount + 1).Punished(now).Repaced()
    }

    function FreshWindow(now: int): Controller {
      this.(cwnd := Packets(INITIAL_CWND_PACKETS, mtu), ssthresh := U64_MAX, phase := SlowStart,
            lossCount := 0, slowStartLosses := 0, slowStartLossWindowStart := now)
    }

    function FreshRtt(now: int): Controller {
      this.(minRtt := INITIAL_RTT, minRttStamp := now, srtt := INITIAL_RTT, rttvar := INITIAL_RTT / 2,
            rttInitialized := false)
    }

    function FreshPacer(now: int): Controller {
      this.(pacingRate := Rate(Packets(INITIAL_CWND_PACKETS, mtu), INITIAL_RTT),
            pacingTokens := Packets(INITIAL_CWND_PACKETS, mtu) as real, pacingLastRefill := now)
    }

    /** Everything learned about the path goes; the byte accounting stays. */
    function ResetPath(now: int): Controller {
      FreshWindow(now).FreshRtt(now).FreshPacer(now).(lastAckTime := now)
    }
  }

  function Fresh(mtu: Mtu, now: int): Controller {
    Controller(
      Packets(INITIAL_CWND_PACKETS, mtu), U64_MAX, SlowStart, INITIAL_RTT, INITIAL_RTT, INITIAL_RTT / 2, false,
      0, 0, now, 0, Rate(Packets(INITIAL_CWND_PACKETS, mtu), INITIAL_RTT),
      (Packets(INITIAL_CWND_PACKETS, mtu)) as real, mtu, now, now, 0, now)
  }

  // ---------- The estimator ----------

  /** SRTT and RTTVAR. */
  type Estimate = (nat, nat)

  function FirstSample(rtt: nat): Estimate {
    (rtt, rtt / 2)
  }

  function Distance(a: nat, b: nat): nat { if a > b then a - b else b - a }

  function Smoothed(e: Estimate, rtt: nat): Estimate {
    (Monus(e.0, e.0 / 8) + rtt / 8, Monus(e.1, e.1 / 4) + Distance(rtt, e.0) / 4)
  }

  // ---------- The object ----------

  class CongestionController {
    var cwnd: nat
    var ssthresh: nat
    var phase: Phase
    var minRtt: nat
    var srtt: nat
    var rttvar: nat
    var rttInitialized: bool
    var bytesInFlight: nat
    var totalAcked: nat
    var lastAckTime: int
    var lossCount: nat
    var pacingRate: nat
    var pacingTokens: real
    var mtu: Mtu
    var pacingLastRefill: int
    var minRttStamp: int
    var slowStartLosses: nat
    var slowStartLossWindowStart: int

    ghost function View(): Controller
      reads this
    {
      Controller(cwnd, ssthresh, phase, minRtt, srtt, rttvar, rttInitialized, bytesInFlight, totalAcked, lastAckTime,
                 lossCount, pacingRate, pacingTokens, mtu, pacingLastRefill, minRttStamp, slowStartLosses,
                 slowStartLossWindowStart)
    }

    constructor (mtu: Mtu, now: int)
      ensures View() == Fresh(mtu, now)
    {
      var initialCwnd := Packets(INITIAL_CWND_PACKETS, mtu);
      cwnd, ssthresh, phase := initialCwnd, U64_MAX, SlowStart;
      minRtt, srtt, rttvar, rttInitialized := INITIAL_RTT, INITIAL_RTT, INITIAL_RTT / 2, false;
      bytesInFlight, totalAcked, lastAckTime, lossCount := 0, 0, now, 0;
      pacingRate := Rate(initialCwnd, INITIAL_RTT);
      this.mtu := mtu;
      minRttStamp, slowStartLosses, slowStartLossWindowStart := now, 0, now;
      pacingTokens, pacingLastRefill := initialCwnd as real, now;
    }

    method ResetWindow(now: int)
      modifies this
      ensures View() == old(View()).FreshWindow(now)
    {
      cwnd, ssthresh, phase := Packets(INITIAL_CWND_PACKETS, mtu), U64_MAX, SlowStart;
      lossCount, slowStartLosses, slowStartLossWindowStart := 0, 0, now;
    }

    method ResetRtt(now: int)
      modifies this
      ensures View() == old(View()).FreshRtt(now)
    {
      minRtt, minRttStamp := INITIAL_RTT, now;
      srtt, rttvar, rttInitialized := INITIAL_RTT, INITIAL_RTT / 2, false;
    }

    method ResetPacer(now: int)
      modifies this
      ensures View() == old(View()).FreshPacer(now)
    {
      pacingRate := Rate(Packets(INITIAL_CWND_PACKETS, mtu), INITIAL_RTT);
      pacingTokens, pacingLastRefill := Packets(INITIAL_CWND_PACKETS, mtu) as real, now;
    }

    method ResetPath(now: int)
      modifies this
      ensures View() == old(View()).ResetPath(now)
    {
      ResetWindow(now);
      ResetRtt(now);
      ResetPacer(now);
      lastAckTime := now;
    }

    method CwndPackets() returns (packets: nat)
      ensures packets == View().CwndPackets()
    {
      packets := Max(cwnd / mtu, MIN_CWND_PACKETS);
    }

    method Rto() returns (rto: nat)
      ensures rto == View().Rto()
    {
      rto := Clamp(srtt + 4 * rttvar, RTO_MIN, RTO_MAX);
    }

    method RetransmitBudget() returns (budget: nat)
      ensures budget == View().RetransmitBudget()
    {
      var packets := CwndPackets();
      budget := Min(Max(packets / 4, 2), 64);
    }

    method PacingBurst() returns (burst: real)
      ensures burst == View().PacingBurst()
    {
      burst := MaxReal(Earned(pacingRate, PACING_BURST), Packets(4, mtu) as real);
    }

    method CanPacePacket(now: int) returns (can: bool)
      ensures can == View().CanPacePacket(now)
    {
      var burst := PacingBurst();
      var elapsed := Since(now, pacingLastRefill);
      can := MinReal(pacingTokens + Earned(pacingRate, elapsed), burst) >= mtu as real;
    }

    method ConsumePacing(bytes: nat, now: int)
      modifies this`pacingTokens, this`pacingLastRefill
      ensures View() == old(View()).(pacingTokens := old(View()).PacingAvailable(now) - bytes as real,
                                     pacingLastRefill := now)
    {
      var burst := PacingBurst();
      var elapsed := Since(now, pacingLastRefill);
      pacingLastRefill := now;
      pacingTokens := MinReal(pacingTokens + Earned(pacingRate, elapsed), burst) - bytes as real;
    }

    method OnSend(bytes: nat, now: int)
      modifies this
      ensures View() == old(View()).OnSend(bytes, now)
    {
      bytesInFlight := Min(bytesInFlight + bytes, U64_MAX);
      ConsumePacing(bytes, now);
    }

    method UpdatePacingRate()
      modifies this`pacingRate
      ensures View() == old(View()).Repaced()
    {
      pacingRate := Rate(cwnd, minRtt);
    }

    method ClampCwnd()
      modifies this`cwnd
      ensures View() == old(View()).ClampedCwnd()
    {
      var ceiling := Packets(MAX_CWND_PACKETS, mtu);
      if cwnd > ceiling {
        cwnd := ceiling;
      }
    }

    method GrowWindow(bytes: nat)
      modifies this
      ensures View() == old(View()).GrowWindow(bytes)
    {
      var inflation := if rttInitialized && minRtt != 0 then Ratio(srtt, minRtt) else 1.0;
      if inflation >= RTT_INFLATION_BACKOFF {
        cwnd := Max(cwnd / 2, Packets(MIN_CWND_PACKETS, mtu));
        ssthresh := cwnd;
        phase := ProbeBandwidth;
        ClampCwnd();
        return;
      }
      match phase {
        case SlowStart =>
          if inflation >= RTT_INFLATION_EXIT_SLOW_START {
            ssthresh := cwnd;
            phase := ProbeBandwidth;
            ClampCwnd();
            return;
          }
          cwnd := cwnd + bytes;
          if cwnd >= ssthresh {
            phase := ProbeBandwidth;
          }
        case ProbeBandwidth =>
          cwnd := cwnd + AdditiveStep(bytes, mtu, cwnd);
      }
      ClampCwnd();
    }

    method UpdateRtt(rtt: nat, now: int)
      modifies this
      ensures View() == old(View()).Measured(rtt, now)
    {
      if rtt < minRtt || Since(now, minRttStamp) >= MIN_RTT_EXPIRY {
        minRtt := rtt;
        minRttStamp := now;
      }
      if !rttInitialized {
        srtt := rtt;
        rttvar := rtt / 2;
        rttInitialized := true;
      } else {
        var diff := Distance(rtt, srtt);
        rttvar := Monus(rttvar, rttvar / 4) + diff / 4;
        srtt := Monus(srtt, srtt / 8) + rtt / 8;
      }
    }

    method OnAckNoRtt(bytes: nat, now: int)
      modifies this
      ensures View() == old(View()).OnAckNoRtt(bytes, now)
    {
      bytesInFlight := Monus(bytesInFlight, bytes);
      totalAcked := Min(totalAcked + bytes, U64_MAX);
      GrowWindow(bytes);
      UpdatePacingRate();
      lastAckTime := now;
    }

    method OnAck(bytes: nat, rtt: nat, now: int)
      modifies this
      ensures View() == old(View()).OnAck(bytes, rtt, now)
    {
      bytesInFlight := Monus(bytesInFlight, bytes);
      totalAcked := Min(totalAcked + bytes, U64_MAX);
      UpdateRtt(rtt, now);
      GrowWindow(bytes);
      UpdatePacingRate();
      lastAckTime := now;
    }

    method Punish(now: int)
      modifies this
      ensures View() == old(View()).Punished(now)
    {
      match phase {
        case SlowStart =>
          if Since(now, slowStartLossWindowStart) > SLOW_START_LOSS_WINDOW {
            slowStartLosses := 0;
            slowStartLossWindowStart := now;
          }
          slowStartLosses := slowStartLosses + 1;
          if slowStartLosses >= SLOW_START_LOSS_TOLERANCE {
            ssthresh := cwnd / 2;
            cwnd := Max(ssthresh, Packets(MIN_CWND_PACKETS, mtu));
            phase := ProbeBandwidth;
          } else {
            cwnd := Max(cwnd * 8 / 10, Packets(MIN_CWND_PACKETS, mtu));
          }
        case ProbeBandwidth =>
          cwnd := Max(cwnd * 7 / 10, Packets(MIN_CWND_PACKETS, mtu));
      }
    }

    method OnLoss(bytes: nat, now: int)
      modifies this
      ensures View() == old(View()).OnLoss(bytes, now)
    {
      bytesInFlight := Monus(bytesInFlight, bytes);
      lossCount := lossCount + 1;
      Punish(now);
      UpdatePacingRate();
    }
  }
}
