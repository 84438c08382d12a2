/**
 The receiver's gap recovery against the sender's retries: how long a frame stays
 with its sender, whether recovery can wait that long, and what recovery does to a
 frame that is merely late.
 */
module GapRecovery {
  import opened Basics
  import opened Wire
  import opened Congestion
  import opened Endpoint
  import opened EndpointInvariants
  import opened EndpointSteps
  import opened TwoEndpoints
  import CongestionProofs
  import Retransmission

  // ---------- What wears a frame out ----------

  /** The two events that charge a frame a retry: a tick that finds it due, and a NACK that names it. */
  datatype Stimulus = TimerFires(now: int) | NackArrives(payload: Bytes, now: int)

  predicate Names(e: Stimulus, nonce: nat) {
    e.NackArrives? && |e.payload| >= 8 && FromBe(e.payload[..8]) == nonce
  }

  function React(s: Endpoint, e: Stimulus): Endpoint {
    match e
    case TimerFires(now) => HandleTick(s, now).0
    case NackArrives(payload, now) => if |payload| >= 8 then OnNack(s, payload, now).0 else s
  }

  function AfterAll(s: Endpoint, es: seq<Stimulus>): Endpoint {
    if es == [] then s else React(AfterAll(s, es[..|es| - 1]), es[|es| - 1])
  }

  /** How many NACKs named this nonce. */
  function Nacks(es: seq<Stimulus>, nonce: nat): nat {
    if es == [] then 0 else Nacks(es[..|es| - 1], nonce) + if Names(es[|es| - 1], nonce) then 1 else 0
  }

  /** The clock goes forward, from `start` and no further than `end`. */
  ghost predicate Clocked(es: seq<Stimulus>, start: int, end: int) {
    && start <= end
    && (forall i :: 0 <= i < |es| ==> start <= es[i].now <= end)
    && (forall i, j :: 0 <= i < j < |es| ==> es[i].now <= es[j].now)
  }

  // ---------- The schedule ----------

  /** The earliest age at which a frame resent the moment it is due has been resent `n` times. */
  function Schedule(baseMs: nat, n: nat): nat {
    if n == 0 then 0 else Schedule(baseMs, n - 1) + EffectiveRto(baseMs, n - 1)
  }

  lemma {:induction false} ScheduleGrows(baseMs: nat, n: nat, m: nat)
    requires n <= m
    ensures Schedule(baseMs, n) <= Schedule(baseMs, m)
  {
    if n < m { ScheduleGrows(baseMs, n, m - 1); }
  }

  lemma {:induction false} DoublingGrows(n: nat, n': nat, k: nat, m: nat)
    requires n <= n' && k <= m
    ensures Doubled(n, k) <= Doubled(n', m)
  {
    if k > 0 {
      DoublingGrows(n, n', k - 1, m - 1);
    } else if m > 0 {
      DoublingGrows(n, n', 0, m - 1);
    }
  }

  lemma BackoffGrows(base: nat, base': nat, k: nat, m: nat)
    requires base <= base' && k <= m
    ensures EffectiveRto(base, k) <= EffectiveRto(base', m)
  {
    DoublingGrows(base, base', Min(k, 6), Min(m, 6));
  }

  lemma {:induction false} ScheduleOfSlower(base: nat, base': nat, n: nat)
    requires base <= base'
    ensures Schedule(base, n) <= Schedule(base', n)
  {
    if n > 0 {
      ScheduleOfSlower(base, base', n - 1);
      BackoffGrows(base, base', n - 1, n - 1);
    }
  }

  // ---------- A frame outlives its schedule ----------

  /** With `nacks` of its retries charged by NACKs, the timer alone accounts for the others. */
  ghost predicate Paced(f: SentFrame, base: nat, born: int, nacks: nat, now: int) {
    f.isRetransmittable && born + Schedule(base, Monus(f.retries, nacks)) <= f.lastSent <= now
  }

  ghost predicate Holds(h: seq<SentFrame>, d: Datagram, nonce: nat) {
    exists i :: 0 <= i < |h| && h[i].nonce == nonce && h[i].bytes == d
  }

  ghost predicate HoldsPaced(h: seq<SentFrame>, d: Datagram, nonce: nat, base: nat, born: int, nacks: nat, now: int) {
    exists i :: 0 <= i < |h| && h[i].nonce == nonce && h[i].bytes == d && Paced(h[i], base, born, nacks, now)
  }

  /** The tick's own ACK, if it owes one, overflows nothing. */
  ghost predicate Roomy(s: Endpoint) {
    s.ackPending ==> |s.history| < s.cfg.maxSentHistory
  }

  /** Neither stimulus touches the RTT estimate or makes room scarce. */
  ghost predicate SameClock(s: Endpoint, t: Endpoint) {
    t.cfg == s.cfg && BaseRtoMs(t) == BaseRtoMs(s) && (Roomy(s) ==> Roomy(t))
  }

  lemma AckKeeps(s: Endpoint, now: int)
    requires Roomy(s)
    ensures var a := BuildAckIfDue(s, now).0;
            SameClock(s, a) && s.history <= a.history && (a.ackPending ==> a == s)
  {
  }

  lemma {:induction false} WhereIsShorter(h: seq<SentFrame>, p: SentFrame -> bool)
    ensures |Where(h, p)| <= |h|
  {
    if h != [] { WhereIsShorter(h[..|h| - 1], p); }
  }

  lemma TickClock(s: Endpoint, now: int)
    requires Roomy(s)
    ensures SameClock(s, HandleTick(s, now).0)
  {
    AckKeeps(s, now);
    WhereIsShorter(BuildAckIfDue(s, now).0.history, Living(Grace(s.cfg)));
  }

  lemma LossKeepsRto(c: Controller, bytes: nat, now: int)
    ensures c.OnLoss(bytes, now).Rto() == c.Rto()
  {
    var d := c.OnLoss(bytes, now);
    assert d.srtt == c.srtt && d.rttvar == c.rttvar;
  }

  lemma NackClock(s: Endpoint, payload: Bytes, now: int)
    requires |payload| >= 8
    ensures SameClock(s, OnNack(s, payload, now).0)
  {
    var (m, found) := LookupSentFrame(s, FromBe(payload[..8]), now);
    assert m.cc == s.cc && m.cfg == s.cfg && m.ackPending == s.ackPending && |m.history| == |s.history|;
    LossKeepsRto(s.cc, if found.Some? then found.value.Size() else EVICTED_LOSS_BYTES, now);
  }

  lemma NackTouches(s: Endpoint, payload: Bytes, now: int, i: nat)
    requires |payload| >= 8 && i < |s.history|
    ensures var r := OnNack(s, payload, now).0.history;
            && |r| == |s.history|
            && (r[i] == s.history[i] || (FromBe(payload[..8]) == s.history[i].nonce && r[i] == Resent(s.history[i], now)))
  {
  }

  /** A resend comes no earlier than the backoff allows. */
  lemma ResendIsPaced(f: SentFrame, base: nat, born: int, nacks: nat, now: int)
    requires base >= 1 && Paced(f, base, born, nacks, now) && Due(f, base, now)
    ensures Paced(Resent(f, now), base, born, nacks, now)
  {
    var k, waited := f.retries, Monus(f.retries, nacks);
    BackoffGrows(base, base, waited, k);
    ScheduleGrows(base, Monus(SaturatingInc(k), nacks), waited + 1);
  }

  lemma NackIsPaced(f: SentFrame, base: nat, born: int, nacks: nat, now: int)
    requires Paced(f, base, born, nacks, now)
    ensures Paced(Resent(f, now), base, born, nacks + 1, now)
  {
    ScheduleGrows(base, Monus(SaturatingInc(f.retries), nacks + 1), Monus(f.retries, nacks));
  }

  lemma TickHolds(s: Endpoint, d: Datagram, nonce: nat, base: nat, born: int, nacks: nat, now: int)
    requires Roomy(s) && BaseRtoMs(s) == base && HoldsPaced(s.history, d, nonce, base, born, nacks, now)
    requires now < born + Schedule(base, Monus(Grace(s.cfg) + 1, nacks))
    ensures HoldsPaced(HandleTick(s, now).0.history, d, nonce, base, born, nacks, now)
  {
    AckKeeps(s, now);
    var a := BuildAckIfDue(s, now).0;
    var grace, budget := Grace(s.cfg), a.cc.RetransmitBudget();
    var i :| 0 <= i < |s.history| && s.history[i].nonce == nonce && s.history[i].bytes == d
             && Paced(s.history[i], base, born, nacks, now);
    var f := a.history[i];
    if f.retries > grace {
      ScheduleGrows(base, Monus(grace + 1, nacks), Monus(f.retries, nacks));
      assert false;
    }
    WhereHolds(a.history, Living(grace), f);
    var h := EvictZombies(a).history;
    var k :| 0 <= k < |h| && h[k] == f;
    var r := AfterResend(h, budget, base, now);
    if Chosen(h, k, budget, base, now) { ResendIsPaced(f, base, born, nacks, now); }
    assert r[k].nonce == nonce && r[k].bytes == d && Paced(r[k], base, born, nacks, now);
  }

  lemma NackHolds(s: Endpoint, d: Datagram, nonce: nat, base: nat, born: int, nacks: nat, payload: Bytes, now: int)
    requires |payload| >= 8 && HoldsPaced(s.history, d, nonce, base, born, nacks, now)
    ensures HoldsPaced(OnNack(s, payload, now).0.history, d, nonce, base, born,
                       nacks + if FromBe(payload[..8]) == nonce then 1 else 0, now)
  {
    var i :| 0 <= i < |s.history| && s.history[i].nonce == nonce && s.history[i].bytes == d
             && Paced(s.history[i], base, born, nacks, now);
    var f, r, named := s.history[i], OnNack(s, payload, now).0.history, FromBe(payload[..8]);
    NackTouches(s, payload, now, i);
    if named == nonce {
      NackIsPaced(f, base, born, nacks, now);
      ScheduleGrows(base, Monus(f.retries, nacks + 1), Monus(f.retries, nacks));
      assert Paced(r[i], base, born, nacks + 1, now);
    }
  }

  lemma LaterHolds(h: seq<SentFrame>, d: Datagram, nonce: nat, base: nat, born: int, nacks: nat, now: int, later: int)
    requires HoldsPaced(h, d, nonce, base, born, nacks, now) && now <= later
    ensures HoldsPaced(h, d, nonce, base, born, nacks, later)
  {
    var i :| 0 <= i < |h| && h[i].nonce == nonce && h[i].bytes == d && Paced(h[i], base, born, nacks, now);
    assert Paced(h[i], base, born, nacks, later);
  }

  lemma ReactHolds(s: Endpoint, e: Stimulus, d: Datagram, nonce: nat, base: nat, born: int, nacks: nat)
    requires Roomy(s) && BaseRtoMs(s) == base && HoldsPaced(s.history, d, nonce, base, born, nacks, e.now)
    requires e.now < born + Schedule(base, Monus(Grace(s.cfg) + 1, nacks))
    ensures SameClock(s, React(s, e))
    ensures HoldsPaced(React(s, e).history, d, nonce, base, born, nacks + if Names(e, nonce) then 1 else 0, e.now)
  {
    match e
    case TimerFires(now) =>
      TickClock(s, now);
      TickHolds(s, d, nonce, base, born, nacks, now);
    case NackArrives(payload, now) =>
      if |payload| >= 8 {
        NackClock(s, payload, now);
        NackHolds(s, d, nonce, base, born, nacks, payload, now);
      }
  }

  /** The instant of the last stimulus. */
  function Latest(es: seq<Stimulus>, start: int): int {
    if es == [] then start else es[|es| - 1].now
  }

  lemma ClockedFront(es: seq<Stimulus>, start: int, end: int)
    requires Clocked(es, start, end) && es != []
    ensures var front := es[..|es| - 1]; Clocked(front, start, end) && Latest(front, start) <= es[|es| - 1].now <= end
  {
  }

  lemma PacedStep(m: Endpoint, e: Stimulus, f: SentFrame, base: nat, nacks: nat, at: int, end: int)
    requires Roomy(m) && BaseRtoMs(m) == base && HoldsPaced(m.history, f.bytes, f.nonce, base, f.lastSent, nacks, at)
    requires at <= e.now <= end < f.lastSent + Schedule(base, Monus(Grace(m.cfg) + 1, nacks))
    ensures SameClock(m, React(m, e))
    ensures HoldsPaced(React(m, e).history, f.bytes, f.nonce, base, f.lastSent, nacks + if Names(e, f.nonce) then 1 else 0,
                       e.now)
  {
    LaterHolds(m.history, f.bytes, f.nonce, base, f.lastSent, nacks, at, e.now);
    ReactHolds(m, e, f.bytes, f.nonce, base, f.lastSent, nacks);
  }

  lemma {:induction false} StillPaced(s: Endpoint, es: seq<Stimulus>, i: nat, base: nat, end: int)
    requires i < |s.history| && s.history[i].isRetransmittable && s.history[i].retries == 0 && Roomy(s)
    requires Clocked(es, s.history[i].lastSent, end) && base == BaseRtoMs(s)
    requires end < s.history[i].lastSent + Schedule(base, Monus(Grace(s.cfg) + 1, Nacks(es, s.history[i].nonce)))
    ensures var f, t := s.history[i], AfterAll(s, es);
            && SameClock(s, t)
            && HoldsPaced(t.history, f.bytes, f.nonce, base, f.lastSent, Nacks(es, f.nonce), Latest(es, f.lastSent))
  {
    var f := s.history[i];
    if es == [] {
      assert Paced(f, base, f.lastSent, 0, f.lastSent);
    } else {
      var front, e := es[..|es| - 1], es[|es| - 1];
      var before := Nacks(front, f.nonce);
      ScheduleGrows(base, Monus(Grace(s.cfg) + 1, Nacks(es, f.nonce)), Monus(Grace(s.cfg) + 1, before));
      ClockedFront(es, f.lastSent, end);
      StillPaced(s, front, i, base, end);
      PacedStep(AfterAll(s, front), e, f, base, before, Latest(front, f.lastSent), end);
    }
  }

  /**
   With no ACK, path change or overflow, a frame is still held at every instant
   before its schedule is through, less one backoff for each NACK that named it.
   */
  lemma HeldThroughSchedule(s: Endpoint, es: seq<Stimulus>, i: nat, end: int)
    requires i < |s.history| && s.history[i].isRetransmittable && s.history[i].retries == 0 && Roomy(s)
    requires Clocked(es, s.history[i].lastSent, end)
    requires end < s.history[i].lastSent + Schedule(BaseRtoMs(s), Monus(Grace(s.cfg) + 1, Nacks(es, s.history[i].nonce)))
    ensures Holds(AfterAll(s, es).history, s.history[i].bytes, s.history[i].nonce)
  {
    StillPaced(s, es, i, BaseRtoMs(s), end);
  }

  // ---------- And no longer than that ----------

  /** Nothing is held but `f`, and no ACK is owed. */
  ghost predicate Lone(s: Endpoint, f: SentFrame) {
    s.history == [f] && f.isRetransmittable && !s.ackPending
  }

  lemma WhereOne(f: SentFrame, p: SentFrame -> bool)
    ensures Where([f], p) == if p(f) then [f] else []
  {
    assert [f][..0] == [];
    assert Where([f], p) == Where([], p) + if p(f) then [f] else [];
  }

  lemma LoneTick(s: Endpoint, f: SentFrame, now: int)
    requires Lone(s, f)
    ensures f.retries > Grace(s.cfg) ==> HandleTick(s, now).0.history == []
    ensures f.retries <= Grace(s.cfg) && Due(f, BaseRtoMs(s), now) ==> Lone(HandleTick(s, now).0, Resent(f, now))
  {
    WhereOne(f, Living(Grace(s.cfg)));
    var h, budget := EvictZombies(s).history, s.cc.RetransmitBudget();
    if f.retries <= Grace(s.cfg) && Due(f, BaseRtoMs(s), now) {
      CongestionProofs.BudgetBounded(s.cc);
      assert h[..0] == [];
      assert Chosen(h, 0, budget, BaseRtoMs(s), now);
      assert AfterResend(h, budget, BaseRtoMs(s), now) == [Resent(f, now)];
    }
  }

  lemma LoneNack(s: Endpoint, f: SentFrame, payload: Bytes, now: int)
    requires Lone(s, f) && |payload| >= 8 && FromBe(payload[..8]) == f.nonce
    ensures Lone(OnNack(s, payload, now).0, Resent(f, now))
  {
    assert OnNack(s, payload, now).0.history == s.history[0 := Resent(f, now)];
  }

  /** `s` has become `t`, which holds only `f`, by `es`; of these `nacks` named the frame. */
  ghost predicate Leads(s: Endpoint, es: seq<Stimulus>, f: SentFrame, start: int, end: int, nacks: nat) {
    && Clocked(es, start, end) && Nacks(es, f.nonce) == nacks
    && Lone(AfterAll(s, es), f) && SameClock(s, AfterAll(s, es))
  }

  lemma OneMore(s: Endpoint, es: seq<Stimulus>, e: Stimulus)
    ensures AfterAll(s, es + [e]) == React(AfterAll(s, es), e)
    ensures forall n :: Nacks(es + [e], n) == Nacks(es, n) + if Names(e, n) then 1 else 0
  {
    assert (es + [e])[..|es|] == es;
  }

  lemma LaterClock(es: seq<Stimulus>, start: int, end: int, e: Stimulus)
    requires Clocked(es, start, end) && end <= e.now
    ensures Clocked(es + [e], start, e.now)
  {
  }

  lemma ExtendLeads(s: Endpoint, es: seq<Stimulus>, f: SentFrame, start: int, end: int, nacks: nat, e: Stimulus, g: SentFrame)
    requires Leads(s, es, f, start, end, nacks) && end <= e.now && g.nonce == f.nonce
    requires Lone(React(AfterAll(s, es), e), g) && SameClock(AfterAll(s, es), React(AfterAll(s, es), e))
    ensures Leads(s, es + [e], g, start, e.now, nacks + if Names(e, f.nonce) then 1 else 0)
  {
    OneMore(s, es, e);
    LaterClock(es, start, end, e);
  }

  lemma PunctualTick(m: Endpoint, g: SentFrame, now: int)
    requires Lone(m, g) && g.retries <= Grace(m.cfg) && now == g.lastSent + EffectiveRto(BaseRtoMs(m), g.retries)
    ensures Lone(React(m, TimerFires(now)), Resent(g, now)) && SameClock(m, React(m, TimerFires(now)))
  {
    LoneTick(m, g, now);
    TickClock(m, now);
  }

  lemma OneTickMore(s: Endpoint, front: seq<Stimulus>, g: SentFrame, start: int, now: int)
    requires Leads(s, front, g, start, g.lastSent, 0) && g.retries <= Grace(s.cfg)
    requires now == g.lastSent + EffectiveRto(BaseRtoMs(s), g.retries)
    ensures Leads(s, front + [TimerFires(now)], Resent(g, now), start, now, 0)
  {
    PunctualTick(AfterAll(s, front), g, now);
    ExtendLeads(s, front, g, start, g.lastSent, 0, TimerFires(now), Resent(g, now));
  }

  lemma NoTicksYet(s: Endpoint, f: SentFrame)
    requires Lone(s, f)
    ensures Leads(s, [], f, f.lastSent, f.lastSent, 0)
  {
  }

  /** Ticks at the very instants the frame falls due run it through `n` backoffs, and leave it as `g`. */
  lemma {:induction false} PunctualTicks(s: Endpoint, f: SentFrame, base: nat, n: nat)
    returns (es: seq<Stimulus>, g: SentFrame)
    requires base == BaseRtoMs(s) && Lone(s, f) && f.retries == 0 && n <= Grace(s.cfg) + 1 <= U8_MAX
    ensures Leads(s, es, g, f.lastSent, g.lastSent, 0)
    ensures g.nonce == f.nonce && g.retries == n && g.lastSent == f.lastSent + Schedule(base, n)
  {
    if n == 0 {
      NoTicksYet(s, f);
      es, g := [], f;
    } else {
      es, g := PunctualTicks(s, f, base, n - 1);
      var now := g.lastSent + EffectiveRto(base, n - 1);
      OneTickMore(s, es, g, f.lastSent, now);
      es, g := es + [TimerFires(now)], Resent(g, now);
    }
  }

  lemma PunctualNack(m: Endpoint, f: SentFrame) returns (e: Stimulus)
    requires Lone(m, f) && f.nonce <= U64_MAX
    ensures e.now == f.lastSent && Names(e, f.nonce)
    ensures Lone(React(m, e), f.(retries := SaturatingInc(f.retries))) && SameClock(m, React(m, e))
  {
    var payload := U64Bytes(f.nonce);
    U64RoundTrip(f.nonce);
    assert payload[..8] == payload;
    e := NackArrives(payload, f.lastSent);
    LoneNack(m, f, payload, f.lastSent);
    NackClock(m, payload, f.lastSent);
  }

  /** Then `k` NACKs at one instant charge it `k` times more. */
  lemma {:induction false} NacksAtOnce(s: Endpoint, es: seq<Stimulus>, f: SentFrame, start: int, k: nat)
    returns (more: seq<Stimulus>)
    requires Leads(s, es, f, start, f.lastSent, 0) && f.nonce <= U64_MAX
    ensures Leads(s, more, f.(retries := Min(f.retries + k, U8_MAX)), start, f.lastSent, k)
  {
    more := es;
    if k > 0 {
      var front := NacksAtOnce(s, es, f, start, k - 1);
      var g := f.(retries := Min(f.retries + (k - 1), U8_MAX));
      var e := PunctualNack(AfterAll(s, front), g);
      ExtendLeads(s, front, g, start, f.lastSent, k - 1, e, g.(retries := SaturatingInc(g.retries)));
      more := front + [e];
    }
  }

  /** By `end`, and after `nacks` NACKs for it, the frame that was alone has been given up. */
  ghost predicate GoneBy(s: Endpoint, es: seq<Stimulus>, nacks: nat, end: int)
    requires |s.history| == 1
  {
    && Clocked(es, s.history[0].lastSent, end) && Nacks(es, s.history[0].nonce) == nacks
    && AfterAll(s, es).history == []
  }

  lemma GoneOnSchedule(s: Endpoint, nacks: nat, end: int) returns (es: seq<Stimulus>)
    requires |s.history| == 1 && Lone(s, s.history[0]) && s.history[0].retries == 0 && s.history[0].nonce <= U64_MAX
    requires s.cfg.maxRetries + 2 < U8_MAX
    requires end >= s.history[0].lastSent + Schedule(BaseRtoMs(s), Monus(Grace(s.cfg) + 1, nacks))
    ensures GoneBy(s, es, nacks, end)
  {
    var f, n := s.history[0], Monus(Grace(s.cfg) + 1, nacks);
    var timers, g := PunctualTicks(s, f, BaseRtoMs(s), n);
    var worn := NacksAtOnce(s, timers, g, f.lastSent, nacks);
    es := worn + [TimerFires(end)];
    LastTick(s, worn, g.(retries := Min(n + nacks, U8_MAX)), f.lastSent, nacks, end);
  }

  /** A tick after that gives the frame up. */
  lemma LastTick(s: Endpoint, worn: seq<Stimulus>, g: SentFrame, start: int, nacks: nat, end: int)
    requires Leads(s, worn, g, start, g.lastSent, nacks) && g.retries > Grace(s.cfg) && g.lastSent <= end
    ensures Clocked(worn + [TimerFires(end)], start, end) && Nacks(worn + [TimerFires(end)], g.nonce) == nacks
    ensures AfterAll(s, worn + [TimerFires(end)]).history == []
  {
    LoneTick(AfterAll(s, worn), g, end);
    OneMore(s, worn, TimerFires(end));
    LaterClock(worn, start, g.lastSent, TimerFires(end));
  }

  /** A retry counter that saturates wears nothing out. */
  lemma {:induction false} SaturatedNeverGone(s: Endpoint, es: seq<Stimulus>)
    requires s.cfg.maxRetries + 2 >= U8_MAX && !s.ackPending
    ensures var t := AfterAll(s, es); |t.history| == |s.history| && t.cfg == s.cfg && !t.ackPending
  {
    if es != [] {
      var front, e := es[..|es| - 1], es[|es| - 1];
      SaturatedNeverGone(s, front);
      if e.TimerFires? { Retransmission.SaturatedTickKeepsAll(AfterAll(s, front), e.now); }
    }
  }

  /**
   The schedule is exact: ticks and NACKs, `nacks` of them for it, can have worn a
   lone frame out by `end` if and only if the retry counter has room to pass the limit
   and the frame's schedule, less one backoff for each NACK, is through by then.
   */
  lemma GoneExactlyOnSchedule(s: Endpoint, nacks: nat, end: int)
    requires |s.history| == 1 && Lone(s, s.history[0]) && s.history[0].retries == 0 && s.history[0].nonce <= U64_MAX
    ensures (exists es :: GoneBy(s, es, nacks, end))
            <==> s.cfg.maxRetries + 2 < U8_MAX
                 && end >= s.history[0].lastSent + Schedule(BaseRtoMs(s), Monus(Grace(s.cfg) + 1, nacks))
  {
    if s.cfg.maxRetries + 2 >= U8_MAX {
      forall es | GoneBy(s, es, nacks, end)
        ensures false
      {
        SaturatedNeverGone(s, es);
      }
    } else if end >= s.history[0].lastSent + Schedule(BaseRtoMs(s), Monus(Grace(s.cfg) + 1, nacks)) {
      var es := GoneOnSchedule(s, nacks, end);
    } else {
      forall es | GoneBy(s, es, nacks, end)
        ensures false
      {
        HeldThroughSchedule(s, es, 0, end);
      }
    }
  }

  // ---------- Whether recovery can wait that long ----------

  /** A controller the program can have. */
  ghost predicate Reachable(c: Controller) {
    exists mtu: Mtu, start, run :: c == CongestionProofs.After(Fresh(mtu, start), run)
  }

  /** The fastest schedule a sender with this configuration can have. */
  function FloorMs(cfg: Config): nat {
    Max(RTO_MIN, cfg.rto) / MILLISECOND
  }

  /** Under these two RTT estimates, recovery waits out a schedule shortened by `nacks` NACKs. */
  ghost predicate Outlasts(receiver: Controller, sender: Controller, cfg: Config, nacks: nat) {
    && Reachable(receiver) && Reachable(sender)
    && RecoveryTimeout(receiver) >= Schedule(BaseMs(sender, cfg), Monus(Grace(cfg) + 1, nacks))
  }

  /** A controller that has taken one sample. */
  function Sampled(rtt: nat): Controller {
    Fresh(1, 0).OnAck(0, rtt, 0)
  }

  lemma SampledRto(rtt: nat)
    ensures Reachable(Sampled(rtt)) && Sampled(rtt).Rto() == Clamp(rtt + 4 * (rtt / 2), RTO_MIN, RTO_MAX)
  {
    var e := CongestionProofs.At(CongestionProofs.AckRtt(0, rtt), 0);
    assert [e][..0] == [];
    assert CongestionProofs.After(Fresh(1, 0), [e]) == CongestionProofs.Apply(CongestionProofs.After(Fresh(1, 0), []), e);
    var c := Sampled(rtt);
    assert (c.srtt, c.rttvar) == FirstSample(rtt);
  }

  /**
   Some pair of RTT estimates lets recovery wait out the sender if and only if the
   fastest schedule the sender's configuration allows, less one backoff for each
   NACK, fits in the ten seconds recovery waits at most.
   */
  lemma RecoveryOutlastsIff(cfg: Config, nacks: nat)
    requires cfg.Valid()
    ensures (exists receiver, sender :: Outlasts(receiver, sender, cfg, nacks))
            <==> Schedule(FloorMs(cfg), Monus(Grace(cfg) + 1, nacks)) <= GAP_RECOVERY_MAX
  {
    var n := Monus(Grace(cfg) + 1, nacks);
    forall receiver, sender | Outlasts(receiver, sender, cfg, nacks)
      ensures Schedule(FloorMs(cfg), n) <= GAP_RECOVERY_MAX
    {
      assert FloorMs(cfg) <= BaseMs(sender, cfg);
      ScheduleOfSlower(FloorMs(cfg), BaseMs(sender, cfg), n);
    }
    if Schedule(FloorMs(cfg), n) <= GAP_RECOVERY_MAX {
      SampledRto(0);
      SampledRto(2 * SECOND);
      assert BaseMs(Sampled(0), cfg) == FloorMs(cfg);
      assert Outlasts(Sampled(2 * SECOND), Sampled(0), cfg, nacks);
    }
  }

  lemma FastestSchedule()
    ensures Schedule(50, 8) == 9550 * MILLISECOND && Schedule(50, 9) == 12750 * MILLISECOND
  {
    assert Doubled(50, 1) == 100 && Doubled(50, 2) == 200 && Doubled(50, 3) == 400 && Doubled(50, 4) == 800;
    assert Doubled(50, 5) == 1600 && Doubled(50, 6) == 3200;
    assert Schedule(50, 1) == 50 * MILLISECOND;
    assert Schedule(50, 2) == 150 * MILLISECOND;
    assert Schedule(50, 3) == 350 * MILLISECOND;
    assert Schedule(50, 4) == 750 * MILLISECOND;
    assert Schedule(50, 5) == 1550 * MILLISECOND;
    assert Schedule(50, 6) == 3150 * MILLISECOND;
    assert Schedule(50, 7) == 6350 * MILLISECOND;
    assert Schedule(50, 8) == 9550 * MILLISECOND;
  }

  lemma EightFit(n: nat)
    ensures Schedule(50, n) <= GAP_RECOVERY_MAX <==> n <= 8
  {
    FastestSchedule();
    if n <= 8 { ScheduleGrows(50, n, 8); } else { ScheduleGrows(50, 9, n); }
  }

  ghost predicate CanOutlast(cfg: Config, nacks: nat) {
    exists receiver, sender :: Outlasts(receiver, sender, cfg, nacks)
  }

  /**
   In numbers, for an initial RTO of up to 50 ms: recovery can wait out the sender if
   and only if at most eight backoffs are left to the timer.
   */
  lemma EightBackoffsFit(cfg: Config, nacks: nat)
    requires cfg.Valid() && cfg.rto <= RTO_MIN
    ensures CanOutlast(cfg, nacks) <==> Monus(Grace(cfg) + 1, nacks) <= 8
  {
    assert FloorMs(cfg) == 50;
    RecoveryOutlastsIff(cfg, nacks);
    EightFit(Monus(Grace(cfg) + 1, nacks));
  }

  /** Without NACKs, then, exactly when at most five retries are allowed. */
  lemma FiveRetriesFit(cfg: Config)
    requires cfg.Valid() && cfg.rto <= RTO_MIN
    ensures CanOutlast(cfg, 0) <==> cfg.maxRetries <= 5
  {
    EightBackoffsFit(cfg, 0);
  }

  lemma RecoverySkips(r: Endpoint, now: int)
    requires Inv(r) && Stalled(r, now)
    ensures var t := RecoverStalledGap(r, now).0; r.expected < t.expected == |t.fates| && t.fates[r.expected] == Skipped
  {
    RecoverStep(r, now);
    var least := Least(r.reorder.Keys);
    assert least in r.reorder;
  }

  /** `s` holds the very datagram of nonce `n`, and `r` can open it. */
  ghost predicate HoldsFor(s: Endpoint, r: Endpoint, h: seq<SentFrame>, n: nat) {
    && n < |s.sealed| && Holds(h, Seal(s.cfg, n, s.sealed[n]), n)
    && Decrypt(r.cfg.recvKey, n, r.cfg.sid, Seal(s.cfg, n, s.sealed[n]).body) == Some(s.sealed[n])
  }

  /**
   Whenever recovery acts before the schedule of the frame it skips is through, the
   peer still holds that frame, and the bytes it holds would open at the receiver.
   */
  lemma RecoverySkipsHeldFrame(r: Endpoint, s: Endpoint, es: seq<Stimulus>, i: nat, now: int)
    requires Inv(r) && Inv(s) && Linked(s.cfg, r.cfg) && Stalled(r, now)
    requires i < |s.history| && s.history[i].isRetransmittable && s.history[i].retries == 0 && Roomy(s)
    requires s.history[i].nonce == r.expected && Clocked(es, s.history[i].lastSent, now)
    requires now < s.history[i].lastSent + Schedule(BaseRtoMs(s), Monus(Grace(s.cfg) + 1, Nacks(es, r.expected)))
    ensures HoldsFor(s, r, AfterAll(s, es).history, r.expected)
    ensures var t := RecoverStalledGap(r, now).0; r.expected < t.expected == |t.fates| && t.fates[r.expected] == Skipped
  {
    HeldThroughSchedule(s, es, i, now);
    RecoverySkips(r, now);
  }

  /**
   In particular when recovery comes the moment its timeout is over, the frame was
   first sent after the receiver last advanced, and even its fastest schedule is longer
   than recovery ever waits.
   */
  lemma PromptRecoverySkipsHeldFrame(r: Endpoint, s: Endpoint, es: seq<Stimulus>, i: nat, now: int)
    requires Inv(r) && Inv(s) && Linked(s.cfg, r.cfg)
    requires Stalled(r, now) && now <= r.lastRecvAdvance + RecoveryTimeout(r.cc)
    requires i < |s.history| && s.history[i].isRetransmittable && s.history[i].retries == 0 && Roomy(s)
    requires s.history[i].nonce == r.expected && Clocked(es, s.history[i].lastSent, now)
    requires r.lastRecvAdvance < s.history[i].lastSent
    requires Schedule(FloorMs(s.cfg), Monus(Grace(s.cfg) + 1, Nacks(es, r.expected))) >= GAP_RECOVERY_MAX
    ensures HoldsFor(s, r, AfterAll(s, es).history, r.expected)
  {
    assert FloorMs(s.cfg) <= BaseRtoMs(s);
    ScheduleOfSlower(FloorMs(s.cfg), BaseRtoMs(s), Monus(Grace(s.cfg) + 1, Nacks(es, r.expected)));
    RecoverySkipsHeldFrame(r, s, es, i, now);
  }

  // ---------- A frame that is merely late ----------

  /** `f` as the peer seals it under nonce `n`. */
  function FromPeer(cfg: Config, n: nat, f: Frame): Event {
    Inbound(Datagram(cfg.sid, n, Sealed(cfg.recvKey, n, cfg.sid, f, 0)))
  }

  predicate Idle(s: Endpoint, now: int) {
    Since(now, s.lastRecvAdvance) >= RecoveryTimeout(s.cc)
  }

  /** Established, nothing buffered. */
  ghost predicate Waiting(s: Endpoint) {
    Inv(s) && Headroom(s) && s.state == Established && s.reorder == map[]
  }

  /** `t` is waiting for the frame `s` was waiting for, with the next one buffered. */
  ghost predicate OneBuffered(s: Endpoint, t: Endpoint, f: Frame) {
    && t.cfg == s.cfg && t.state == Established && t.expected == s.expected && t.fates == s.fates
    && t.reorder == map[s.expected + 1 := ActionOf(f)]
    && t.lastRecvAdvance == s.lastRecvAdvance && t.cc == s.cc
  }

  lemma NackKeepsBuffer(s: Endpoint, b: Endpoint, f: Frame, now: int)
    requires OneBuffered(s, b, f)
    ensures OneBuffered(s, NackIfDue(b, now).0, f)
    ensures forall i :: 0 <= i < |NackIfDue(b, now).1| ==> NackIfDue(b, now).1[i].SendDatagram?
  {
  }

  lemma AckKeepsBuffer(s: Endpoint, b: Endpoint, f: Frame, now: int)
    requires OneBuffered(s, b, f)
    ensures OneBuffered(s, BuildAckIfDue(b, now).0, f)
  {
  }

  lemma FirstInserted(s: Endpoint, a: Endpoint, f: Frame)
    requires a.reorder == map[] && a.cfg.Valid() && a.state == Established && a.cfg == s.cfg && a.expected == s.expected
    requires a.fates == s.fates && a.lastRecvAdvance == s.lastRecvAdvance && a.cc == s.cc
    ensures OneBuffered(s, Inserted(a, s.expected + 1, ActionOf(f)), f)
  {
  }

  /** The gap is noticed: at most a NACK and an ACK go out. */
  lemma EarlySequenced(s: Endpoint, b: Endpoint, f: Frame, now: int)
    requires OneBuffered(s, b, f)
    ensures var (c, nacks) := NackIfDue(b, now);
            var (t, ack) := BuildAckIfDue(c, now);
            OneBuffered(s, t, f) && Deliveries(Collate([] + nacks + OptionalSend(ack))) == []
  {
    NackKeepsBuffer(s, b, f, now);
    var (c, nacks) := NackIfDue(b, now);
    AckKeepsBuffer(s, c, f, now);
    OnlySends([] + nacks + OptionalSend(BuildAckIfDue(c, now).1), now);
  }

  lemma FrameOpens(s: Endpoint, n: nat, f: Frame, now: int)
    requires s.expected <= n <= s.expected + s.cfg.maxReorder && f.kind == Data
    ensures HandleFrame(s, FromPeer(s.cfg, n, f).datagram, now)
            == Sequence(AfterKind(OnAuthenticated(s, n, f, now).0, Data), n, ActionOf(f), [], now)
  {
  }

  lemma EarlyArrives(s: Endpoint, f: Frame, now: int)
    requires Waiting(s) && f.kind == Data
    ensures var (t, out) := OnEvent(s, FromPeer(s.cfg, s.expected + 1, f), now);
            OneBuffered(s, t, f) && out.Ok? && Deliveries(out.action) == []
  {
    var d := FromPeer(s.cfg, s.expected + 1, f).datagram;
    assert RecoverStalledGap(s, now) == (s, []);
    FrameOpens(s, s.expected + 1, f, now);
    var a := AfterKind(OnAuthenticated(s, s.expected + 1, f, now).0, Data);
    FirstInserted(s, a, f);
    EarlySequenced(s, Inserted(a, s.expected + 1, ActionOf(f)), f, now);
    var (t, out) := HandleFrame(s, d, now);
    assert HandleData(s, d, now) == (t, out);
  }

  lemma {:induction false} OnlySends(acts: seq<Action>, now: int)
    requires forall i :: 0 <= i < |acts| ==> acts[i].SendDatagram?
    ensures Deliveries(Collate(acts)) == []
  {
    CollateMeaning(acts, now);
    NoDeliveries(acts);
  }

  lemma {:induction false} NoDeliveries(acts: seq<Action>)
    requires forall i :: 0 <= i < |acts| ==> acts[i].SendDatagram?
    ensures AllDeliveries(acts) == []
  {
    if acts != [] { NoDeliveries(acts[..|acts| - 1]); }
  }

  /** The buffered frame is all that is released. */
  lemma ReleaseOne(s: Endpoint, resume: nat, action: Action, now: int)
    requires s.reorder == map[resume := action]
    ensures ReleaseFrom(s, resume, now).1 == [action]
    ensures ReleaseFrom(s, resume, now).0.expected == resume + 1
    ensures ReleaseFrom(s, resume, now).0.reorder == map[]
    ensures ReleaseFrom(s, resume, now).0.fates == s.fates + Repeat(Skipped, Monus(resume, s.expected)) + [Released]
  {
    assert resume + 1 !in s.reorder;
    assert DrainEnd(s.reorder, resume) == DrainEnd(s.reorder, resume + 1) == resume + 1;
  }

  /** In time: the late frame and the buffered one are handed over together. */
  lemma LateInTime(s: Endpoint, t: Endpoint, f: Frame, g: Frame, now: int)
    requires Waiting(s) && OneBuffered(s, t, g) && !Idle(s, now) && f.kind == Data && g.kind == Data
    ensures var (u, out) := OnEvent(t, FromPeer(s.cfg, s.expected, f), now);
            && u.fates == s.fates + [Released, Released] && out.Ok?
            && Deliveries(out.action) == [Delivery(f.stream, f.payload), Delivery(g.stream, g.payload)]
  {
    var d := FromPeer(s.cfg, s.expected, f).datagram;
    assert RecoverStalledGap(t, now) == (t, []);
    FrameOpens(t, s.expected, f, now);
    var a := AfterKind(OnAuthenticated(t, s.expected, f, now).0, Data);
    LateSequenced(s, a, f, g, now);
    assert HandleData(t, d, now) == HandleFrame(t, d, now);
  }

  lemma LateAccepted(s: Endpoint, a: Endpoint, f: Frame, g: Frame, now: int)
    requires OneBuffered(s, a, g)
    ensures var (b, acts) := AcceptInOrder(a, ActionOf(f), now);
            acts == [ActionOf(f), ActionOf(g)] && b.fates == s.fates + [Released, Released]
  {
    var m := a.(expected := a.expected + 1, fates := a.fates + [Released]);
    ReleaseOne(m, s.expected + 1, ActionOf(g), now);
    assert [ActionOf(f)] + [ActionOf(g)] == [ActionOf(f), ActionOf(g)];
    assert s.fates + [Released] + Repeat(Skipped, 0) + [Released] == s.fates + [Released, Released];
  }

  lemma PairHanded(f: Frame, g: Frame, ack: Option<Datagram>, now: int)
    requires f.kind == Data && g.kind == Data
    ensures Deliveries(Collate([] + OptionalSend(ack) + [ActionOf(f), ActionOf(g)]))
            == [Delivery(f.stream, f.payload), Delivery(g.stream, g.payload)]
  {
    var front, acts := [] + OptionalSend(ack), [ActionOf(f)] + [ActionOf(g)];
    assert acts == [ActionOf(f), ActionOf(g)];
    CollateMeaning(front + acts, now);
    AllDeliveriesConcat(front, acts);
    AllDeliveriesConcat([ActionOf(f)], [ActionOf(g)]);
    SingleAction(ActionOf(f), now);
    SingleAction(ActionOf(g), now);
    NoDeliveries(front);
  }

  lemma LateSequenced(s: Endpoint, a: Endpoint, f: Frame, g: Frame, now: int)
    requires OneBuffered(s, a, g) && f.kind == Data && g.kind == Data
    ensures var (u, out) := Sequence(a, s.expected, ActionOf(f), [], now);
            && u.fates == s.fates + [Released, Released] && out.Ok?
            && Deliveries(out.action) == [Delivery(f.stream, f.payload), Delivery(g.stream, g.payload)]
  {
    LateAccepted(s, a, f, g, now);
    var b := AcceptInOrder(a, ActionOf(f), now).0;
    var (u, ack) := BuildAckIfDue(b, now);
    assert u.fates == b.fates;
    PairHanded(f, g, ack, now);
  }

  /** `s` has just sealed an ACK that names `n`. */
  ghost predicate JustAcked(s: Endpoint, n: nat) {
    && s.sealed != [] && s.sealed[|s.sealed| - 1].kind == Ack
    && var ranges := ParseAck(s.sealed[|s.sealed| - 1].payload);
       ranges.Some? && InRanges(n, ranges.value)
  }

  lemma AckedBelow(s: Endpoint, n: nat, now: int)
    requires n < s.expected <= U64_MAX && s.reorder == map[]
    ensures JustAcked(ForceBuildAck(s, now).0, n)
    ensures ForceBuildAck(s, now).0.fates == s.fates
  {
    assert Sorted(s.reorder.Keys) == [];
    assert AckRanges(s.expected, []) == [Range(0, s.expected - 1)];
    AckIsTrue(s.expected, []);
    InRangesOne(n, Range(0, s.expected - 1));
  }

  /** Too late by the clock alone: recovery has skipped it, and it is acknowledged as a duplicate. */
  lemma LateAfterIdle(s: Endpoint, t: Endpoint, f: Frame, g: Frame, now: int)
    requires Waiting(s) && OneBuffered(s, t, g) && Idle(s, now) && f.kind == Data && g.kind == Data
    ensures var (u, out) := OnEvent(t, FromPeer(s.cfg, s.expected, f), now);
            && u.fates == s.fates + [Skipped, Released] && out.Ok? && JustAcked(u, s.expected)
            && Deliveries(out.action) == [Delivery(g.stream, g.payload)]
  {
    var d := FromPeer(s.cfg, s.expected, f).datagram;
    assert t.reorder.Keys == {s.expected + 1};
    assert Least(t.reorder.Keys) == s.expected + 1;
    ReleaseOne(t, s.expected + 1, ActionOf(g), now);
    var (r, recovered) := RecoverStalledGap(t, now);
    assert recovered == [ActionOf(g)] && r.fates == s.fates + [Skipped, Released];
    AckedBelow(r, s.expected, now);
    var ack := ForceBuildAck(r, now).1;
    assert HandleFrame(r, d, now) == (ForceBuildAck(r, now).0, Ok(Collate(OptionalSend(ack))));
    SkippedSplice(g, ack, now);
  }

  lemma SkippedSplice(g: Frame, ack: Option<Datagram>, now: int)
    requires g.kind == Data
    ensures Deliveries(Splice([ActionOf(g)], Collate(OptionalSend(ack)))) == [Delivery(g.stream, g.payload)]
  {
    var tail := OptionalSend(ack);
    assert Splice([ActionOf(g)], Collate(tail)) == Collate([ActionOf(g)] + tail);
    CollateMeaning([ActionOf(g)] + tail, now);
    AllDeliveriesConcat([ActionOf(g)], tail);
    SingleAction(ActionOf(g), now);
    NoDeliveries(tail);
  }

  /**
   Two frames that arrive in each other's place are both delivered if and only if, when
   the overtaken one arrives, the receiver's sequence has advanced within the recovery
   timeout. After a longer silence the one overtaken is skipped, although it is only
   late, and acknowledged: the timeout runs from the last advance, not from the moment
   the gap appeared.
   */
  lemma SwappedPairDeliveredIff(s: Endpoint, f: Frame, g: Frame, now1: int, now2: int)
    requires Waiting(s) && f.kind == Data && g.kind == Data && now1 <= now2
    ensures var (t, first) := OnEvent(s, FromPeer(s.cfg, s.expected + 1, g), now1);
            var (u, second) := OnEvent(t, FromPeer(s.cfg, s.expected, f), now2);
            && first.Ok? && Deliveries(first.action) == [] && second.Ok?
            && (Deliveries(second.action) == [Delivery(f.stream, f.payload), Delivery(g.stream, g.payload)]
                <==> Since(now2, s.lastRecvAdvance) < RecoveryTimeout(s.cc))
            && (Since(now2, s.lastRecvAdvance) >= RecoveryTimeout(s.cc)
                ==> u.fates == s.fates + [Skipped, Released] && JustAcked(u, s.expected))
  {
    EarlyArrives(s, g, now1);
    var t := OnEvent(s, FromPeer(s.cfg, s.expected + 1, g), now1).0;
    if Idle(s, now2) { LateAfterIdle(s, t, f, g, now2); } else { LateInTime(s, t, f, g, now2); }
  }
}
