/**
 What a tick does to unacknowledged frames, and that ticks alone empty the
 history: a frame is either retried within a bounded number of rounds or given up.
 */
module Retransmission {
  import opened Basics
  import opened Endpoint
  import opened EndpointInvariants
  import opened EndpointSteps
  import CongestionProofs
  import EndpointLoops

  /** Retries charged to frames still to be delivered. */
  function TotalRetries(h: seq<SentFrame>): nat {
    if h == [] then 0
    else TotalRetries(h[..|h| - 1]) + if h[|h| - 1].isRetransmittable then h[|h| - 1].retries else 0
  }

  /** Backoff never postpones a frame beyond eight seconds. */
  lemma SilentFramesAreDue(f: SentFrame, base: nat, now: int)
    requires f.isRetransmittable && Since(now, f.lastSent) >= MAX_EFFECTIVE_RTO
    ensures Due(f, base, now)
  {
  }

  /** Frames are served oldest first: a due frame before a chosen one is chosen too. */
  lemma {:induction false} OldestFirst(h: seq<SentFrame>, i: nat, j: nat, budget: nat, base: nat, now: int)
    requires i < j < |h| && Chosen(h, j, budget, base, now) && Due(h[i], base, now)
    ensures Chosen(h, i, budget, base, now)
  {
    EndpointLoops.DueCountMonotone(h, i, j, base, now);
  }

  /** As many frames go out as are due, up to the budget. */
  lemma {:induction false} ResentCount(h: seq<SentFrame>, n: nat, budget: nat, base: nat, now: int)
    requires n <= |h|
    ensures |ResendActions(h, n, budget, base, now)| == Min(budget, DueCount(h[..n], base, now))
  {
    if n == 0 {
      assert h[..0] == [];
    } else {
      ResentCount(h, n - 1, budget, base, now);
      assert h[..n][..n - 1] == h[..n - 1];
    }
  }

  /** A retry is charged exactly to each frame put on the wire. */
  lemma {:induction false} RetriesCharged(h: seq<SentFrame>, n: nat, budget: nat, base: nat, now: int)
    requires n <= |h|
    requires forall i :: 0 <= i < |h| && h[i].isRetransmittable ==> h[i].retries < U8_MAX
    ensures TotalRetries(AfterResend(h, budget, base, now)[..n])
            == TotalRetries(h[..n]) + |ResendActions(h, n, budget, base, now)|
  {
    var r := AfterResend(h, budget, base, now);
    if n == 0 {
      assert r[..0] == [] && h[..0] == [];
    } else {
      RetriesCharged(h, n - 1, budget, base, now);
      assert r[..n][..n - 1] == r[..n - 1] && h[..n][..n - 1] == h[..n - 1];
    }
  }

  /** `r` is `h` after `sent` resends went to exactly the first `budget` due frames. */
  ghost predicate FirstDueResent(h: seq<SentFrame>, r: seq<SentFrame>, sent: nat, budget: nat, base: nat, now: int) {
    && |r| == |h|
    && sent == Min(budget, DueCount(h, base, now))
    && (forall i :: 0 <= i < |h| ==> r[i] == if Chosen(h, i, budget, base, now) then Resent(h[i], now) else h[i])
    && (forall i, j :: 0 <= i < j < |h| && Chosen(h, j, budget, base, now) && Due(h[i], base, now)
          ==> Chosen(h, i, budget, base, now))
    && TotalRetries(r) == TotalRetries(h) + sent
  }

  lemma ResendRule(h: seq<SentFrame>, budget: nat, base: nat, now: int)
    requires forall i :: 0 <= i < |h| && h[i].isRetransmittable ==> h[i].retries < U8_MAX
    ensures FirstDueResent(h, AfterResend(h, budget, base, now), |ResendActions(h, |h|, budget, base, now)|, budget, base, now)
  {
    var r := AfterResend(h, budget, base, now);
    ResentCount(h, |h|, budget, base, now);
    RetriesCharged(h, |h|, budget, base, now);
    assert h[..|h|] == h && r[..|r|] == r;
    forall i, j | 0 <= i < j < |h| && Chosen(h, j, budget, base, now) && Due(h[i], base, now)
      ensures Chosen(h, i, budget, base, now)
    {
      OldestFirst(h, i, j, budget, base, now);
    }
  }

  /**
   The retransmit rule: after zombies leave, exactly the first `budget` due frames
   are resent and charged one retry each; every other frame is untouched.
   */
  lemma TickResendsFirstDue(s: Endpoint, now: int)
    requires Inv(s) && s.cfg.maxRetries + 2 < U8_MAX
    ensures var (t, resends) := Retransmit(s, now);
            && 2 <= s.cc.RetransmitBudget() <= 64
            && FirstDueResent(EvictZombies(s).history, t.history, |resends|, s.cc.RetransmitBudget(), BaseRtoMs(s), now)
  {
    CongestionProofs.BudgetBounded(s.cc);
    WhereKept(s.history, Living(Grace(s.cfg)));
    ResendRule(EvictZombies(s).history, s.cc.RetransmitBudget(), BaseRtoMs(s), now);
  }

  // ---------- Ticks empty the history ----------

  /** Rounds a frame can still claim before it is given up. */
  function Patience(f: SentFrame, grace: nat): nat {
    if f.isRetransmittable then Monus(grace + 2, f.retries) else 0
  }

  function TotalPatience(h: seq<SentFrame>, grace: nat): nat {
    if h == [] then 0 else TotalPatience(h[..|h| - 1], grace) + Patience(h[|h| - 1], grace)
  }

  ghost predicate Drained(h: seq<SentFrame>) {
    forall i :: 0 <= i < |h| ==> !h[i].isRetransmittable
  }

  /** Every frame still to be delivered has been silent for eight seconds. */
  ghost predicate AllSilent(h: seq<SentFrame>, now: int) {
    forall i :: 0 <= i < |h| && h[i].isRetransmittable ==> h[i].lastSent + MAX_EFFECTIVE_RTO <= now
  }

  ghost predicate RetriesBounded(h: seq<SentFrame>, bound: nat) {
    forall i :: 0 <= i < |h| && h[i].isRetransmittable ==> h[i].retries <= bound
  }

  lemma {:induction false} PatienceConcat(a: seq<SentFrame>, b: seq<SentFrame>, grace: nat)
    ensures TotalPatience(a + b, grace) == TotalPatience(a, grace) + TotalPatience(b, grace)
  {
    if b == [] {
      assert a + b == a;
    } else {
      assert (a + b)[..|a + b| - 1] == a + b[..|b| - 1];
      PatienceConcat(a, b[..|b| - 1], grace);
    }
  }

  lemma {:induction false} WherePatience(h: seq<SentFrame>, p: SentFrame -> bool, grace: nat)
    ensures TotalPatience(Where(h, p), grace) <= TotalPatience(h, grace)
  {
    if h != [] {
      var front, f := h[..|h| - 1], h[|h| - 1];
      WherePatience(front, p, grace);
      if p(f) {
        assert Where(h, p) == Where(front, p) + [f];
        assert Where(h, p)[..|Where(front, p)|] == Where(front, p);
      } else {
        assert Where(h, p) == Where(front, p);
      }
    }
  }

  /** Every frame of `t` still to be delivered is one of `h`. */
  ghost predicate NoneAdded(h: seq<SentFrame>, t: seq<SentFrame>) {
    forall i :: 0 <= i < |t| && t[i].isRetransmittable ==> t[i] in h
  }

  lemma NoneAddedKeeps(h: seq<SentFrame>, t: seq<SentFrame>, now: int)
    requires NoneAdded(h, t)
    ensures Drained(h) ==> Drained(t)
    ensures AllSilent(h, now) ==> AllSilent(t, now)
  {
  }

  lemma PushAddsNone(h: seq<SentFrame>, sent: SentFrame, k: nat, grace: nat)
    requires !sent.isRetransmittable && k <= |h| + 1
    ensures NoneAdded(h, (h + [sent])[k..])
    ensures TotalPatience((h + [sent])[k..], grace) <= TotalPatience(h, grace)
  {
    var full := h + [sent];
    assert full == full[..k] + full[k..];
    PatienceConcat(full[..k], full[k..], grace);
    PatienceConcat(h, [sent], grace);
    assert [sent][..0] == [];
    assert TotalPatience([sent], grace) == TotalPatience([], grace) + 0;
  }

  /** The tick's own ACK is no frame to be delivered, and pushing it only makes others leave. */
  lemma AckAddsNone(s: Endpoint, now: int, grace: nat)
    requires Inv(s) && Headroom(s)
    ensures var a := BuildAckIfDue(s, now).0;
            && Inv(a) && a.cc == s.cc && a.cfg == s.cfg
            && NoneAdded(s.history, a.history)
            && TotalPatience(a.history, grace) <= TotalPatience(s.history, grace)
  {
    HeadroomEncodes(s);
    AckIfDueStep(s, now);
    var (a, ack) := BuildAckIfDue(s, now);
    if ack.Some? {
      var sent := SentFrame(s.sendNonce, ack.value, now, 0, false);
      var k := Overflow(s.history + [sent], s.cfg.maxSentHistory);
      PushAddsNone(s.history, sent, k, grace);
      assert a.history == (s.history + [sent])[k..];
    }
  }

  lemma EvictAddsNone(a: Endpoint)
    requires Inv(a)
    ensures var h := EvictZombies(a).history;
            && NoneAdded(a.history, h) && RetriesBounded(h, Grace(a.cfg))
            && TotalPatience(h, Grace(a.cfg)) <= TotalPatience(a.history, Grace(a.cfg))
  {
    WhereKept(a.history, Living(Grace(a.cfg)));
    WherePatience(a.history, Living(Grace(a.cfg)), Grace(a.cfg));
  }

  lemma {:induction false} ResendUsesPatience(h: seq<SentFrame>, n: nat, budget: nat, base: nat, now: int, grace: nat)
    requires n <= |h| && grace < U8_MAX && RetriesBounded(h, grace)
    ensures TotalPatience(AfterResend(h, budget, base, now)[..n], grace) + |ResendActions(h, n, budget, base, now)|
            == TotalPatience(h[..n], grace)
  {
    var r := AfterResend(h, budget, base, now);
    if n == 0 {
      assert r[..0] == [] && h[..0] == [];
    } else {
      ResendUsesPatience(h, n - 1, budget, base, now, grace);
      assert r[..n][..n - 1] == r[..n - 1] && h[..n][..n - 1] == h[..n - 1];
    }
  }

  lemma {:induction false} SomeDue(h: seq<SentFrame>, n: nat, base: nat, now: int)
    requires n <= |h| && AllSilent(h, now) && exists i :: 0 <= i < n && h[i].isRetransmittable
    ensures DueCount(h[..n], base, now) >= 1
  {
    assert h[..n][..n - 1] == h[..n - 1];
    if h[n - 1].isRetransmittable {
      SilentFramesAreDue(h[n - 1], base, now);
    } else {
      SomeDue(h, n - 1, base, now);
    }
  }

  lemma {:induction false} PatienceAt(h: seq<SentFrame>, i: nat, grace: nat)
    requires i < |h|
    ensures Patience(h[i], grace) <= TotalPatience(h, grace)
  {
    if i < |h| - 1 { PatienceAt(h[..|h| - 1], i, grace); }
  }

  lemma ResendSpends(h: seq<SentFrame>, budget: nat, base: nat, now: int, grace: nat)
    requires grace < U8_MAX && RetriesBounded(h, grace) && AllSilent(h, now) && budget >= 1
    ensures var r := AfterResend(h, budget, base, now);
            && (Drained(r) || 1 <= TotalPatience(r, grace) < TotalPatience(h, grace))
            && AllSilent(r, now + MAX_EFFECTIVE_RTO)
  {
    var r := AfterResend(h, budget, base, now);
    ResendUsesPatience(h, |h|, budget, base, now, grace);
    ResentCount(h, |h|, budget, base, now);
    assert h[..|h|] == h && r[..|r|] == r;
    if !Drained(r) {
      var i :| 0 <= i < |r| && r[i].isRetransmittable;
      assert h[i].isRetransmittable;
      SomeDue(h, |h|, base, now);
      PatienceAt(r, i, grace);
    }
  }

  /** A tick on silent frames spends patience until none is left. */
  lemma TickSpendsPatience(s: Endpoint, now: int)
    requires Inv(s) && Headroom(s) && s.cfg.maxRetries + 2 < U8_MAX
    requires AllSilent(s.history, now)
    ensures var t, grace := HandleTick(s, now).0, Grace(s.cfg);
            && (Drained(t.history) || 1 <= TotalPatience(t.history, grace) < TotalPatience(s.history, grace))
            && AllSilent(t.history, now + MAX_EFFECTIVE_RTO)
  {
    var grace := Grace(s.cfg);
    AckAddsNone(s, now, grace);
    var a := BuildAckIfDue(s, now).0;
    NoneAddedKeeps(s.history, a.history, now);
    EvictAddsNone(a);
    var h := EvictZombies(a).history;
    NoneAddedKeeps(a.history, h, now);
    CongestionProofs.BudgetBounded(a.cc);
    ResendSpends(h, a.cc.RetransmitBudget(), BaseRtoMs(a), now, grace);
  }

  /** The endpoint after ticks at `times`, in order. */
  ghost function AfterTicks(s: Endpoint, times: seq<int>): Endpoint
    decreases |times|
  {
    if times == [] then s else AfterTicks(HandleTick(s, times[0]).0, times[1..])
  }

  ghost predicate Spaced(times: seq<int>) {
    forall i, j :: 0 <= i < j < |times| && j == i + 1 ==> times[i] + MAX_EFFECTIVE_RTO <= times[j]
  }

  ghost predicate HeadroomThroughout(s: Endpoint, times: seq<int>)
    decreases |times|
  {
    Headroom(s) && (times != [] ==> HeadroomThroughout(HandleTick(s, times[0]).0, times[1..]))
  }

  lemma DrainedStays(s: Endpoint, now: int)
    requires Inv(s) && Headroom(s) && Drained(s.history)
    ensures Drained(HandleTick(s, now).0.history)
  {
    AckAddsNone(s, now, Grace(s.cfg));
    var a := BuildAckIfDue(s, now).0;
    NoneAddedKeeps(s.history, a.history, now);
    EvictAddsNone(a);
    NoneAddedKeeps(a.history, EvictZombies(a).history, now);
  }

  /**
   With no ACK, send or path change, eight-second ticks empty the frames still to be
   delivered within as many rounds as they have patience.
   */
  lemma {:induction false} TicksDrainHistory(s: Endpoint, times: seq<int>)
    requires Inv(s) && HeadroomThroughout(s, times) && s.cfg.maxRetries + 2 < U8_MAX
    requires Spaced(times) && (times != [] ==> AllSilent(s.history, times[0]))
    requires Drained(s.history) || (times != [] && |times| >= TotalPatience(s.history, Grace(s.cfg)))
    ensures Drained(AfterTicks(s, times).history)
    decreases |times|
  {
    if times != [] {
      var now, rest := times[0], times[1..];
      var t := HandleTick(s, now).0;
      TickStep(s, now);
      TickSpendsPatience(s, now);
      if Drained(s.history) { DrainedStays(s, now); }
      assert forall i :: 0 <= i < |rest| ==> rest[i] == times[i + 1];
      if rest != [] {
        assert now + MAX_EFFECTIVE_RTO <= rest[0];
      }
      TicksDrainHistory(t, rest);
    }
  }

  // ---------- When the retry counter saturates ----------

  /** The same frames, however often each has been sent. */
  ghost predicate SameFrames(h: seq<SentFrame>, r: seq<SentFrame>) {
    && |r| == |h|
    && forall i :: 0 <= i < |h| ==>
         r[i].nonce == h[i].nonce && r[i].bytes == h[i].bytes && r[i].isRetransmittable == h[i].isRetransmittable
  }

  lemma {:induction false} AllKept(h: seq<SentFrame>, p: SentFrame -> bool)
    requires forall i :: 0 <= i < |h| ==> p(h[i])
    ensures Where(h, p) == h
  {
    if h != [] { AllKept(h[..|h| - 1], p); }
  }

  /** No retry count exceeds a grace of 255, so no frame is ever a zombie. */
  lemma SaturatedTickKeepsAll(s: Endpoint, now: int)
    requires s.cfg.maxRetries + 2 >= U8_MAX && !s.ackPending
    ensures var t := HandleTick(s, now).0;
            SameFrames(s.history, t.history) && t.cfg == s.cfg && !t.ackPending
  {
    AllKept(s.history, Living(Grace(s.cfg)));
  }

  /** With 253 retries or more, no number of ticks gives any frame up. */
  lemma {:induction false} SaturatedTicksKeepAll(s: Endpoint, times: seq<int>)
    requires s.cfg.maxRetries + 2 >= U8_MAX && !s.ackPending
    ensures SameFrames(s.history, AfterTicks(s, times).history)
    decreases |times|
  {
    if times != [] {
      SaturatedTickKeepsAll(s, times[0]);
      SaturatedTicksKeepAll(HandleTick(s, times[0]).0, times[1..]);
    }
  }

  function LatestSend(h: seq<SentFrame>): (at: int)
    ensures forall i :: 0 <= i < |h| ==> h[i].lastSent <= at
  {
    if h == [] then 0 else Max(LatestSend(h[..|h| - 1]), h[|h| - 1].lastSent)
  }

  /** `n` ticks, eight seconds apart. */
  function Rounds(start: int, n: nat): (times: seq<int>)
    ensures |times| == n && Spaced(times) && (n > 0 ==> times[0] == start)
  {
    seq(n, i => start + i * MAX_EFFECTIVE_RTO)
  }

  /** Ticks with no ACK pending seal nothing. */
  lemma {:induction false} QuietHeadroom(s: Endpoint, times: seq<int>)
    requires Headroom(s) && !s.ackPending
    ensures HeadroomThroughout(s, times)
    decreases |times|
  {
    if times != [] { QuietHeadroom(HandleTick(s, times[0]).0, times[1..]); }
  }

  ghost predicate DrainedBy(s: Endpoint, times: seq<int>) {
    Drained(AfterTicks(s, times).history)
  }

  lemma RoundsDrain(s: Endpoint) returns (times: seq<int>)
    requires Inv(s) && Headroom(s) && !s.ackPending && s.cfg.maxRetries + 2 < U8_MAX
    ensures DrainedBy(s, times)
  {
    times := Rounds(LatestSend(s.history) + MAX_EFFECTIVE_RTO, TotalPatience(s.history, Grace(s.cfg)) + 1);
    QuietHeadroom(s, times);
    TicksDrainHistory(s, times);
  }

  /**
   Ticks can empty the history of frames still to be delivered if and only if the
   retry limit leaves the counter room to pass it: from 253 retries on the counter
   saturates and an undeliverable frame is resent for ever.
   */
  lemma DrainableIff(s: Endpoint)
    requires Inv(s) && Headroom(s) && !s.ackPending && !Drained(s.history)
    ensures (exists times :: DrainedBy(s, times)) <==> s.cfg.maxRetries + 2 < U8_MAX
  {
    if s.cfg.maxRetries + 2 < U8_MAX {
      var times := RoundsDrain(s);
    } else {
      forall times
        ensures !DrainedBy(s, times)
      {
        SaturatedTicksKeepAll(s, times);
        var i :| 0 <= i < |s.history| && s.history[i].isRetransmittable;
        assert AfterTicks(s, times).history[i].isRetransmittable;
      }
    }
  }
}
