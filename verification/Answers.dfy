/**
 How an endpoint answers: which frame a tick resends, what a frame beyond a gap makes
 the receiver ask for, what a request makes the sender resend, and what any tick or
 arrival can do to the sending side.
 */
module Answers {
  import opened Basics
  import opened Wire
  import opened Congestion
  import opened Endpoint
  import opened EndpointInvariants
  import opened EndpointSteps
  import opened EndpointEvents
  import opened EndpointDelivery
  import opened Retransmission
  import CongestionProofs

  // ---------- The oldest frame still to be delivered goes out ----------

  /** `h[i]` is the oldest frame a tick may resend. */
  ghost predicate Oldest(h: seq<SentFrame>, i: nat) {
    i < |h| && h[i].isRetransmittable && forall j :: 0 <= j < i ==> !h[j].isRetransmittable
  }

  ghost predicate Sent(txs: seq<Tx>, d: Datagram) {
    exists k :: 0 <= k < |txs| && txs[k].d == d
  }

  lemma SentConcat(a: seq<Tx>, b: seq<Tx>, d: Datagram)
    requires Sent(a, d) || Sent(b, d)
    ensures Sent(a + b, d)
  {
    if Sent(a, d) {
      var k :| 0 <= k < |a| && a[k].d == d;
      assert (a + b)[k].d == d;
    } else {
      var k :| 0 <= k < |b| && b[k].d == d;
      assert (a + b)[|a| + k].d == d;
    }
  }

  lemma {:induction false} NoneDue(h: seq<SentFrame>, n: nat, base: nat, now: int)
    requires n <= |h| && forall j :: 0 <= j < n ==> !h[j].isRetransmittable
    ensures DueCount(h[..n], base, now) == 0
  {
    if n > 0 {
      assert h[..n][..n - 1] == h[..n - 1];
      NoneDue(h, n - 1, base, now);
    }
  }

  lemma {:induction false} ChosenIsSent(h: seq<SentFrame>, n: nat, i: nat, budget: nat, base: nat, now: int)
    requires i < n <= |h| && Chosen(h, i, budget, base, now)
    ensures Sent(AllSends(ResendActions(h, n, budget, base, now), now), h[i].bytes)
  {
    var front := ResendActions(h, n - 1, budget, base, now);
    var last := if Chosen(h, n - 1, budget, base, now) then [SendDatagram(h[n - 1].bytes)] else [];
    assert ResendActions(h, n, budget, base, now) == front + last;
    AllSendsConcat(front, last, now);
    if i < n - 1 {
      ChosenIsSent(h, n - 1, i, budget, base, now);
    } else {
      SingleAction(last[0], now);
      assert AllSends(last, now)[0].d == h[i].bytes;
    }
    SentConcat(AllSends(front, now), AllSends(last, now), h[i].bytes);
  }

  /** The oldest stays the oldest when only older frames, or none, are taken out. */
  lemma {:induction false} OldestLives(h: seq<SentFrame>, i: nat, grace: nat) returns (k: nat)
    requires Oldest(h, i) && h[i].retries <= grace
    ensures var r := Where(h, Living(grace)); Oldest(r, k) && r[k] == h[i]
  {
    var front, f := h[..|h| - 1], h[|h| - 1];
    if i < |h| - 1 {
      k := OldestLives(front, i, grace);
    } else {
      AllKept(front, Living(grace));
      k := i;
    }
  }

  /** A tick resends the oldest frame once it has been silent for eight seconds. */
  lemma TickSendsOldest(s: Endpoint, i: nat, now: int)
    requires Oldest(s.history, i) && s.history[i].retries <= Grace(s.cfg)
    requires Since(now, s.history[i].lastSent) >= MAX_EFFECTIVE_RTO
    requires s.ackPending ==> |s.history| < s.cfg.maxSentHistory
    ensures Sent(Sends(HandleTick(s, now).1.action, now), s.history[i].bytes)
  {
    var (a, ack) := BuildAckIfDue(s, now);
    assert s.history <= a.history;
    var base, budget := BaseRtoMs(a), a.cc.RetransmitBudget();
    CongestionProofs.BudgetBounded(a.cc);
    var k := OldestLives(a.history, i, Grace(a.cfg));
    var h := EvictZombies(a).history;
    NoneDue(h, k, base, now);
    ChosenIsSent(h, |h|, k, budget, base, now);
    var resends := Retransmit(a, now).1;
    CollateMeaning(OptionalSend(ack) + resends, now);
    AllSendsConcat(OptionalSend(ack), resends, now);
    SentConcat(AllSends(OptionalSend(ack), now), AllSends(resends, now), s.history[i].bytes);
  }

  lemma ResendHolds(h: seq<SentFrame>, f: SentFrame, budget: nat, base: nat, now: int)
    requires f in h
    ensures f.nonce in Nonces(AfterResend(h, budget, base, now))
  {
    var j :| 0 <= j < |h| && h[j] == f;
    assert AfterResend(h, budget, base, now)[j].nonce == f.nonce;
  }

  /** A frame the tick may not give up is still held after it. */
  lemma TickHolds(s: Endpoint, f: SentFrame, now: int)
    requires f in s.history && Living(Grace(s.cfg))(f)
    requires s.ackPending ==> |s.history| < s.cfg.maxSentHistory
    ensures f.nonce in Nonces(HandleTick(s, now).0.history)
  {
    var a := BuildAckIfDue(s, now).0;
    assert s.history <= a.history && a.cfg == s.cfg;
    var j :| 0 <= j < |s.history| && s.history[j] == f;
    assert a.history[j] == f;
    WhereHolds(a.history, Living(Grace(a.cfg)), f);
    ResendHolds(EvictZombies(a).history, f, a.cc.RetransmitBudget(), BaseRtoMs(a), now);
  }

  // ---------- The receiver takes it, or asks for what is missing ----------

  lemma RecoveryAdvances(s: Endpoint, now: int)
    requires Inv(s)
    ensures RecoverStalledGap(s, now) == (s, []) || RecoverStalledGap(s, now).0.expected > s.expected
  {
    if Stalled(s, now) {
      var least := Least(s.reorder.Keys);
      assert least in s.reorder;
    }
  }

  lemma InOrderAdvances(s: Endpoint, action: Action, sends: seq<Action>, now: int)
    ensures Sequence(s, s.expected, action, sends, now).0.expected > s.expected
  {
  }

  /** Once recovery has advanced the sequence, the rest of the call does not take it back. */
  lemma RecoveredStays(s: Endpoint, d: Datagram, now: int)
    requires Inv(s) && Headroom(s)
    ensures HandleData(s, d, now).0.expected >= RecoverStalledGap(s, now).0.expected
  {
    RecoveredWithin(s, now);
    FrameStep(RecoverStalledGap(s, now).0, d, now);
  }

  /** `d` reaches this endpoint's data handling as `f`. */
  ghost predicate Carries(s: Endpoint, d: Datagram, f: Frame) {
    d.Datagram? && d.sid == s.cfg.sid && Decrypt(s.cfg.recvKey, d.nonce, s.cfg.sid, d.body) == Some(f)
  }

  /** The frame the sequence waits for advances it. */
  lemma ExpectedAdvances(s: Endpoint, d: Datagram, f: Frame, now: int)
    requires Inv(s) && Headroom(s) && s.state == Established && Carries(s, d, f) && !TruncatedAck(f)
    requires d.nonce == s.expected
    ensures OnEvent(s, Inbound(d), now).0.expected > s.expected
  {
    RecoveryAdvances(s, now);
    RecoveredStays(s, d, now);
    if RecoverStalledGap(s, now) == (s, []) {
      AuthenticatedStep(s, d, f, now);
      var (a, sends) := OnAuthenticated(s, d.nonce, f, now);
      InOrderAdvances(AfterKind(a, f.kind), ActionOf(f), sends.value, now);
    }
  }

  /** The receiver's request for nonce `n`, sealed under its next nonce. */
  function Request(s: Endpoint): Datagram {
    Seal(s.cfg, s.sendNonce, NackFrame(s.expected))
  }

  /** Datagrams under nonces below `q`. */
  ghost predicate Old(txs: seq<Tx>, q: nat) {
    forall k :: 0 <= k < |txs| ==> txs[k].d.Datagram? && txs[k].d.nonce < q
  }

  /** `d` goes out, and before it only datagrams under nonces below `q`. */
  ghost predicate SentFirst(txs: seq<Tx>, d: Datagram, q: nat) {
    exists k :: 0 <= k < |txs| && txs[k].d == d && Old(txs[..k], q)
  }

  lemma SentAfterOld(before: seq<Tx>, d: Datagram, now: int, rest: seq<Tx>, q: nat)
    requires Old(before, q)
    ensures SentFirst(before + [Tx(d, now)] + rest, d, q)
  {
    var txs := before + [Tx(d, now)] + rest;
    assert txs[..|before|] == before && txs[|before|].d == d;
  }

  /** Still at the gap, and the request is out. */
  ghost predicate Asked(s: Endpoint, t: Endpoint, out: Outcome, now: int) {
    && t.expected == s.expected && t.state == Established && t.sendNonce <= s.sendNonce + 2
    && out.Ok? && SentFirst(Sends(out.action, now), Request(s), s.sendNonce)
  }

  lemma DueNack(s: Endpoint, now: int)
    requires Since(now, s.lastNackSent) >= NackCooldown(s.cc)
    ensures var (m, nacks) := NackIfDue(s, now);
            && nacks == [SendDatagram(Request(s))]
            && m.expected == s.expected && m.state == s.state && m.sendNonce == s.sendNonce + 1
  {
  }

  lemma AckPlace(s: Endpoint, now: int)
    ensures var t := BuildAckIfDue(s, now).0;
            t.expected == s.expected && t.state == s.state && t.sendNonce <= s.sendNonce + 1
  {
  }

  lemma RequestGoes(s: Endpoint, sends: seq<Action>, nacks: seq<Action>, rest: seq<Action>, now: int)
    requires Old(AllSends(sends, now), s.sendNonce) && nacks == [SendDatagram(Request(s))]
    ensures SentFirst(Sends(Collate(sends + nacks + rest), now), Request(s), s.sendNonce)
  {
    ThreeSends(sends, nacks, rest, now);
    SingleAction(nacks[0], now);
    SentAfterOld(AllSends(sends, now), Request(s), now, AllSends(rest, now), s.sendNonce);
  }

  lemma GapAsks(s: Endpoint, nonce: nat, action: Action, sends: seq<Action>, now: int)
    requires s.expected != nonce && Since(now, s.lastNackSent) >= NackCooldown(s.cc) && s.state == Established
    requires Old(AllSends(sends, now), s.sendNonce)
    ensures var (t, out) := Sequence(s, nonce, action, sends, now); Asked(s, t, out, now)
  {
    var b := Inserted(s, nonce, action);
    DueNack(b, now);
    var (m, nacks) := NackIfDue(b, now);
    AckPlace(m, now);
    RequestGoes(s, sends, nacks, OptionalSend(BuildAckIfDue(m, now).1), now);
  }

  lemma BeyondWindowAsks(s: Endpoint, d: Datagram, now: int)
    requires d.Datagram? && d.nonce > s.expected + s.cfg.maxReorder && s.state == Established
    ensures var (t, out) := HandleFrame(s, d, now); Asked(s, t, out, now)
  {
    SentAfterOld([], Request(s), now, [], s.sendNonce);
    assert [] + [Tx(Request(s), now)] + [] == [Tx(Request(s), now)];
  }

  /** The state in which an authentic frame is sequenced. */
  function Heard(s: Endpoint, nonce: nat, f: Frame, now: int): Endpoint {
    AfterKind(OnAuthenticated(s, nonce, f, now).0, f.kind)
  }

  /** Its own kind may already have sent something: the stored answer to a NACK. */
  lemma AnswersAreOld(s: Endpoint, nonce: nat, f: Frame, now: int)
    requires SendInv(s)
    ensures var sends := OnAuthenticated(s, nonce, f, now).1; sends.Some? ==> Old(AllSends(sends.value, now), s.sendNonce)
  {
    if f.kind == Nack && |f.payload| >= 8 {
      var sends := OnNack(Noted(s, nonce), f.payload, now).1;
      NackCharges(Noted(s, nonce), f.payload, now);
      if sends != [] { SingleAction(sends[0], now); }
    }
  }

  lemma HeardIsPlaced(s: Endpoint, nonce: nat, f: Frame, now: int)
    requires s.state == Established && f.kind != Close
    ensures var b := Heard(s, nonce, f, now);
            && b.state == Established && b.expected == s.expected && b.sendNonce == s.sendNonce && b.cfg == s.cfg
            && b.lastNackSent == s.lastNackSent
  {
  }

  lemma OpenedIsSequenced(s: Endpoint, d: Datagram, f: Frame, now: int)
    requires Carries(s, d, f) && InWindow(s, d) && !TruncatedAck(f)
    ensures OnAuthenticated(s, d.nonce, f, now).1.Some?
    ensures HandleFrame(s, d, now)
            == Sequence(Heard(s, d.nonce, f, now), d.nonce, ActionOf(f), OnAuthenticated(s, d.nonce, f, now).1.value, now)
  {
  }

  lemma FrameAsks(s: Endpoint, d: Datagram, f: Frame, now: int)
    requires SendInv(s) && s.state == Established && Carries(s, d, f) && f.kind != Close && !TruncatedAck(f)
    requires d.nonce > s.expected && Since(now, s.lastNackSent) >= NackCooldown(Heard(s, d.nonce, f, now).cc)
    ensures var (t, out) := HandleFrame(s, d, now); Asked(s, t, out, now)
  {
    if d.nonce > s.expected + s.cfg.maxReorder {
      BeyondWindowAsks(s, d, now);
    } else {
      OpenedIsSequenced(s, d, f, now);
      HeardIsPlaced(s, d.nonce, f, now);
      AnswersAreOld(s, d.nonce, f, now);
      WindowAsks(s, Heard(s, d.nonce, f, now), d.nonce, ActionOf(f), OnAuthenticated(s, d.nonce, f, now).1.value, now);
    }
  }

  lemma WindowAsks(s: Endpoint, b: Endpoint, nonce: nat, action: Action, sends: seq<Action>, now: int)
    requires nonce > s.expected && Since(now, s.lastNackSent) >= NackCooldown(b.cc)
    requires b.state == Established && b.expected == s.expected && b.sendNonce == s.sendNonce && b.cfg == s.cfg
    requires b.lastNackSent == s.lastNackSent && Old(AllSends(sends, now), s.sendNonce)
    ensures var (t, out) := Sequence(b, nonce, action, sends, now); Asked(s, t, out, now)
  {
    GapAsks(b, nonce, action, sends, now);
    assert Request(b) == Request(s);
  }

  /** A frame at or beyond the gap closes it or makes the receiver ask for the missing one. */
  lemma BeyondAnswered(s: Endpoint, d: Datagram, f: Frame, now: int)
    requires Inv(s) && Headroom(s) && s.state == Established && Carries(s, d, f) && f.kind != Close && !TruncatedAck(f)
    requires d.nonce >= s.expected && Since(now, s.lastNackSent) >= NackCooldown(Heard(s, d.nonce, f, now).cc)
    ensures var (t, out) := OnEvent(s, Inbound(d), now); t.expected > s.expected || Asked(s, t, out, now)
  {
    RecoveryAdvances(s, now);
    RecoveredStays(s, d, now);
    if d.nonce == s.expected {
      ExpectedAdvances(s, d, f, now);
    } else if RecoverStalledGap(s, now) == (s, []) {
      FrameAsks(s, d, f, now);
      assert OnEvent(s, Inbound(d), now) == HandleFrame(s, d, now);
    }
  }

  // ---------- The sender answers ----------

  lemma RequestReads(n: nat)
    requires n <= U64_MAX
    ensures var f := NackFrame(n); |f.payload| == 8 && FromBe(f.payload[..8]) == n
  {
    U64RoundTrip(n);
    assert U64Bytes(n)[..8] == U64Bytes(n);
  }

  /** What is already to be sent leaves with whatever sequencing the frame adds. */
  lemma SequencingSends(s: Endpoint, nonce: nat, f: Frame, sends: seq<Action>, d: Datagram, now: int)
    requires Inv(s) && s.expected <= nonce <= s.expected + s.cfg.maxReorder && Within(s, U64_MAX) && nonce < U64_MAX
    requires sends == [SendDatagram(d)]
    ensures var out := Sequence(s, nonce, ActionOf(f), sends, now).1; out.Ok? && Sent(Sends(out.action, now), d)
  {
    var txs := SequenceStep(s, nonce, f, sends, now);
    SingleAction(sends[0], now);
    assert AllSends(sends, now)[0].d == d;
    SentConcat(AllSends(sends, now), txs, d);
  }

  lemma NackFinds(s: Endpoint, payload: Bytes, n: nat, now: int)
    requires SendInv(s) && |payload| >= 8 && FromBe(payload[..8]) == n && n in Nonces(s.history) && n < |s.sealed|
    ensures OnNack(s, payload, now).1 == [SendDatagram(Seal(s.cfg, n, s.sealed[n]))]
  {
    NackCharges(s, payload, now);
  }

  /** A NACK in the window is answered with the stored bytes of the frame it names. */
  lemma NackFrameAnswered(s: Endpoint, d: Datagram, n: nat, now: int)
    requires Inv(s) && Within(s, U64_MAX) && InWindow(s, d) && d.nonce < U64_MAX && Carries(s, d, NackFrame(n))
    requires n in Nonces(s.history) && n <= U64_MAX && n < |s.sealed|
    ensures var (t, out) := HandleFrame(s, d, now); out.Ok? && Sent(Sends(out.action, now), Seal(s.cfg, n, s.sealed[n]))
  {
    var f := NackFrame(n);
    RequestReads(n);
    AuthenticatedStep(s, d, f, now);
    NackFinds(Noted(s, d.nonce), f.payload, n, now);
    var (a, sends) := OnAuthenticated(s, d.nonce, f, now);
    var b := AfterKind(a, Nack);
    QuietStep(a, b);
    SequencingSends(b, d.nonce, f, sends.value, Seal(s.cfg, n, s.sealed[n]), now);
  }

  lemma TickKeepsPlace(s: Endpoint, now: int)
    ensures var t := HandleTick(s, now).0;
            && t.sendNonce <= s.sendNonce + 1 && t.expected == s.expected && t.state == s.state && t.cfg == s.cfg
            && t.reorder == s.reorder && t.lastNackSent == s.lastNackSent
  {
  }

  // ---------- What ticks and arrivals do to the sending side ----------

  /** The same frame, possibly sent again at `now`. */
  ghost predicate SameFrame(f: SentFrame, g: SentFrame, now: int) {
    && g.nonce == f.nonce && g.isRetransmittable == f.isRetransmittable
    && (g.lastSent == f.lastSent || g.lastSent == now)
  }

  /** One of `h`, or new and carrying no data. */
  ghost predicate Known(h: seq<SentFrame>, next: nat, g: SentFrame, now: int) {
    (g.nonce >= next && !g.isRetransmittable) || exists j :: 0 <= j < |h| && SameFrame(h[j], g, now)
  }

  ghost predicate OnlyKnown(h: seq<SentFrame>, next: nat, r: seq<SentFrame>, now: int) {
    forall i :: 0 <= i < |r| ==> Known(h, next, r[i], now)
  }

  /** What this endpoint sealed since are requests and acknowledgements. */
  ghost predicate OnlyControl(s: Endpoint, t: Endpoint) {
    && s.sealed <= t.sealed
    && forall k :: |s.sealed| <= k < |t.sealed| ==> t.sealed[k].kind == Ack || t.sealed[k].kind == Nack
  }

  /** The sending side after ticks and arrivals at `now`. */
  ghost predicate Follows(s: Endpoint, t: Endpoint, now: int) {
    t.cfg == s.cfg && s.sendNonce <= t.sendNonce && OnlyControl(s, t) && OnlyKnown(s.history, s.sendNonce, t.history, now)
  }

  lemma FollowsSame(s: Endpoint, t: Endpoint, now: int)
    requires SameSend(s, t)
    ensures Follows(s, t, now)
  {
    forall i | 0 <= i < |t.history|
      ensures Known(s.history, s.sendNonce, t.history[i], now)
    {
      assert SameFrame(s.history[i], t.history[i], now);
    }
  }

  lemma KnownTransitive(h: seq<SentFrame>, n: nat, r: seq<SentFrame>, m: nat, g: SentFrame, now: int)
    requires OnlyKnown(h, n, r, now) && Known(r, m, g, now) && n <= m
    ensures Known(h, n, g, now)
  {
    if !(g.nonce >= m && !g.isRetransmittable) {
      var j :| 0 <= j < |r| && SameFrame(r[j], g, now);
      assert Known(h, n, r[j], now);
      if !(r[j].nonce >= n && !r[j].isRetransmittable) {
        var k :| 0 <= k < |h| && SameFrame(h[k], r[j], now);
        assert SameFrame(h[k], g, now);
      }
    }
  }

  lemma FollowsTransitive(s: Endpoint, t: Endpoint, u: Endpoint, now: int)
    requires Follows(s, t, now) && Follows(t, u, now)
    ensures Follows(s, u, now)
  {
    forall i | 0 <= i < |u.history|
      ensures Known(s.history, s.sendNonce, u.history[i], now)
    {
      KnownTransitive(s.history, s.sendNonce, t.history, t.sendNonce, u.history[i], now);
    }
  }

  lemma BuildFollows(s: Endpoint, f: Frame, now: int)
    requires f.kind == Ack || f.kind == Nack
    ensures Follows(s, Build(s, f, false, now).0, now)
  {
    var (t, d) := Build(s, f, false, now);
    var full := s.history + [SentFrame(s.sendNonce, d, now, 0, false)];
    var k := Overflow(full, s.cfg.maxSentHistory);
    forall i | 0 <= i < |t.history|
      ensures Known(s.history, s.sendNonce, t.history[i], now)
    {
      assert t.history[i] == full[k + i];
      if k + i < |s.history| { assert SameFrame(s.history[k + i], t.history[i], now); }
    }
  }

  lemma ForceAckFollows(s: Endpoint, now: int)
    ensures Follows(s, ForceBuildAck(s, now).0, now)
  {
    var payload := BuildAckPayload(s);
    if payload == [] {
      FollowsSame(s, ForceBuildAck(s, now).0, now);
    } else {
      BuildFollows(s, Frame(Ack, 0, payload), now);
    }
  }

  lemma AckFollows(s: Endpoint, now: int)
    ensures Follows(s, BuildAckIfDue(s, now).0, now)
  {
    FollowsSame(s, s, now);
    ForceAckFollows(s, now);
  }

  lemma NackIfDueFollows(s: Endpoint, now: int)
    ensures Follows(s, NackIfDue(s, now).0, now)
  {
    FollowsSame(s, s, now);
    var c := s.(lastNackSent := now);
    FollowsSame(s, c, now);
    BuildFollows(c, NackFrame(c.expected), now);
    FollowsTransitive(s, c, Build(c, NackFrame(c.expected), false, now).0, now);
  }

  lemma OnNackFollows(s: Endpoint, payload: Bytes, now: int)
    requires |payload| >= 8
    ensures Follows(s, OnNack(s, payload, now).0, now)
  {
    var t := OnNack(s, payload, now).0;
    forall i | 0 <= i < |t.history|
      ensures Known(s.history, s.sendNonce, t.history[i], now)
    {
      assert SameFrame(s.history[i], t.history[i], now);
    }
  }

  lemma {:induction false} WhereMember(h: seq<SentFrame>, p: SentFrame -> bool, i: nat)
    requires i < |Where(h, p)|
    ensures Where(h, p)[i] in h
  {
    if i < |Where(h[..|h| - 1], p)| { WhereMember(h[..|h| - 1], p, i); }
  }

  lemma WhereFollows(s: Endpoint, t: Endpoint, p: SentFrame -> bool, now: int)
    requires t.cfg == s.cfg && t.sendNonce == s.sendNonce && t.sealed == s.sealed && t.history == Where(s.history, p)
    ensures Follows(s, t, now)
  {
    forall i | 0 <= i < |t.history|
      ensures Known(s.history, s.sendNonce, t.history[i], now)
    {
      WhereMember(s.history, p, i);
      var j :| 0 <= j < |s.history| && s.history[j] == t.history[i];
      assert SameFrame(s.history[j], t.history[i], now);
    }
  }

  lemma RetransmitFollows(s: Endpoint, now: int)
    ensures Follows(s, Retransmit(s, now).0, now)
  {
    var m, t := EvictZombies(s), Retransmit(s, now).0;
    WhereFollows(s, m, Living(Grace(s.cfg)), now);
    forall i | 0 <= i < |t.history|
      ensures Known(m.history, m.sendNonce, t.history[i], now)
    {
      assert SameFrame(m.history[i], t.history[i], now);
    }
    FollowsTransitive(s, m, t, now);
  }

  lemma TickFollows(s: Endpoint, now: int)
    ensures Follows(s, HandleTick(s, now).0, now)
  {
    AckFollows(s, now);
    var a := BuildAckIfDue(s, now).0;
    RetransmitFollows(a, now);
    FollowsTransitive(s, a, HandleTick(s, now).0, now);
  }

  lemma RecoverFollows(s: Endpoint, now: int)
    ensures Follows(s, RecoverStalledGap(s, now).0, now)
    ensures RecoverStalledGap(s, now).0.state == s.state
  {
    FollowsSame(s, RecoverStalledGap(s, now).0, now);
  }

  lemma AuthenticatedFollows(s: Endpoint, nonce: nat, f: Frame, now: int)
    ensures Follows(s, OnAuthenticated(s, nonce, f, now).0, now)
    ensures OnAuthenticated(s, nonce, f, now).0.state == s.state
  {
    var a := Noted(s, nonce);
    FollowsSame(s, a, now);
    if f.kind == Nack && |f.payload| >= 8 {
      OnNackFollows(a, f.payload, now);
      FollowsTransitive(s, a, OnNack(a, f.payload, now).0, now);
    } else if f.kind == Ack && ParseAck(f.payload).Some? {
      var ranges := ParseAck(f.payload).value;
      WhereFollows(a, DropAckedFrames(a, ranges, now), NotNamed(ranges), now);
      FollowsTransitive(s, a, DropAckedFrames(a, ranges, now), now);
    }
  }

  lemma SequenceFollows(s: Endpoint, nonce: nat, action: Action, sends: seq<Action>, now: int)
    ensures Follows(s, Sequence(s, nonce, action, sends, now).0, now)
    ensures Sequence(s, nonce, action, sends, now).0.state == s.state
  {
    var m := if nonce == s.expected then AcceptInOrder(s, action, now).0 else BufferBeyondGap(s, nonce, action, now).0;
    if nonce == s.expected {
      FollowsSame(s, m, now);
    } else {
      var b := Inserted(s, nonce, action);
      FollowsSame(s, b, now);
      NackIfDueFollows(b, now);
      FollowsTransitive(s, b, m, now);
    }
    AckFollows(m, now);
    FollowsTransitive(s, m, BuildAckIfDue(m, now).0, now);
  }

  /** No frame among these closes the session. */
  ghost predicate NoClose(frames: seq<Frame>) {
    forall k :: 0 <= k < |frames| ==> frames[k].kind != Close
  }

  lemma FrameFollows(s: Endpoint, d: Datagram, now: int)
    ensures var t := HandleFrame(s, d, now).0;
            && Follows(s, t, now)
            && (Opened(s, d).None? || Opened(s, d).value.kind != Close ==> t.state == s.state)
  {
    FollowsSame(s, s, now);
    if d.Datagram? {
      if d.nonce < s.expected {
        ForceAckFollows(s, now);
      } else if d.nonce > s.expected + s.cfg.maxReorder {
        BuildFollows(s, NackFrame(s.expected), now);
      } else if Opened(s, d).Some? {
        OpenedFollows(s, d, Opened(s, d).value, now);
      }
    }
  }

  lemma OpenedFollows(s: Endpoint, d: Datagram, f: Frame, now: int)
    requires Opened(s, d) == Some(f)
    ensures var t := HandleFrame(s, d, now).0; Follows(s, t, now) && (f.kind != Close ==> t.state == s.state)
  {
    AuthenticatedFollows(s, d.nonce, f, now);
    var (a, sends) := OnAuthenticated(s, d.nonce, f, now);
    if sends.Some? {
      var b := AfterKind(a, f.kind);
      FollowsSame(a, b, now);
      FollowsTransitive(s, a, b, now);
      SequenceFollows(b, d.nonce, ActionOf(f), sends.value, now);
      FollowsTransitive(s, b, HandleFrame(s, d, now).0, now);
    }
  }

  /** Any tick or arrival, whatever its effect on the session's state. */
  lemma AnyEventFollows(s: Endpoint, e: Event, now: int)
    requires e.Tick? || e.Inbound?
    ensures Follows(s, OnEvent(s, e, now).0, now)
  {
    FollowsSame(s, s, now);
    if s.state != Closed && e.Tick? {
      TickFollows(s, now);
    } else if s.state == Established && e.Inbound? {
      var d := e.datagram;
      if !d.Runt? && d.sid == s.cfg.sid {
        RecoverFollows(s, now);
        var r := RecoverStalledGap(s, now).0;
        FrameFollows(r, d, now);
        FollowsTransitive(s, r, HandleFrame(r, d, now).0, now);
      }
    }
  }

  /** A tick, or an arrival that is not a Close, leaves the session open. */
  lemma StaysOpen(s: Endpoint, e: Event, now: int)
    requires s.state == Established && (e.Tick? || e.Inbound?)
    requires e.Inbound? && e.datagram.Datagram? ==>
               var f := Decrypt(s.cfg.recvKey, e.datagram.nonce, s.cfg.sid, e.datagram.body);
               f.None? || f.value.kind != Close
    ensures OnEvent(s, e, now).0.state == Established
  {
    if e.Tick? {
      TickKeepsPlace(s, now);
    } else {
      RecoverFollows(s, now);
      FrameFollows(RecoverStalledGap(s, now).0, e.datagram, now);
    }
  }

  // ---------- When a request was last sent ----------

  ghost predicate StampedAt(s: Endpoint, t: Endpoint, now: int) {
    t.lastNackSent == s.lastNackSent || t.lastNackSent == now
  }

  lemma SequenceStamps(s: Endpoint, nonce: nat, action: Action, sends: seq<Action>, now: int)
    ensures var t := Sequence(s, nonce, action, sends, now).0;
            StampedAt(s, t, now) && (Since(now, s.lastNackSent) < NackCooldown(s.cc) ==> t.lastNackSent == s.lastNackSent)
  {
    if nonce != s.expected { assert Inserted(s, nonce, action).lastNackSent == s.lastNackSent; }
  }

  lemma FrameStamps(s: Endpoint, d: Datagram, now: int)
    ensures StampedAt(s, HandleFrame(s, d, now).0, now)
  {
    if Opened(s, d).Some? {
      var f := Opened(s, d).value;
      var (a, sends) := OnAuthenticated(s, d.nonce, f, now);
      assert a.lastNackSent == s.lastNackSent;
      if sends.Some? { SequenceStamps(AfterKind(a, f.kind), d.nonce, ActionOf(f), sends.value, now); }
    }
  }

  lemma EventStamps(s: Endpoint, e: Event, now: int)
    requires e.Tick? || e.Inbound?
    ensures StampedAt(s, OnEvent(s, e, now).0, now)
  {
    if s.state != Closed && e.Tick? {
      TickKeepsPlace(s, now);
    } else if s.state == Established && e.Inbound? {
      var r := RecoverStalledGap(s, now).0;
      assert r.lastNackSent == s.lastNackSent;
      FrameStamps(r, e.datagram, now);
    }
  }

  lemma CooldownIsShort(c: Controller)
    ensures NackCooldown(c) <= MAX_EFFECTIVE_RTO
  {
  }

  /** `d` is not from the peer, or is a frame of its that neither closes the session nor fails the call. */
  ghost predicate Harmless(s: Endpoint, d: Datagram) {
    d.Datagram? ==>
      var f := Decrypt(s.cfg.recvKey, d.nonce, s.cfg.sid, d.body);
      f.Some? ==> f.value.kind != Close && !TruncatedAck(f.value)
  }

  lemma HeardKeepsStamp(s: Endpoint, nonce: nat, f: Frame, now: int)
    ensures var b := Heard(s, nonce, f, now); b.lastNackSent == s.lastNackSent && b.expected == s.expected
  {
  }

  lemma OpenedKeepsStamp(s: Endpoint, d: Datagram, f: Frame, now: int)
    requires Carries(s, d, f) && InWindow(s, d) && !TruncatedAck(f)
    requires d.nonce > s.expected ==> Since(now, s.lastNackSent) < NackCooldown(Heard(s, d.nonce, f, now).cc)
    ensures var t := HandleFrame(s, d, now).0; t.expected > s.expected || t.lastNackSent == s.lastNackSent
  {
    OpenedIsSequenced(s, d, f, now);
    HeardKeepsStamp(s, d.nonce, f, now);
    var b, sends := Heard(s, d.nonce, f, now), OnAuthenticated(s, d.nonce, f, now).1.value;
    if d.nonce == s.expected {
      InOrderAdvances(b, ActionOf(f), sends, now);
    } else {
      SequenceStamps(b, d.nonce, ActionOf(f), sends, now);
    }
  }

  lemma UnopenedKeepsStamp(s: Endpoint, d: Datagram, now: int)
    requires Opened(s, d).None?
    ensures HandleFrame(s, d, now).0.lastNackSent == s.lastNackSent
  {
  }

  lemma QuietFrameKeepsStamp(s: Endpoint, d: Datagram, now: int)
    requires Harmless(s, d) && (d.Datagram? ==> d.sid == s.cfg.sid)
    requires InWindow(s, d) && d.nonce > s.expected && Opened(s, d).Some?
             ==> Since(now, s.lastNackSent) < NackCooldown(Heard(s, d.nonce, Opened(s, d).value, now).cc)
    ensures var t := HandleFrame(s, d, now).0; t.expected > s.expected || t.lastNackSent == s.lastNackSent
  {
    if Opened(s, d).Some? {
      OpenedKeepsStamp(s, d, Opened(s, d).value, now);
    } else {
      UnopenedKeepsStamp(s, d, now);
    }
  }

  /** An arrival closes the gap, leaves the request timer alone, or makes the receiver ask. */
  lemma StampAsks(s: Endpoint, d: Datagram, now: int)
    requires Inv(s) && Headroom(s) && s.state == Established && Harmless(s, d)
    ensures var (t, out) := OnEvent(s, Inbound(d), now);
            t.expected > s.expected || t.lastNackSent == s.lastNackSent || Asked(s, t, out, now)
  {
    RecoveryAdvances(s, now);
    RecoveredStays(s, d, now);
    if !d.Runt? && d.sid == s.cfg.sid && RecoverStalledGap(s, now) == (s, []) {
      if Opened(s, d).Some? && d.nonce > s.expected
         && Since(now, s.lastNackSent) >= NackCooldown(Heard(s, d.nonce, Opened(s, d).value, now).cc) {
        BeyondAnswered(s, d, Opened(s, d).value, now);
      } else {
        QuietFrameKeepsStamp(s, d, now);
      }
    }
  }

  // ---------- Duplicates and what they bring about ----------

  /** The acknowledgement of everything held, under the next nonce. */
  function Acknowledgement(s: Endpoint): Datagram {
    Seal(s.cfg, s.sendNonce, Frame(Ack, 0, BuildAckPayload(s)))
  }

  /** An ACK payload that names every nonce below `n`. */
  ghost predicate NamesBelow(payload: Bytes, n: nat) {
    ParseAck(payload).Some? && forall m: nat :: m < n ==> InRanges(m, ParseAck(payload).value)
  }

  lemma AckNamesBelow(s: Endpoint)
    requires RecvInv(s) && Encodable(s) && s.expected > 0
    ensures BuildAckPayload(s) != [] && NamesBelow(BuildAckPayload(s), s.expected)
  {
    var keys := Sorted(s.reorder.Keys);
    forall i | 0 <= i < |keys|
      ensures s.expected < keys[i] <= U64_MAX
    {
      assert keys[i] in s.reorder.Keys;
    }
    AckIsTrue(s.expected, keys);
    var all, kept := AckRanges(s.expected, keys), Truncated(AckRanges(s.expected, keys));
    assert all[0] == Range(0, s.expected - 1);
    forall m: nat | m < s.expected
      ensures InRanges(m, kept)
    {
      assert kept[0].start <= m <= kept[0].end;
    }
  }

  /** A copy of something received is answered with an acknowledgement of everything below the gap. */
  lemma DuplicateAcked(s: Endpoint, d: Datagram, now: int)
    requires Inv(s) && Headroom(s) && s.state == Established && d.Datagram? && d.sid == s.cfg.sid && d.nonce < s.expected
    ensures NamesBelow(BuildAckPayload(s), s.expected)
    ensures var (t, out) := OnEvent(s, Inbound(d), now);
            t.expected > s.expected || (out.Ok? && SentFirst(Sends(out.action, now), Acknowledgement(s), s.sendNonce))
  {
    HeadroomEncodes(s);
    AckNamesBelow(s);
    RecoveryAdvances(s, now);
    RecoveredStays(s, d, now);
    if RecoverStalledGap(s, now) == (s, []) {
      var ack := ForceBuildAck(s, now).1;
      assert ack == Some(Acknowledgement(s));
      assert HandleFrame(s, d, now).1 == Ok(Collate(OptionalSend(ack)));
      SentAfterOld([], Acknowledgement(s), now, [], s.sendNonce);
      assert [] + [Tx(Acknowledgement(s), now)] + [] == [Tx(Acknowledgement(s), now)];
    }
  }

  ghost predicate NoneBelow(h: seq<SentFrame>, n: nat) {
    forall i :: 0 <= i < |h| ==> h[i].nonce >= n
  }

  lemma FollowsKeepsAbove(s: Endpoint, t: Endpoint, n: nat, now: int)
    requires Follows(s, t, now) && NoneBelow(s.history, n) && n <= s.sendNonce
    ensures NoneBelow(t.history, n)
  {
    forall i | 0 <= i < |t.history|
      ensures t.history[i].nonce >= n
    {
      assert Known(s.history, s.sendNonce, t.history[i], now);
    }
  }

  lemma AckDrops(s: Endpoint, nonce: nat, f: Frame, n: nat, now: int)
    requires SendInv(s) && f.kind == Ack && NamesBelow(f.payload, n)
    ensures NoneBelow(OnAuthenticated(s, nonce, f, now).0.history, n)
  {
    var a := Noted(s, nonce);
    NamedLeave(a.history, ParseAck(f.payload).value);
    var left := OnAuthenticated(s, nonce, f, now).0.history;
    forall i | 0 <= i < |left|
      ensures left[i].nonce >= n
    {
      assert left[i] in left;
    }
  }

  /** An ACK in the window that names everything below `n` leaves no such frame in the history. */
  lemma AckHeard(s: Endpoint, d: Datagram, f: Frame, n: nat, now: int)
    requires Inv(s) && s.state == Established && Carries(s, d, f) && f.kind == Ack && NamesBelow(f.payload, n)
    requires InWindow(RecoverStalledGap(s, now).0, d) && n <= s.sendNonce
    ensures NoneBelow(OnEvent(s, Inbound(d), now).0.history, n)
  {
    RecoverStep(s, now);
    var r := RecoverStalledGap(s, now).0;
    OpenedIsSequenced(r, d, f, now);
    AckDrops(r, d.nonce, f, n, now);
    var b := Heard(r, d.nonce, f, now);
    AuthenticatedFollows(r, d.nonce, f, now);
    SequenceFollows(b, d.nonce, ActionOf(f), OnAuthenticated(r, d.nonce, f, now).1.value, now);
    FollowsKeepsAbove(b, HandleFrame(r, d, now).0, n, now);
  }
}
