/**
 When an endpoint closes, which frames make it owe an acknowledgement, what its timers
 record, and what a path change brings about.
 */
module EndpointStates {
  import opened Basics
  import opened Wire
  import opened Congestion
  import opened Endpoint
  import opened EndpointInvariants
  import opened EndpointSteps
  import opened EndpointEvents
  import opened Answers
  import opened Submission
  import opened TwoEndpoints

  // ---------- Closing ----------

  /** `d` is, at this instant, the peer's Close. */
  predicate ClosedBy(s: Endpoint, d: Datagram, now: int) {
    && d.Datagram? && d.sid == s.cfg.sid
    && var f := Opened(RecoverStalledGap(s, now).0, d); f.Some? && f.value.kind == Close
  }

  lemma OpenedCloses(s: Endpoint, d: Datagram, f: Frame, now: int)
    requires Opened(s, d) == Some(f)
    ensures HandleFrame(s, d, now).0.state == if f.kind == Close then Closed else s.state
  {
    AuthenticatedFollows(s, d.nonce, f, now);
    var (a, sends) := OnAuthenticated(s, d.nonce, f, now);
    if sends.Some? {
      SequenceFollows(AfterKind(a, f.kind), d.nonce, ActionOf(f), sends.value, now);
    } else {
      assert f.kind == Ack;
    }
  }

  lemma UnopenedKeepsState(s: Endpoint, d: Datagram, now: int)
    requires Opened(s, d).None?
    ensures HandleFrame(s, d, now).0.state == s.state
  {
    FrameFollows(s, d, now);
  }

  lemma InboundState(s: Endpoint, d: Datagram, now: int)
    requires s.state == Established
    ensures OnEvent(s, Inbound(d), now).0.state == if ClosedBy(s, d, now) then Closed else Established
  {
    RecoverFollows(s, now);
    var r := RecoverStalledGap(s, now).0;
    if !d.Runt? && d.sid == s.cfg.sid {
      if Opened(r, d).Some? { OpenedCloses(r, d, Opened(r, d).value, now); } else { UnopenedKeepsState(r, d, now); }
    }
  }

  /** The whole of the state machine: shutdown starts closing and ends it, the peer's Close closes at once, nothing reopens. */
  lemma StateAfter(s: Endpoint, e: Event, now: int)
    ensures OnEvent(s, e, now).0.state
            == match s.state
               case Established =>
                 if e.Shutdown? then Closing
                 else if e.Inbound? && ClosedBy(s, e.datagram, now) then Closed
                 else Established
               case Closing => if e.Shutdown? then Closed else Closing
               case Closed => Closed
  {
    if s.state == Established && e.Inbound? {
      InboundState(s, e.datagram, now);
    } else if e.Tick? {
      TickKeepsPlace(s, now);
    }
  }

  /**
   A closing endpoint goes on as an open one does: its oldest frame, the Close in the
   end, is resent until it is acknowledged or worn out.
   */
  lemma ClosingStillResends(s: Endpoint, i: nat, now: int)
    requires s.state != Closed && Oldest(s.history, i) && s.history[i].retries <= Grace(s.cfg)
    requires Since(now, s.history[i].lastSent) >= MAX_EFFECTIVE_RTO && (s.ackPending ==> |s.history| < s.cfg.maxSentHistory)
    ensures var (t, result) := OnEvent(s, Tick, now); result.Ok? && Sent(Sends(result.action, now), s.history[i].bytes)
  {
    TickSendsOldest(s, i, now);
  }

  /** Once closing or closed, nothing more is handed over or received; once closed nothing at all happens. */
  lemma ClosedIsQuiet(s: Endpoint, e: Event, now: int)
    requires s.state != Established
    ensures var (t, result) := OnEvent(s, e, now);
            && t.expected == s.expected && t.reorder == s.reorder && t.fates == s.fates
            && (s.state == Closed ==> t == s && result == Ok(Noop))
            && (e.Inbound? || e.Outbound? ==> t == s)
  {
    if e.Tick? { TickKeepsReceived(s, now); }
  }

  lemma TickKeepsReceived(s: Endpoint, now: int)
    ensures var t := HandleTick(s, now).0; t.expected == s.expected && t.reorder == s.reorder && t.fates == s.fates
  {
  }

  ghost predicate SealedClose(x: Side) {
    exists k :: 0 <= k < |x.ep.sealed| && x.ep.sealed[k].kind == Close
  }

  /** A side is no longer established only because it or its peer was shut down. */
  ghost predicate ClosedForReason(x: Side, y: Side) {
    && (x.ep.state != Established ==> SealedClose(x) || SealedClose(y))
    && (x.ep.state == Closing ==> SealedClose(x))
    && (SealedClose(x) ==> x.ep.state != Established)
  }

  lemma MoveCloses(x: Side, y: Side, m: Move, now: int)
    requires PairInv(x, y) && Allowed(x, y, m) && ClosedForReason(x, y) && ClosedForReason(y, x)
    ensures ClosedForReason(Moved(x, m, now), y) && ClosedForReason(y, Moved(x, m, now))
  {
    var x' := Moved(x, m, now);
    MoveGrows(x, y, m, now);
    if SealedClose(x) {
      var k :| 0 <= k < |x.ep.sealed| && x.ep.sealed[k].kind == Close;
      assert x'.ep.sealed[k].kind == Close;
    }
    if m.Occurs? {
      StateAfter(x.ep, m.event, now);
      EventCloses(x, m.event, now);
      if m.event.Inbound? && x.ep.state == Established && ClosedBy(x.ep, m.event.datagram, now) {
        CloseIsPeers(x, y, m.event.datagram, now);
      }
    }
  }

  /** Only a shutdown seals a Close. */
  lemma EventCloses(x: Side, e: Event, now: int)
    ensures SealedClose(Moved(x, Occurs(e), now)) <==> SealedClose(x) || (e.Shutdown? && x.ep.state == Established)
  {
    var t := OnEvent(x.ep, e, now).0;
    if e.Inbound? || e.Tick? {
      AnyEventFollows(x.ep, e, now);
    } else if e.Outbound? {
      OutboundSeals(x.ep, e.stream, e.payload, now);
    } else {
      ShutdownSeals(x.ep, now);
      if x.ep.state == Established { assert t.sealed[|x.ep.sealed|].kind == Close; }
    }
    if SealedClose(x) {
      var k :| 0 <= k < |x.ep.sealed| && x.ep.sealed[k].kind == Close;
      assert t.sealed[k] == x.ep.sealed[k];
    }
  }

  lemma CloseIsPeers(x: Side, y: Side, d: Datagram, now: int)
    requires PairInv(x, y) && CanArrive(x, y, d) && ClosedBy(x.ep, d, now)
    ensures SealedClose(y)
  {
    ArrivalsAreGenuine(x, y, d);
    RecoverStep(x.ep, now);
    assert y.ep.sealed[d.nonce].kind == Close;
  }

  lemma NextCloses(w: World, w': World)
    requires PairInv(w.a, w.b) && TwoEndpoints.Next(w, w') && ClosedForReason(w.a, w.b) && ClosedForReason(w.b, w.a)
    ensures ClosedForReason(w'.a, w'.b) && ClosedForReason(w'.b, w'.a)
  {
    var m :| AMoves(w, m, w') || BMoves(w, m, w');
    if AMoves(w, m, w') {
      MoveCloses(w.a, w.b, m, w'.now);
    } else {
      PairBothWays(w.a, w.b);
      MoveCloses(w.b, w.a, m, w'.now);
    }
  }

  lemma PairBothWays(x: Side, y: Side)
    requires PairInv(x, y)
    ensures PairInv(y, x)
  {
  }

  /** In every reachable state: whatever arrives, no session ends but by a shutdown of one of its two ends. */
  lemma {:induction false} EndsOnlyWhenShutDown(run: seq<World>, i: nat)
    requires Run(run) && i < |run|
    ensures ClosedForReason(run[i].a, run[i].b) && ClosedForReason(run[i].b, run[i].a)
  {
    if i > 0 {
      var k: nat := i - 1;
      EndsOnlyWhenShutDown(run, k);
      RunKeeps(run, k);
      NextCloses(run[k], run[i]);
    }
  }

  // ---------- Owing an acknowledgement ----------

  /** What must be acknowledged: data, and what keeps alive or closes. */
  predicate Acknowledged(f: Frame) { f.kind == Data || f.kind == Close || f.kind == KeepAlive }

  /** An ACK is owed, or has been sealed on the way from `s` to `t`. */
  ghost predicate Provoked(s: Endpoint, t: Endpoint) {
    t.ackPending || exists k :: |s.sealed| <= k < |t.sealed| && t.sealed[k].kind == Ack
  }

  /** No ACK is owed, and none was sealed on the way. */
  ghost predicate NotProvoked(s: Endpoint, t: Endpoint) {
    !t.ackPending && s.sealed <= t.sealed && forall k :: |s.sealed| <= k < |t.sealed| ==> t.sealed[k].kind != Ack
  }

  lemma SomethingToSay(s: Endpoint)
    requires s.expected > 0 || s.reorder != map[]
    ensures BuildAckPayload(s) != []
  {
    if s.reorder != map[] {
      var k :| k in s.reorder;
      assert k in Sorted(s.reorder.Keys);
    }
  }

  lemma DueAckOwes(s: Endpoint, now: int)
    requires s.expected > 0 || s.reorder != map[]
    ensures s.ackPending ==> Provoked(s, BuildAckIfDue(s, now).0)
    ensures !s.ackPending ==> BuildAckIfDue(s, now).0 == s
  {
    SomethingToSay(s);
    if s.ackPending && Since(now, s.lastAckSent) >= s.cfg.ackDelay {
      assert BuildAckIfDue(s, now).0.sealed[|s.sealed|].kind == Ack;
    }
  }

  lemma InOrderOwes(s: Endpoint, action: Action, sends: seq<Action>, now: int)
    ensures var t := Sequence(s, s.expected, action, sends, now).0;
            if s.ackPending then Provoked(s, t) else NotProvoked(s, t)
  {
    var m := AcceptInOrder(s, action, now).0;
    assert m.sealed == s.sealed && m.ackPending == s.ackPending && m.expected > 0;
    DueAckOwes(m, now);
  }

  lemma GapOwes(s: Endpoint, nonce: nat, action: Action, sends: seq<Action>, now: int)
    requires nonce != s.expected && s.cfg.maxReorderBuffer >= 1
    ensures var t := Sequence(s, nonce, action, sends, now).0;
            if s.ackPending then Provoked(s, t) else NotProvoked(s, t)
  {
    var m := BufferBeyondGap(s, nonce, action, now).0;
    GapKeepsDebt(s, nonce, action, now);
    DueAckOwes(m, now);
    if s.ackPending && !BuildAckIfDue(m, now).0.ackPending {
      var k :| |m.sealed| <= k < |BuildAckIfDue(m, now).0.sealed| && BuildAckIfDue(m, now).0.sealed[k].kind == Ack;
    }
  }

  lemma GapKeepsDebt(s: Endpoint, nonce: nat, action: Action, now: int)
    requires s.cfg.maxReorderBuffer >= 1
    ensures var m := BufferBeyondGap(s, nonce, action, now).0;
            && m.reorder != map[] && m.ackPending == s.ackPending && s.sealed <= m.sealed
            && forall k :: |s.sealed| <= k < |m.sealed| ==> m.sealed[k].kind == Nack
  {
    InsertedHolds(s, nonce, action);
  }

  lemma InsertedHolds(s: Endpoint, nonce: nat, action: Action)
    requires s.cfg.maxReorderBuffer >= 1
    ensures Inserted(s, nonce, action).reorder != map[]
  {
    if |s.reorder| < s.cfg.maxReorderBuffer { assert nonce in Inserted(s, nonce, action).reorder; }
  }

  lemma HeardOwes(s: Endpoint, nonce: nat, f: Frame, now: int)
    ensures var b := Heard(s, nonce, f, now);
            b.ackPending == (s.ackPending || Acknowledged(f)) && b.sealed == s.sealed && b.cfg == s.cfg
  {
  }

  /**
   A frame that is heard makes its receiver owe an ACK, or seal one at once, exactly
   when it carries data, keeps alive or closes, or one was owed already. So ACKs and
   requests are never answered with ACKs, and two idle ends fall silent.
   */
  lemma AckOwedIff(s: Endpoint, d: Datagram, f: Frame, now: int)
    requires s.cfg.Valid() && Carries(s, d, f) && InWindow(s, d) && !TruncatedAck(f)
    ensures var t := HandleFrame(s, d, now).0;
            if s.ackPending || Acknowledged(f) then Provoked(s, t) else NotProvoked(s, t)
  {
    OpenedIsSequenced(s, d, f, now);
    HeardOwes(s, d.nonce, f, now);
    var b, sends := Heard(s, d.nonce, f, now), OnAuthenticated(s, d.nonce, f, now).1.value;
    if d.nonce == b.expected { InOrderOwes(b, ActionOf(f), sends, now); } else { GapOwes(b, d.nonce, ActionOf(f), sends, now); }
  }

  /** A debt is never forgotten: whatever arrives, it stands or is settled by an ACK. */
  lemma DebtStands(s: Endpoint, d: Datagram, now: int)
    requires s.cfg.Valid() && s.ackPending && (s.expected > 0 || s.reorder != map[])
    ensures Provoked(s, HandleFrame(s, d, now).0)
  {
    if d.Datagram? && d.nonce < s.expected {
      SomethingToSay(s);
      assert HandleFrame(s, d, now).0.sealed[|s.sealed|].kind == Ack;
    } else if Opened(s, d).Some? {
      var f := Opened(s, d).value;
      if TruncatedAck(f) { RefusedKeepsDebt(s, d, f, now); } else { HeardDebtStands(s, d, f, now); }
    }
  }

  lemma RefusedKeepsDebt(s: Endpoint, d: Datagram, f: Frame, now: int)
    requires Opened(s, d) == Some(f) && TruncatedAck(f)
    ensures HandleFrame(s, d, now).0.ackPending == s.ackPending
  {
  }

  lemma HeardDebtStands(s: Endpoint, d: Datagram, f: Frame, now: int)
    requires s.cfg.Valid() && Opened(s, d) == Some(f) && !TruncatedAck(f) && s.ackPending
    ensures Provoked(s, HandleFrame(s, d, now).0)
  {
    var a, sends := OnAuthenticated(s, d.nonce, f, now).0, OnAuthenticated(s, d.nonce, f, now).1.value;
    HeardOwes(s, d.nonce, f, now);
    var b := Heard(s, d.nonce, f, now);
    if d.nonce == b.expected { InOrderOwes(b, ActionOf(f), sends, now); } else { GapOwes(b, d.nonce, ActionOf(f), sends, now); }
  }

  /** Whenever recovery acts, an ACK that tells the sender what it may forget is owed or sealed, whatever the datagram was. */
  lemma RecoveryIsAcknowledged(s: Endpoint, d: Datagram, now: int)
    requires Inv(s) && s.state == Established && Stalled(s, now) && !d.Runt? && d.sid == s.cfg.sid
    ensures Provoked(s, OnEvent(s, Inbound(d), now).0)
  {
    RecoverReleases(s, now);
    var r := RecoverStalledGap(s, now).0;
    assert r.ackPending && r.sealed == s.sealed && r.cfg == s.cfg;
    DebtStands(r, d, now);
  }

  // ---------- What the timers record ----------

  /** Delayed ACKs are at least the configured delay apart, and sending one settles the debt. */
  lemma AcksAreSpaced(s: Endpoint, now: int)
    requires BuildAckIfDue(s, now).1.Some?
    ensures s.ackPending && Since(now, s.lastAckSent) >= s.cfg.ackDelay
    ensures var t := BuildAckIfDue(s, now).0;
            && !t.ackPending && t.lastAckSent == now
            && forall later :: now <= later < now + s.cfg.ackDelay ==> BuildAckIfDue(t.(ackPending := true), later).1.None?
  {
  }

  /** The cooldown is half the timeout; its own floor of 10 ms is never reached. */
  lemma CooldownIsHalfTimeout(c: Controller)
    ensures 2 * NackCooldown(c) <= c.Rto() <= 2 * NackCooldown(c) + 1 && NackCooldown(c) >= 25 * MILLISECOND
  {
  }

  /** Recovery waits eight timeouts, but two seconds at least and ten at most. */
  lemma RecoveryWaits(c: Controller)
    ensures 2 * SECOND <= RecoveryTimeout(c) <= 10 * SECOND
    ensures 2 * SECOND <= 8 * c.Rto() <= 10 * SECOND ==> RecoveryTimeout(c) == 8 * c.Rto()
    ensures RecoveryTimeout(c) < 8 * c.Rto() ==> RecoveryTimeout(c) == 10 * SECOND
    ensures RecoveryTimeout(c) > 8 * c.Rto() ==> RecoveryTimeout(c) == 2 * SECOND
  {
  }

  /**
   A frame falls due after the larger of the two timeouts, to the millisecond, and after
   twice as long for each retry, up to eight seconds.
   */
  lemma BackoffIs(s: Endpoint, retries: nat)
    ensures var base := BaseRtoMs(s);
            && base * MILLISECOND <= Max(s.cc.Rto(), s.cfg.rto) < (base + 1) * MILLISECOND
            && EffectiveRto(base, 0) == Min(base * MILLISECOND, 8 * SECOND)
            && (retries < 6 ==> EffectiveRto(base, retries + 1) == Min(2 * EffectiveRto(base, retries), 8 * SECOND))
            && (retries >= 6 ==> EffectiveRto(base, retries) == EffectiveRto(base, 6))
  {
    var base := BaseRtoMs(s);
    assert Doubled(base, 0) == base;
    if retries < 6 { assert Doubled(base, retries + 1) == 2 * Doubled(base, retries); }
  }

  /** Requests for a missing frame are at least the cooldown apart while the estimate stands. */
  lemma RequestsAreSpaced(s: Endpoint, now: int)
    requires NackIfDue(s, now).1 != []
    ensures Since(now, s.lastNackSent) >= NackCooldown(s.cc)
    ensures var t := NackIfDue(s, now).0;
            t.lastNackSent == now && forall later :: now <= later < now + NackCooldown(t.cc) ==> NackIfDue(t, later).1 == []
  {
  }

  lemma FrameStampsAdvance(s: Endpoint, d: Datagram, now: int)
    ensures var t := HandleFrame(s, d, now).0;
            && t.expected >= s.expected
            && t.lastRecvAdvance == if t.expected > s.expected then now else s.lastRecvAdvance
  {
    if Opened(s, d).Some? {
      var f := Opened(s, d).value;
      var (a, sends) := OnAuthenticated(s, d.nonce, f, now);
      assert a.expected == s.expected && a.lastRecvAdvance == s.lastRecvAdvance;
      if sends.Some? { SequenceStampsAdvance(AfterKind(a, f.kind), d.nonce, ActionOf(f), sends.value, now); }
    } else {
      UnopenedStampsNothing(s, d, now);
    }
  }

  lemma UnopenedStampsNothing(s: Endpoint, d: Datagram, now: int)
    requires Opened(s, d).None?
    ensures HandleFrame(s, d, now).0.expected == s.expected && HandleFrame(s, d, now).0.lastRecvAdvance == s.lastRecvAdvance
  {
  }

  lemma SequenceStampsAdvance(s: Endpoint, nonce: nat, action: Action, sends: seq<Action>, now: int)
    ensures var t := Sequence(s, nonce, action, sends, now).0;
            if nonce == s.expected then t.expected > s.expected && t.lastRecvAdvance == now
            else t.expected == s.expected && t.lastRecvAdvance == s.lastRecvAdvance
  {
  }

  /** The instant of the last advance is recorded when the receive sequence moves on, and at no other time. */
  lemma AdvanceIsStamped(s: Endpoint, e: Event, now: int)
    requires Inv(s)
    ensures var t := OnEvent(s, e, now).0;
            && t.expected >= s.expected
            && t.lastRecvAdvance == if t.expected > s.expected then now else s.lastRecvAdvance
  {
    if e.Inbound? {
      RecoveryAdvances(s, now);
      FrameStampsAdvance(RecoverStalledGap(s, now).0, e.datagram, now);
    } else if e.Tick? {
      TickStampsNothing(s, now);
    }
  }

  lemma TickStampsNothing(s: Endpoint, now: int)
    ensures HandleTick(s, now).0.expected == s.expected && HandleTick(s, now).0.lastRecvAdvance == s.lastRecvAdvance
  {
  }

  /** A frame beyond the gap is kept exactly when there is room; one already kept stays. */
  lemma BufferedIff(s: Endpoint, d: Datagram, f: Frame, now: int)
    requires Carries(s, d, f) && InWindow(s, d) && !TruncatedAck(f) && d.nonce > s.expected
    ensures HandleFrame(s, d, now).0.reorder
            == if |s.reorder| < s.cfg.maxReorderBuffer then s.reorder[d.nonce := ActionOf(f)] else s.reorder
  {
    OpenedIsSequenced(s, d, f, now);
    HeardKeepsBuffer(s, d.nonce, f, now);
    GapKeepsOthers(Heard(s, d.nonce, f, now), d.nonce, ActionOf(f), OnAuthenticated(s, d.nonce, f, now).1.value, now);
  }

  lemma HeardKeepsBuffer(s: Endpoint, nonce: nat, f: Frame, now: int)
    ensures var b := Heard(s, nonce, f, now); b.reorder == s.reorder && b.expected == s.expected && b.cfg == s.cfg
  {
  }

  lemma GapKeepsOthers(s: Endpoint, nonce: nat, action: Action, sends: seq<Action>, now: int)
    requires nonce != s.expected
    ensures Sequence(s, nonce, action, sends, now).0.reorder == Inserted(s, nonce, action).reorder
  {
  }

  /** What is sealed is held, and only the oldest make room for it. */
  lemma NewestIsHeld(s: Endpoint, f: Frame, tracked: bool, now: int)
    requires s.cfg.maxSentHistory >= 1 && |s.history| <= s.cfg.maxSentHistory
    ensures var (t, d) := Build(s, f, tracked, now);
            && t.history != [] && t.history[|t.history| - 1] == SentFrame(s.sendNonce, d, now, 0, tracked)
            && (if |s.history| < s.cfg.maxSentHistory then t.history[..|t.history| - 1] == s.history
                else t.history[..|t.history| - 1] == s.history[1..])
  {
  }

  /** A session that has just begun may ask for a missing frame at once, and delays its first ACK. */
  lemma FreshMayAsk(cfg: Config, mtu: Mtu, now: int)
    requires cfg.Valid()
    ensures var s := Start(cfg, mtu, now);
            && NackIfDue(s, now).1 == [SendDatagram(Request(s))]
            && BuildAckIfDue(s.(ackPending := true, expected := 1), now).1.None?
  {
    assert Fresh(mtu, now).Rto() == 90 * MILLISECOND;
  }

  // ---------- What a refusal says ----------

  /** Why a datagram is refused: too short, for another session, without a whole nonce, forged, or an ACK cut short. */
  lemma RefusalSays(s: Endpoint, d: Datagram, now: int)
    requires s.state == Established
    ensures var r, result := RecoverStalledGap(s, now).0, OnEvent(s, Inbound(d), now).1;
            result.Err? ==>
              result.error == if d.Runt? then Framing
                              else if d.sid != s.cfg.sid then State
                              else if d.Headless? then Framing
                              else if Opened(r, d).None? then Crypto
                              else Framing
  {
    var r := RecoverStalledGap(s, now).0;
    if d.Datagram? && d.sid == s.cfg.sid {
      InboundFailsIff(s, d, now);
      if Opened(r, d).Some? { RefusedAck(r, d, Opened(r, d).value, now); }
    }
  }

  lemma RefusedAck(s: Endpoint, d: Datagram, f: Frame, now: int)
    requires Opened(s, d) == Some(f)
    ensures HandleFrame(s, d, now).1.Err? ==> HandleFrame(s, d, now).1.error == Framing
  {
  }

  // ---------- A new path ----------

  /**
   The first thing the next tick puts on the new path is an ACK under a fresh nonce, if
   there is anything to acknowledge and the delay configured is at most an hour: the
   datagram a server moves the session's address on.
   */
  lemma NewPathIsAnnounced(s: Endpoint, now: int, later: int)
    requires now <= later && BuildAckPayload(s) != [] && s.cfg.ackDelay <= PATH_CHANGE_AGE
    ensures var m := OnPathChange(s, now);
            var txs := Sends(HandleTick(m, later).1.action, later);
            txs != [] && txs[0] == Tx(Acknowledgement(s), later) && HandleTick(m, later).0.sendNonce == s.sendNonce + 1
  {
    var m := OnPathChange(s, now);
    var (a, ack) := BuildAckIfDue(m, later);
    assert BuildAckPayload(m) == BuildAckPayload(s);
    assert ack == Some(Acknowledgement(s));
    var resends := Retransmit(a, later).1;
    CollateMeaning(OptionalSend(ack) + resends, later);
    AllSendsConcat(OptionalSend(ack), resends, later);
    SingleAction(SendDatagram(ack.value), later);
  }

  /**
   A path change forgets what was learnt about the old path and makes every timer due;
   the rest of the session is as it was.
   */
  lemma PathChangeForgets(s: Endpoint, now: int)
    ensures var t := OnPathChange(s, now);
            && t.cc == Fresh(s.cc.mtu, now).(bytesInFlight := s.cc.bytesInFlight, totalAcked := s.cc.totalAcked)
            && t.ackPending && t.lastAckSent == t.lastNackSent == now - 3600 * SECOND
            && t == s.(cc := t.cc, history := t.history, ackPending := true, lastAckSent := t.lastAckSent,
                       lastNackSent := t.lastNackSent)
  {
  }
}
