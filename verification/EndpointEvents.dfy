/** Whole events: whatever datagram arrives, the endpoint's invariant survives it. */
module EndpointEvents {
  import opened Basics
  import opened Wire
  import opened Endpoint
  import opened EndpointInvariants
  import opened EndpointSteps

  /** `d` opens at `s` as an ACK that names `n`. */
  ghost predicate AckedBy(s: Endpoint, d: Datagram, n: nat) {
    && d.Datagram?
    && var f := Decrypt(s.cfg.recvKey, d.nonce, s.cfg.sid, d.body);
       f.Some? && f.value.kind == Ack && ParseAck(f.value.payload).Some? && InRanges(n, ParseAck(f.value.payload).value)
  }

  /** Frames leave the history as acknowledged only because `d` names them. */
  ghost predicate AckedOnlyBy(s: Endpoint, t: Endpoint, d: Datagram) {
    forall n :: n in t.acked ==> n in s.acked || AckedBy(s, d, n)
  }

  ghost predicate AuthenticatedOk(s: Endpoint, t: Endpoint, sends: Option<seq<Action>>, d: Datagram, now: int) {
    && SameRecv(s, t) && AckedOnlyBy(s, t, d)
    && (if sends.Some? then Step(s, t, AllSends(sends.value, now)) && AllDeliveries(sends.value) == []
        else Step(s, t, []))
  }

  function Noted(s: Endpoint, nonce: nat): Endpoint {
    s.(authenticatedCount := s.authenticatedCount + 1, highestAuthenticated := HighestOf(s.highestAuthenticated, nonce))
  }

  lemma NackCase(s: Endpoint, d: Datagram, payload: Bytes, now: int)
    requires Inv(s) && d.Datagram? && |payload| >= 8
    ensures var (t, sends) := OnNack(Noted(s, d.nonce), payload, now); AuthenticatedOk(s, t, Some(sends), d, now)
  {
    var a := Noted(s, d.nonce);
    QuietStep(s, a);
    NackStep(a, payload, now);
    var (t, sends) := OnNack(a, payload, now);
    StepTransitive(s, a, t, [], AllSends(sends, now));
    assert [] + AllSends(sends, now) == AllSends(sends, now);
  }

  lemma AckCase(s: Endpoint, d: Datagram, ranges: seq<Range>, now: int)
    requires Inv(s) && d.Datagram?
    requires forall n :: InRanges(n, ranges) ==> AckedBy(s, d, n)
    ensures AuthenticatedOk(s, DropAckedFrames(Noted(s, d.nonce), ranges, now), Some([]), d, now)
  {
    var a := Noted(s, d.nonce);
    QuietStep(s, a);
    DropStep(a, ranges, now);
    StepTransitive(s, a, DropAckedFrames(a, ranges, now), [], []);
  }

  lemma AuthenticatedStep(s: Endpoint, d: Datagram, f: Frame, now: int)
    requires Inv(s) && d.Datagram? && Decrypt(s.cfg.recvKey, d.nonce, s.cfg.sid, d.body) == Some(f)
    ensures var (t, sends) := OnAuthenticated(s, d.nonce, f, now); AuthenticatedOk(s, t, sends, d, now)
  {
    if f.kind == Nack && |f.payload| >= 8 {
      NackCase(s, d, f.payload, now);
    } else if f.kind == Ack && ParseAck(f.payload).Some? {
      AckCase(s, d, ParseAck(f.payload).value, now);
    } else {
      QuietStep(s, Noted(s, d.nonce));
    }
  }

  /** What was already to be sent goes first, then `txs`, while `s` becomes `t`. */
  ghost predicate SequencedOk(s: Endpoint, t: Endpoint, result: Outcome, sends: seq<Action>, txs: seq<Tx>, now: int) {
    && result.Ok? && t.acked == s.acked
    && Step(s, t, txs) && Sends(result.action, now) == AllSends(sends, now) + txs
  }

  lemma InOrderStep(s: Endpoint, f: Frame, sends: seq<Action>, now: int) returns (txs: seq<Tx>)
    requires Inv(s) && Within(s, U64_MAX) && s.expected < U64_MAX
    ensures var (t, result) := Sequence(s, s.expected, ActionOf(f), sends, now); SequencedOk(s, t, result, sends, txs, now)
  {
    var action := ActionOf(f);
    var (m, acts) := AcceptInOrder(s, action, now);
    AcceptStep(s, action, now);
    assert Within(m, U64_MAX);
    AckIfDueStep(m, now);
    var (t, ack) := BuildAckIfDue(m, now);
    txs := AllSends(OptionalSend(ack), now);
    StepTransitive(s, m, t, [], txs);
    assert [] + txs == txs;
    ThreeSends(sends, OptionalSend(ack), acts, now);
    assert AllSends(sends, now) + txs + [] == AllSends(sends, now) + txs;
  }

  lemma BeyondGapStep(s: Endpoint, nonce: nat, f: Frame, sends: seq<Action>, now: int) returns (txs: seq<Tx>)
    requires Inv(s) && s.expected < nonce <= s.expected + s.cfg.maxReorder
    requires Within(s, U64_MAX) && nonce < U64_MAX
    ensures var (t, result) := Sequence(s, nonce, ActionOf(f), sends, now); SequencedOk(s, t, result, sends, txs, now)
  {
    var (m, nacks) := BufferBeyondGap(s, nonce, ActionOf(f), now);
    BufferStep(s, nonce, ActionOf(f), now);
    assert Within(m, U64_MAX);
    AckIfDueStep(m, now);
    var (t, ack) := BuildAckIfDue(m, now);
    var first, second := AllSends(nacks, now), AllSends(OptionalSend(ack), now);
    txs := first + second;
    StepTransitive(s, m, t, first, second);
    GapSends(sends, nacks, OptionalSend(ack), now);
  }

  lemma GapSends(a: seq<Action>, b: seq<Action>, c: seq<Action>, now: int)
    ensures Sends(Collate(a + b + c), now) == AllSends(a, now) + (AllSends(b, now) + AllSends(c, now))
  {
    ThreeSends(a, b, c, now);
    Regroup(AllSends(a, now), AllSends(b, now), AllSends(c, now));
  }

  lemma Regroup<T>(x: seq<T>, y: seq<T>, z: seq<T>)
    ensures x + y + z == x + (y + z)
  {
  }

  lemma ThreeSends(a: seq<Action>, b: seq<Action>, c: seq<Action>, now: int)
    ensures Sends(Collate(a + b + c), now) == AllSends(a, now) + AllSends(b, now) + AllSends(c, now)
  {
    AllSendsConcat(a, b, now);
    AllSendsConcat(a + b, c, now);
    CollateMeaning(a + b + c, now);
  }

  lemma SequenceStep(s: Endpoint, nonce: nat, f: Frame, sends: seq<Action>, now: int) returns (txs: seq<Tx>)
    requires Inv(s) && s.expected <= nonce <= s.expected + s.cfg.maxReorder
    requires Within(s, U64_MAX) && nonce < U64_MAX
    ensures var (t, result) := Sequence(s, nonce, ActionOf(f), sends, now); SequencedOk(s, t, result, sends, txs, now)
  {
    if nonce == s.expected {
      txs := InOrderStep(s, f, sends, now);
    } else {
      txs := BeyondGapStep(s, nonce, f, sends, now);
    }
  }

  lemma AcceptedStep(s: Endpoint, d: Datagram, f: Frame, now: int)
    requires Inv(s) && d.Datagram? && Decrypt(s.cfg.recvKey, d.nonce, s.cfg.sid, d.body) == Some(f)
    requires s.expected <= d.nonce <= s.expected + s.cfg.maxReorder
    requires Within(s, U64_MAX) && d.nonce < U64_MAX
    ensures var (t, result) := HandleFrame(s, d, now); EventStep(s, t, result, now) && AckedOnlyBy(s, t, d)
  {
    AuthenticatedStep(s, d, f, now);
    var (a, sends) := OnAuthenticated(s, d.nonce, f, now);
    if sends.Some? {
      var b := AfterKind(a, f.kind);
      QuietStep(a, b);
      var txs := SequenceStep(b, d.nonce, f, sends.value, now);
      var (t, result) := Sequence(b, d.nonce, ActionOf(f), sends.value, now);
      StepTransitive(s, a, b, AllSends(sends.value, now), []);
      assert AllSends(sends.value, now) + [] == AllSends(sends.value, now);
      StepTransitive(s, b, t, AllSends(sends.value, now), txs);
    }
  }

  lemma FrameStep(s: Endpoint, d: Datagram, now: int)
    requires Inv(s) && Within(s, U64_MAX)
    requires s.expected + s.cfg.maxReorder < U64_MAX
    ensures var (t, result) := HandleFrame(s, d, now); EventStep(s, t, result, now) && AckedOnlyBy(s, t, d)
  {
    var (t, result) := HandleFrame(s, d, now);
    if d.Datagram? && d.nonce < s.expected {
      ForceAckStep(s, now);
      var ack := ForceBuildAck(s, now).1;
      CollateMeaning(OptionalSend(ack), now);
    } else if d.Datagram? && d.nonce > s.expected + s.cfg.maxReorder {
      BuildStep(s, NackFrame(s.expected), false, now);
    } else if d.Datagram? && Decrypt(s.cfg.recvKey, d.nonce, s.cfg.sid, d.body).Some? {
      AcceptedStep(s, d, Decrypt(s.cfg.recvKey, d.nonce, s.cfg.sid, d.body).value, now);
    } else {
      QuietStep(s, s);
    }
  }

  lemma SpliceMeaning(recovered: seq<Action>, result: Action, now: int)
    ensures Sends(Splice(recovered, result), now) == AllSends(recovered, now) + Sends(result, now)
    ensures Deliveries(Splice(recovered, result)) == AllDeliveries(recovered) + Deliveries(result)
  {
    if recovered != [] {
      var tail := match result case Noop => [] case Multiple(list) => list case single => [single];
      if !result.Noop? && !result.Multiple? { SingleAction(result, now); }
      AllSendsConcat(recovered, tail, now);
      AllDeliveriesConcat(recovered, tail);
      CollateMeaning(recovered + tail, now);
    }
  }

  lemma ForfeitStep(s: Endpoint, t: Endpoint, txs: seq<Tx>)
    requires Step(s, t, txs)
    ensures Step(s, t.(fates := Forfeit(s.fates, t.fates)), txs)
  {
    var u := t.(fates := Forfeit(s.fates, t.fates));
    forall n | 0 <= n < |u.sealed| && u.sealed[n].kind == Ack
      ensures TrueAck(u, u.sealed[n].payload)
    {
      assert TrueAck(t, t.sealed[n].payload);
    }
  }

  lemma DataStep(s: Endpoint, d: Datagram, now: int)
    requires Inv(s) && Headroom(s)
    ensures var (t, result) := HandleData(s, d, now); EventStep(s, t, result, now) && AckedOnlyBy(s, t, d)
  {
    var (r, recovered) := RecoverStalledGap(s, now);
    var (t, result) := HandleFrame(r, d, now);
    RecoverStep(s, now);
    var bound := s.expected + s.cfg.maxReorder + 1;
    assert Within(s, bound);
    assert Within(r, bound);
    FrameStep(r, d, now);
    match result
    case Err(_) =>
      StepTransitive(s, r, t, [], []);
      ForfeitStep(s, t, []);
    case Ok(a) =>
      StepTransitive(s, r, t, [], Sends(a, now));
      assert [] + Sends(a, now) == Sends(a, now);
      SpliceMeaning(recovered, a, now);
  }

  /** No event, from any datagram at all, breaks the invariant. */
  lemma AnyEventStep(s: Endpoint, e: Event, now: int)
    requires Inv(s) && Headroom(s)
    ensures var (t, result) := OnEvent(s, e, now);
            && EventStep(s, t, result, now)
            && (if e.Inbound? then AckedOnlyBy(s, t, e.datagram) else t.acked == s.acked && SameRecv(s, t))
  {
    var (t, result) := OnEvent(s, e, now);
    QuietStep(s, s);
    if s.state == Closed {
    } else {
      match e
      case Inbound(d) =>
        if s.state == Established && !d.Runt? && d.sid == s.cfg.sid { DataStep(s, d, now); }
      case Outbound(stream, payload) =>
        if s.state == Established { BuildStep(s, Frame(Data, stream, payload), true, now); }
      case Shutdown =>
        if s.state == Established {
          var m := s.(state := Closing);
          QuietStep(s, m);
          BuildStep(m, Frame(Close, 0, []), true, now);
          var d := Build(m, Frame(Close, 0, []), true, now).1;
          StepTransitive(s, m, t, [], [Tx(d, now)]);
          assert [] + [Tx(d, now)] == [Tx(d, now)];
        } else {
          QuietStep(s, t);
        }
      case Tick => TickStep(s, now);
    }
  }

  // ---------- Which datagrams a call fails on ----------

  predicate InWindow(s: Endpoint, d: Datagram) {
    d.Datagram? && s.expected <= d.nonce <= s.expected + s.cfg.maxReorder
  }

  /** The frame `d` opens to at `s`, if its nonce is in the window and it authenticates. */
  function Opened(s: Endpoint, d: Datagram): Option<Frame> {
    if InWindow(s, d) then Decrypt(s.cfg.recvKey, d.nonce, s.cfg.sid, d.body) else None
  }

  /** An ACK shorter than the ranges it announces. */
  predicate TruncatedAck(f: Frame) {
    f.kind == Ack && ParseAck(f.payload).None?
  }

  /** What an established endpoint refuses: no whole nonce, a forgery, or a truncated ACK. */
  predicate Refuses(s: Endpoint, d: Datagram) {
    d.Headless? || (InWindow(s, d) && (Opened(s, d).None? || TruncatedAck(Opened(s, d).value)))
  }

  lemma FrameFailsIff(s: Endpoint, d: Datagram, now: int)
    requires !d.Runt?
    ensures HandleFrame(s, d, now).1.Err? <==> Refuses(s, d)
  {
    if Opened(s, d).Some? {
      var f := Opened(s, d).value;
      var (t, sends) := OnAuthenticated(s, d.nonce, f, now);
      assert sends.None? <==> TruncatedAck(f);
    }
  }

  /** A datagram fails the call exactly when it is malformed, not for this session, or refused once recovery has run. */
  lemma InboundFailsIff(s: Endpoint, d: Datagram, now: int)
    requires s.state != Closed
    ensures OnEvent(s, Inbound(d), now).1.Err?
            <==> d.Runt? || d.sid != s.cfg.sid || (s.state == Established && Refuses(RecoverStalledGap(s, now).0, d))
  {
    if !d.Runt? { FrameFailsIff(RecoverStalledGap(s, now).0, d, now); }
  }

  /** So one that authenticates fails the call exactly when it is a truncated ACK. */
  lemma OpenedFailsIff(s: Endpoint, d: Datagram, now: int)
    requires s.state == Established && d.Datagram? && d.sid == s.cfg.sid
    requires Opened(RecoverStalledGap(s, now).0, d).Some?
    ensures OnEvent(s, Inbound(d), now).1.Err? <==> TruncatedAck(Opened(RecoverStalledGap(s, now).0, d).value)
  {
    InboundFailsIff(s, d, now);
  }
}
