/**
 The endpoint as the object the program keeps, starting where its handshake ends.
 Methods update the fields in place; each is proved against the value-level
 specification in `Endpoint`, of which `View` is the current state.
 */
module Machine {
  import opened Basics
  import opened Wire
  import opened Congestion
  import opened Spec = Endpoint
  import opened EndpointInvariants
  import opened EndpointSteps
  import opened EndpointEvents
  import opened EndpointLoops

  class ProtocolMachine {
    const cfg: Config
    const cc: CongestionController
    var state: OstpState
    var sendNonce: nat
    var expectedRecvNonce: nat
    var reorderBuffer: map<nat, Action>
    var sentHistory: seq<SentFrame>
    var ackPending: bool
    var lastAckSent: int
    var lastNackSent: int
    var lastRecvAdvance: int
    var highestAuthenticatedRecvNonce: Option<nat>
    var authenticatedRecvCount: nat
    ghost var sealed: seq<Frame>
    ghost var evicted: set<nat>
    ghost var acked: set<nat>
    ghost var fates: seq<Fate>

    ghost function View(): Spec.Endpoint
      reads this, cc
    {
      Spec.Endpoint.Endpoint(cfg, state, sendNonce, expectedRecvNonce, reorderBuffer, sentHistory, ackPending, lastAckSent,
               lastNackSent, lastRecvAdvance, highestAuthenticatedRecvNonce, authenticatedRecvCount, cc.View(),
               sealed, evicted, acked, fates)
    }

    constructor (cfg: Config, mtu: Mtu, now: int)
      requires cfg.Valid()
      ensures View() == Start(cfg, mtu, now) && fresh(cc)
      ensures Inv(View())
    {
      this.cfg := cfg;
      var controller := new CongestionController(mtu, now);
      cc := controller;
      state := Established;
      sendNonce, expectedRecvNonce, reorderBuffer, sentHistory := 0, 0, map[], [];
      ackPending, lastAckSent, lastNackSent, lastRecvAdvance := false, now, now - SECOND, now;
      highestAuthenticatedRecvNonce, authenticatedRecvCount := None, 0;
      sealed, evicted, acked, fates := [], {}, {}, [];
    }

    method PushSentFrame(nonce: nat, bytes: Datagram, isRetransmittable: bool, now: int)
      modifies this`sentHistory, this`evicted, cc
      ensures View() == Spec.PushSentFrame(old(View()), SentFrame(nonce, bytes, now, 0, isRetransmittable), now)
    {
      if isRetransmittable {
        cc.OnSend(bytes.Size(), now);
      }
      var pushed := sentHistory + [SentFrame(nonce, bytes, now, 0, isRetransmittable)];
      sentHistory := PopOldest(pushed, cfg.maxSentHistory);
      evicted := evicted + Nonces(pushed[..Overflow(pushed, cfg.maxSentHistory)]);
    }

    method BuildDatagram(frame: Frame, isRetransmittable: bool, now: int) returns (d: Datagram)
      modifies this`sendNonce, this`sealed, this`sentHistory, this`evicted, cc
      ensures (View(), d) == Build(old(View()), frame, isRetransmittable, now)
    {
      var nonce := sendNonce;
      sendNonce := sendNonce + 1;
      sealed := sealed + [frame];
      d := Seal(cfg, nonce, frame);
      PushSentFrame(nonce, d, isRetransmittable, now);
    }

    method ForceBuildAck(now: int) returns (ack: Option<Datagram>)
      modifies this, cc
      ensures (View(), ack) == Spec.ForceBuildAck(old(View()), now)
    {
      var keys := SortedKeys(reorderBuffer.Keys);
      var payload := EncodeAck(expectedRecvNonce, keys);
      if payload == [] {
        ackPending := false;
        return None;
      }
      var frame := BuildDatagram(Frame(Ack, 0, payload), false, now);
      ackPending := false;
      lastAckSent := now;
      return Some(frame);
    }

    method BuildAckIfDue(now: int) returns (ack: Option<Datagram>)
      modifies this, cc
      ensures (View(), ack) == Spec.BuildAckIfDue(old(View()), now)
    {
      if !ackPending {
        return None;
      }
      if Since(now, lastAckSent) < cfg.ackDelay {
        return None;
      }
      ack := ForceBuildAck(now);
    }

    method DropAckedFrames(ranges: seq<Range>, now: int)
      modifies this`sentHistory, this`acked, cc
      ensures View() == Spec.DropAckedFrames(old(View()), ranges, now)
    {
      var ackedBytes, minRtt := MeasureAcked(sentHistory, ranges, now);
      acked := acked + Nonces(Where(sentHistory, Named(ranges)));
      sentHistory := Where(sentHistory, NotNamed(ranges));
      if ackedBytes > 0 {
        match minRtt {
          case Some(rtt) => cc.OnAck(ackedBytes, rtt, now);
          case None => cc.OnAckNoRtt(ackedBytes, now);
        }
      }
    }

    method LookupSentFrame(nonce: nat, now: int) returns (found: Option<Datagram>)
      modifies this`sentHistory
      ensures (View(), found) == Spec.LookupSentFrame(old(View()), nonce, now)
    {
      var at := FindNewest(sentHistory, nonce);
      if at.None? {
        return None;
      }
      var frame := sentHistory[at.value];
      sentHistory := sentHistory[at.value := frame.(lastSent := now, retries := SaturatingInc(frame.retries))];
      return Some(frame.bytes);
    }

    method HandleNack(payload: Bytes, now: int) returns (actions: seq<Action>)
      requires |payload| >= 8
      modifies this`sentHistory, cc
      ensures (View(), actions) == OnNack(old(View()), payload, now)
    {
      var cached := LookupSentFrame(FromBe(payload[..8]), now);
      if cached.Some? {
        cc.OnLoss(cached.value.Size(), now);
        actions := [SendDatagram(cached.value)];
      } else {
        cc.OnLoss(EVICTED_LOSS_BYTES, now);
        actions := [];
      }
    }

    method RetransmitExpired(now: int) returns (actions: seq<Action>)
      modifies this`sentHistory, this`evicted
      ensures (View(), actions) == Retransmit(old(View()), now)
    {
      var rto := cc.Rto();
      var baseRtoMs := Max(Max(rto, cfg.rto) / MILLISECOND, 1);
      var grace := Min(cfg.maxRetries + 2, U8_MAX);
      evicted := evicted + Nonces(Where(sentHistory, Zombie(grace)));
      sentHistory := Where(sentHistory, Living(grace));
      assert grace == Grace(cfg) && baseRtoMs == BaseRtoMs(old(View()));
      assert View() == EvictZombies(old(View()));
      var budget := cc.RetransmitBudget();
      sentHistory, actions := ResendDue(sentHistory, budget, baseRtoMs, now);
    }

    method HandleTick(now: int) returns (result: Outcome)
      modifies this, cc
      ensures (View(), result) == Spec.HandleTick(old(View()), now)
    {
      var ack := BuildAckIfDue(now);
      var resends := RetransmitExpired(now);
      result := Ok(Collate(OptionalSend(ack) + resends));
    }

    /** Moves the receive sequence to `resume` and drains what is buffered from there. */
    method Release(resume: nat, now: int) returns (released: seq<Action>)
      modifies this`expectedRecvNonce, this`reorderBuffer, this`lastRecvAdvance, this`fates
      ensures (View(), released) == ReleaseFrom(old(View()), resume, now)
    {
      var next;
      ghost var from := expectedRecvNonce;
      reorderBuffer, next, released := Drain(reorderBuffer, resume);
      expectedRecvNonce := next;
      lastRecvAdvance := now;
      fates := fates + Repeat(Skipped, Monus(resume, from)) + Repeat(Released, next - resume);
    }

    method RecoverStalledGap(now: int) returns (recovered: seq<Action>)
      modifies this
      ensures (View(), recovered) == Spec.RecoverStalledGap(old(View()), now)
    {
      if reorderBuffer == map[] {
        return [];
      }
      var rto := cc.Rto();
      var timeout := Clamp(rto * GAP_RECOVERY_RTO_MULTIPLIER, GAP_RECOVERY_MIN, GAP_RECOVERY_MAX);
      if Since(now, lastRecvAdvance) < timeout {
        return [];
      }
      assert reorderBuffer.Keys != {};
      var resumeAt := LeastKey(reorderBuffer.Keys);
      recovered := Release(resumeAt, now);
      ackPending := true;
    }

    method NoteAuthenticated(nonce: nat)
      modifies this`authenticatedRecvCount, this`highestAuthenticatedRecvNonce
      ensures View() == Noted(old(View()), nonce)
    {
      authenticatedRecvCount := authenticatedRecvCount + 1;
      if highestAuthenticatedRecvNonce.None? || highestAuthenticatedRecvNonce.value < nonce {
        highestAuthenticatedRecvNonce := Some(nonce);
      }
    }

    /** NACKs resend at once and ACKs drop frames, whatever their place in the sequence. */
    method ActOnControl(frame: Frame, nonce: nat, now: int) returns (sends: Option<seq<Action>>)
      modifies this, cc
      ensures (View(), sends) == OnAuthenticated(old(View()), nonce, frame, now)
    {
      NoteAuthenticated(nonce);
      if frame.kind == Nack && |frame.payload| >= 8 {
        var actions := HandleNack(frame.payload, now);
        return Some(actions);
      }
      if frame.kind == Ack {
        var ranges := ParseAckRanges(frame.payload);
        if ranges.None? {
          return None;
        }
        DropAckedFrames(ranges.value, now);
      }
      return Some([]);
    }

    method NackIfDue(now: int) returns (actions: seq<Action>)
      modifies this, cc
      ensures (View(), actions) == Spec.NackIfDue(old(View()), now)
    {
      var rto := cc.Rto();
      var cooldown := Max(rto / 2, 10 * MILLISECOND);
      if Since(now, lastNackSent) < cooldown {
        return [];
      }
      lastNackSent := now;
      var frame := BuildDatagram(Frame(Nack, 0, U64Bytes(expectedRecvNonce)), false, now);
      return [SendDatagram(frame)];
    }

    method SequenceFrame(nonce: nat, action: Action, sends: seq<Action>, now: int) returns (result: Outcome)
      modifies this, cc
      ensures (View(), result) == Sequence(old(View()), nonce, action, sends, now)
    {
      if nonce == expectedRecvNonce {
        expectedRecvNonce := expectedRecvNonce + 1;
        fates := fates + [Released];
        var drained := Release(expectedRecvNonce, now);
        var ack := BuildAckIfDue(now);
        result := Ok(Collate(sends + OptionalSend(ack) + ([action] + drained)));
      } else {
        if |reorderBuffer| < cfg.maxReorderBuffer {
          reorderBuffer := reorderBuffer[nonce := action];
        }
        var nacks := NackIfDue(now);
        var ack := BuildAckIfDue(now);
        result := Ok(Collate(sends + nacks + OptionalSend(ack)));
      }
    }

    method NoteKind(kind: FrameKind)
      modifies this`state, this`ackPending
      ensures View() == AfterKind(old(View()), kind)
    {
      if kind == Close {
        state := Closed;
      }
      if kind == Data || kind == Close || kind == KeepAlive {
        ackPending := true;
      }
    }

    method HandleDataInboundFrame(d: Datagram, now: int) returns (result: Outcome)
      modifies this, cc
      ensures (View(), result) == HandleFrame(old(View()), d, now)
    {
      match d {
        case Runt => return Err(Framing);
        case Headless(_) => return Err(Framing);
        case Datagram(_, nonce, body) =>
          if nonce < expectedRecvNonce {
            var ack := ForceBuildAck(now);
            return Ok(Collate(OptionalSend(ack)));
          }
          if nonce > expectedRecvNonce + cfg.maxReorder {
            var nack := BuildDatagram(Frame(Nack, 0, U64Bytes(expectedRecvNonce)), false, now);
            return Ok(SendDatagram(nack));
          }
          var plain := Decrypt(cfg.recvKey, nonce, cfg.sid, body);
          if plain.None? {
            return Err(Crypto);
          }
          var frame := plain.value;
          var sends := ActOnControl(frame, nonce, now);
          if sends.None? {
            return Err(Framing);
          }
          NoteKind(frame.kind);
          result := SequenceFrame(nonce, ActionOf(frame), sends.value, now);
      }
    }

    method HandleDataInbound(d: Datagram, now: int) returns (result: Outcome)
      modifies this, cc
      ensures (View(), result) == HandleData(old(View()), d, now)
    {
      ghost var before := fates;
      var recovered := RecoverStalledGap(now);
      var inner := HandleDataInboundFrame(d, now);
      match inner {
        case Err(e) =>
          fates := Forfeit(before, fates);
          return Err(e);
        case Ok(action) =>
          return Ok(Splice(recovered, action));
      }
    }

    method HandleInboundDatagram(d: Datagram, now: int) returns (result: Outcome)
      modifies this, cc
      ensures (View(), result) == HandleInbound(old(View()), d, now)
    {
      if d.Runt? {
        return Err(Framing);
      }
      if d.sid != cfg.sid {
        return Err(State);
      }
      if state == Established {
        result := HandleDataInbound(d, now);
      } else {
        return Ok(Noop);
      }
    }

    method BuildTracked(frame: Frame, now: int) returns (result: Outcome)
      modifies this, cc
      ensures View() == Build(old(View()), frame, true, now).0
      ensures result == Ok(SendDatagram(Build(old(View()), frame, true, now).1))
    {
      var d := BuildDatagram(frame, true, now);
      result := Ok(SendDatagram(d));
    }

    /** One event, from any datagram at all: the invariant holds after it as before. */
    method OnEvent(event: Event, now: int) returns (result: Outcome)
      requires Inv(View()) && Headroom(View())
      modifies this, cc
      ensures (View(), result) == Spec.OnEvent(old(View()), event, now)
      ensures Inv(View()) && EventStep(old(View()), View(), result, now)
    {
      AnyEventStep(View(), event, now);
      if state == Closed {
        return Ok(Noop);
      }
      match event {
        case Inbound(d) =>
          result := HandleInboundDatagram(d, now);
        case Outbound(stream, payload) =>
          if state != Established {
            return Ok(Noop);
          }
          result := BuildTracked(Frame(Data, stream, payload), now);
        case Shutdown =>
          if state != Established {
            state := Closed;
            return Ok(Noop);
          }
          state := Closing;
          result := BuildTracked(Frame(Close, 0, []), now);
        case Tick =>
          result := HandleTick(now);
      }
    }

    method OnPathChange(now: int)
      requires Inv(View())
      modifies this, cc
      ensures View() == Spec.OnPathChange(old(View()), now)
      ensures Inv(View())
    {
      PathChangeStep(View(), now);
      cc.ResetPath(now);
      var due := now - PATH_CHANGE_AGE;
      sentHistory := AgeFrames(sentHistory, due);
      lastNackSent, lastAckSent, ackPending := due, due, true;
    }
  }
}
