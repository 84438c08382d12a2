/**
 What the application receives, as a function of what the peer sealed and of what
 became of each nonce.
 */
module EndpointDelivery {
  import opened Basics
  import opened Wire
  import opened Endpoint
  import opened EndpointInvariants
  import opened EndpointSteps
  import opened EndpointEvents

  function DeliveryOf(f: Frame): seq<Delivery> {
    if f.kind == Data then [Delivery(f.stream, f.payload)] else []
  }

  /** The Data payloads among the peer's frames that were released, in nonce order. */
  function Extract(frames: seq<Frame>, fates: seq<Fate>): seq<Delivery>
    requires |fates| <= |frames|
  {
    if fates == [] then []
    else
      var n := |fates| - 1;
      Extract(frames, fates[..n]) + if fates[n] == Released then DeliveryOf(frames[n]) else []
  }

  /** The nonces behind those payloads. */
  function ExtractNonces(frames: seq<Frame>, fates: seq<Fate>): seq<nat>
    requires |fates| <= |frames|
  {
    if fates == [] then []
    else
      var n := |fates| - 1;
      ExtractNonces(frames, fates[..n]) + if fates[n] == Released && frames[n].kind == Data then [n] else []
  }

  /** Every Data payload, in nonce order. */
  function DataPayloads(frames: seq<Frame>): seq<Delivery> {
    if frames == [] then [] else DataPayloads(frames[..|frames| - 1]) + DeliveryOf(frames[|frames| - 1])
  }

  /** Deliveries carry strictly increasing nonces, each the Data payload sealed under its nonce. */
  lemma {:induction false} DeliveriesIncrease(frames: seq<Frame>, fates: seq<Fate>)
    requires |fates| <= |frames|
    ensures var ns, out := ExtractNonces(frames, fates), Extract(frames, fates);
            && |ns| == |out| && Ascending(ns)
            && forall i :: 0 <= i < |ns| ==>
                 && ns[i] < |fates| && fates[ns[i]] == Released && frames[ns[i]].kind == Data
                 && out[i] == Delivery(frames[ns[i]].stream, frames[ns[i]].payload)
  {
    if fates != [] {
      DeliveriesIncrease(frames, fates[..|fates| - 1]);
    }
  }

  ghost predicate AllReleased(fates: seq<Fate>) {
    forall i :: 0 <= i < |fates| ==> fates[i] == Released
  }

  /** With nothing skipped or dropped, the application has exactly the peer's prefix. */
  lemma {:induction false} ReleasedIsPrefix(frames: seq<Frame>, fates: seq<Fate>)
    requires |fates| <= |frames| && AllReleased(fates)
    ensures Extract(frames, fates) == DataPayloads(frames[..|fates|])
  {
    if fates != [] {
      var n := |fates| - 1;
      ReleasedIsPrefix(frames, fates[..n]);
      assert frames[..n + 1][..n] == frames[..n];
    } else {
      assert frames[..0] == [];
    }
  }

  lemma {:induction false} ExtractOfLonger(frames: seq<Frame>, longer: seq<Frame>, fates: seq<Fate>)
    requires |fates| <= |frames| && frames <= longer
    ensures Extract(longer, fates) == Extract(frames, fates)
  {
    if fates != [] { ExtractOfLonger(frames, longer, fates[..|fates| - 1]); }
  }

  lemma {:induction false} ExtractLost(frames: seq<Frame>, fates: seq<Fate>, tail: seq<Fate>)
    requires |fates| + |tail| <= |frames|
    requires forall i :: 0 <= i < |tail| ==> tail[i] != Released
    ensures Extract(frames, fates + tail) == Extract(frames, fates)
  {
    if tail == [] {
      assert fates + tail == fates;
    } else {
      assert (fates + tail)[..|fates + tail| - 1] == fates + tail[..|tail| - 1];
      ExtractLost(frames, fates, tail[..|tail| - 1]);
    }
  }

  /** Releasing a run of frames hands over exactly their payloads. */
  lemma {:induction false} ExtractReleased(frames: seq<Frame>, fates: seq<Fate>, acts: seq<Action>)
    requires |fates| + |acts| <= |frames|
    requires forall i :: 0 <= i < |acts| ==> acts[i] == ActionOf(frames[|fates| + i])
    ensures Extract(frames, fates + Repeat(Released, |acts|)) == Extract(frames, fates) + AllDeliveries(acts)
  {
    var tail := Repeat(Released, |acts|);
    if acts == [] {
      assert fates + tail == fates;
    } else {
      var k := |acts| - 1;
      assert (fates + tail)[..|fates| + k] == fates + Repeat(Released, k);
      ExtractReleased(frames, fates, acts[..k]);
      assert Deliveries(acts[k]) == DeliveryOf(frames[|fates| + k]);
    }
  }

  /** What `s` buffers are the peer's own frames. */
  ghost predicate Mirrors(s: Endpoint, frames: seq<Frame>) {
    && s.expected <= |frames|
    && forall k :: k in s.reorder ==> k < |frames| && s.reorder[k] == ActionOf(frames[k])
  }

  /** If `d` opens at `s`, it is the peer's frame for its nonce. */
  ghost predicate Genuine(s: Endpoint, d: Datagram, frames: seq<Frame>) {
    d.Datagram? ==>
      var f := Decrypt(s.cfg.recvKey, d.nonce, s.cfg.sid, d.body);
      f.Some? ==> d.nonce < |frames| && f.value == frames[d.nonce]
  }

  ghost function Handed(result: Outcome): seq<Delivery> {
    match result case Ok(a) => Deliveries(a) case Err(_) => []
  }

  ghost predicate Delivers(s: Endpoint, t: Endpoint, handed: seq<Delivery>, frames: seq<Frame>)
    requires |s.fates| <= |frames| && |t.fates| <= |frames|
  {
    Extract(frames, t.fates) == Extract(frames, s.fates) + handed
  }

  lemma ReleaseDelivers(s: Endpoint, resume: nat, now: int, frames: seq<Frame>)
    requires |s.fates| == s.expected <= resume <= |frames| && Mirrors(s, frames)
    requires forall k :: k in s.reorder ==> resume <= k
    ensures var (t, acts) := ReleaseFrom(s, resume, now);
            Mirrors(t, frames) && |t.fates| == t.expected && Delivers(s, t, AllDeliveries(acts), frames)
  {
    var (t, acts) := ReleaseFrom(s, resume, now);
    var e := DrainEnd(s.reorder, resume);
    if e > resume { assert e - 1 in s.reorder; }
    var skipped := s.fates + Repeat(Skipped, resume - s.expected);
    ExtractLost(frames, s.fates, Repeat(Skipped, resume - s.expected));
    forall i | 0 <= i < |acts|
      ensures acts[i] == ActionOf(frames[|skipped| + i])
    {
      assert resume + i in s.reorder;
    }
    ExtractReleased(frames, skipped, acts);
    assert t.fates == skipped + Repeat(Released, |acts|);
  }

  lemma RecoverDelivers(s: Endpoint, now: int, frames: seq<Frame>)
    requires RecvInv(s) && Mirrors(s, frames)
    ensures var (t, acts) := RecoverStalledGap(s, now);
            Mirrors(t, frames) && |t.fates| == t.expected && Delivers(s, t, AllDeliveries(acts), frames)
  {
    if Stalled(s, now) {
      ReleaseDelivers(s, Least(s.reorder.Keys), now, frames);
    } else {
      assert Extract(frames, s.fates) + [] == Extract(frames, s.fates);
    }
  }

  lemma OneReleased(s: Endpoint, m: Endpoint, frames: seq<Frame>)
    requires |s.fates| == s.expected < |frames| && m.fates == s.fates + [Released]
    ensures Delivers(s, m, AllDeliveries([ActionOf(frames[s.expected])]), frames)
  {
    assert s.fates + [Released] == s.fates + Repeat(Released, 1);
    ExtractReleased(frames, s.fates, [ActionOf(frames[s.expected])]);
  }

  lemma AcceptDelivers(s: Endpoint, now: int, frames: seq<Frame>)
    requires RecvInv(s) && Mirrors(s, frames) && s.expected < |frames|
    ensures var (t, acts) := AcceptInOrder(s, ActionOf(frames[s.expected]), now);
            Mirrors(t, frames) && |t.fates| == t.expected && Delivers(s, t, AllDeliveries(acts), frames)
  {
    var action := ActionOf(frames[s.expected]);
    var m := s.(expected := s.expected + 1, fates := s.fates + [Released]);
    OneReleased(s, m, frames);
    ReleaseDelivers(m, s.expected + 1, now, frames);
    var (t, rest) := ReleaseFrom(m, s.expected + 1, now);
    AllDeliveriesConcat([action], rest);
    DeliversTransitive(s, m, t, AllDeliveries([action]), AllDeliveries(rest), frames);
  }

  // ---------- Whole events ----------

  lemma TwoDeliveries(a: seq<Action>, b: seq<Action>, c: seq<Action>, now: int)
    requires AllDeliveries(a) == [] && AllDeliveries(b) == []
    ensures Deliveries(Collate(a + b + c)) == AllDeliveries(c)
  {
    AllDeliveriesConcat(a, b);
    AllDeliveriesConcat(a + b, c);
    CollateMeaning(a + b + c, now);
  }

  lemma InOrderDelivers(s: Endpoint, sends: seq<Action>, now: int, frames: seq<Frame>)
    requires Inv(s) && Within(s, U64_MAX) && s.expected < U64_MAX
    requires Mirrors(s, frames) && s.expected < |frames| && AllDeliveries(sends) == []
    ensures var (t, result) := Sequence(s, s.expected, ActionOf(frames[s.expected]), sends, now);
            Mirrors(t, frames) && |t.fates| == t.expected && Delivers(s, t, Handed(result), frames)
  {
    var action := ActionOf(frames[s.expected]);
    var (m, acts) := AcceptInOrder(s, action, now);
    AcceptStep(s, action, now);
    AcceptDelivers(s, now, frames);
    assert Within(m, U64_MAX);
    AckIfDueStep(m, now);
    var (t, ack) := BuildAckIfDue(m, now);
    TwoDeliveries(sends, OptionalSend(ack), acts, now);
  }

  lemma BeyondGapDelivers(s: Endpoint, nonce: nat, sends: seq<Action>, now: int, frames: seq<Frame>)
    requires Inv(s) && Within(s, U64_MAX) && s.expected < nonce <= s.expected + s.cfg.maxReorder && nonce < U64_MAX
    requires Mirrors(s, frames) && nonce < |frames| && AllDeliveries(sends) == []
    ensures var (t, result) := Sequence(s, nonce, ActionOf(frames[nonce]), sends, now);
            Mirrors(t, frames) && |t.fates| == t.expected && Delivers(s, t, Handed(result), frames)
  {
    var (m, nacks) := BufferBeyondGap(s, nonce, ActionOf(frames[nonce]), now);
    BufferStep(s, nonce, ActionOf(frames[nonce]), now);
    assert Within(m, U64_MAX);
    AckIfDueStep(m, now);
    var (t, ack) := BuildAckIfDue(m, now);
    TwoDeliveries(sends, nacks, OptionalSend(ack), now);
    assert Extract(frames, s.fates) + [] == Extract(frames, s.fates);
  }

  lemma AcceptedDelivers(s: Endpoint, d: Datagram, now: int, frames: seq<Frame>)
    requires Inv(s) && Within(s, U64_MAX) && Mirrors(s, frames)
    requires d.Datagram? && s.expected <= d.nonce <= s.expected + s.cfg.maxReorder && d.nonce < U64_MAX
    requires d.nonce < |frames| && Decrypt(s.cfg.recvKey, d.nonce, s.cfg.sid, d.body) == Some(frames[d.nonce])
    ensures var (t, result) := HandleFrame(s, d, now);
            && Mirrors(t, frames) && |t.fates| == t.expected && Delivers(s, t, Handed(result), frames)
            && (result.Err? ==> t.fates == s.fates)
  {
    var f := frames[d.nonce];
    AuthenticatedStep(s, d, f, now);
    var (a, sends) := OnAuthenticated(s, d.nonce, f, now);
    assert Extract(frames, s.fates) + [] == Extract(frames, s.fates);
    if sends.Some? {
      var b := AfterKind(a, f.kind);
      QuietStep(a, b);
      if d.nonce == s.expected {
        InOrderDelivers(b, sends.value, now, frames);
      } else {
        BeyondGapDelivers(b, d.nonce, sends.value, now, frames);
      }
    }
  }

  lemma FrameDelivers(s: Endpoint, d: Datagram, now: int, frames: seq<Frame>)
    requires Inv(s) && Within(s, U64_MAX) && s.expected + s.cfg.maxReorder < U64_MAX
    requires Mirrors(s, frames) && Genuine(s, d, frames)
    ensures var (t, result) := HandleFrame(s, d, now);
            && Mirrors(t, frames) && |t.fates| == t.expected && Delivers(s, t, Handed(result), frames)
            && (result.Err? ==> t.fates == s.fates)
  {
    assert Extract(frames, s.fates) + [] == Extract(frames, s.fates);
    if d.Datagram? {
      if d.nonce < s.expected {
        ForceAckStep(s, now);
        CollateMeaning(OptionalSend(ForceBuildAck(s, now).1), now);
      } else if d.nonce > s.expected + s.cfg.maxReorder {
        BuildStep(s, NackFrame(s.expected), false, now);
      } else if Decrypt(s.cfg.recvKey, d.nonce, s.cfg.sid, d.body).Some? {
        AcceptedDelivers(s, d, now, frames);
      }
    }
  }

  lemma ForfeitDelivers(frames: seq<Frame>, before: seq<Fate>, after: seq<Fate>)
    requires |after| <= |frames| && before <= after
    ensures Extract(frames, Forfeit(before, after)) == Extract(frames, before)
  {
    var tail := Forfeit(before, after)[|before|..];
    assert Forfeit(before, after) == before + tail;
    ExtractLost(frames, before, tail);
  }

  lemma DeliversTransitive(s: Endpoint, r: Endpoint, t: Endpoint, a: seq<Delivery>, b: seq<Delivery>, frames: seq<Frame>)
    requires |s.fates| <= |frames| && |r.fates| <= |frames| && |t.fates| <= |frames|
    requires Delivers(s, r, a, frames) && Delivers(r, t, b, frames)
    ensures Delivers(s, t, a + b, frames)
  {
    assert Extract(frames, s.fates) + a + b == Extract(frames, s.fates) + (a + b);
  }

  lemma RecoveredWithin(s: Endpoint, now: int)
    requires Inv(s) && Headroom(s)
    ensures var r := RecoverStalledGap(s, now).0;
            Inv(r) && s.fates <= r.fates && Within(r, U64_MAX) && r.expected + r.cfg.maxReorder < U64_MAX
  {
    RecoverStep(s, now);
    assert Within(s, s.expected + s.cfg.maxReorder + 1);
  }

  lemma DataDelivers(s: Endpoint, d: Datagram, now: int, frames: seq<Frame>)
    requires Inv(s) && Headroom(s) && Mirrors(s, frames) && Genuine(s, d, frames)
    ensures var (t, result) := HandleData(s, d, now);
            Mirrors(t, frames) && |t.fates| == t.expected && Delivers(s, t, Handed(result), frames)
  {
    var (r, recovered) := RecoverStalledGap(s, now);
    var (t, result) := HandleFrame(r, d, now);
    RecoverDelivers(s, now, frames);
    RecoveredWithin(s, now);
    FrameDelivers(r, d, now, frames);
    if result.Err? {
      ForfeitDelivers(frames, s.fates, t.fates);
      assert Extract(frames, s.fates) + [] == Extract(frames, s.fates);
    } else {
      SpliceMeaning(recovered, result.action, now);
      DeliversTransitive(s, r, t, AllDeliveries(recovered), Deliveries(result.action), frames);
    }
  }

  /** Whatever arrives, the application is handed exactly the payloads newly released. */
  lemma EventDelivers(s: Endpoint, e: Event, now: int, frames: seq<Frame>)
    requires Inv(s) && Headroom(s) && Mirrors(s, frames)
    requires e.Inbound? ==> Genuine(s, e.datagram, frames)
    ensures var (t, result) := OnEvent(s, e, now);
            Mirrors(t, frames) && |t.fates| == t.expected && Delivers(s, t, Handed(result), frames)
  {
    assert Extract(frames, s.fates) + [] == Extract(frames, s.fates);
    if e.Inbound? {
      if s.state == Established && !e.datagram.Runt? && e.datagram.sid == s.cfg.sid {
        DataDelivers(s, e.datagram, now, frames);
      }
    } else {
      AnyEventStep(s, e, now);
      if e.Tick? && s.state != Closed { TickStep(s, now); }
    }
  }

  /** This event is one at which gap recovery acts. */
  ghost predicate Recovers(s: Endpoint, e: Event, now: int) {
    s.state == Established && e.Inbound? && !e.datagram.Runt? && e.datagram.sid == s.cfg.sid && Stalled(s, now)
  }

  lemma FrameReleases(s: Endpoint, d: Datagram, now: int)
    requires Inv(s) && Headroom(s) && AllReleased(s.fates)
    ensures AllReleased(HandleFrame(s, d, now).0.fates)
  {
    HeadroomEncodes(s);
    if d.Datagram? && d.nonce < s.expected {
      ForceAckStep(s, now);
    } else if d.Datagram? && d.nonce <= s.expected + s.cfg.maxReorder
              && Decrypt(s.cfg.recvKey, d.nonce, s.cfg.sid, d.body).Some? {
      AcceptedReleases(s, d, Decrypt(s.cfg.recvKey, d.nonce, s.cfg.sid, d.body).value, now);
    }
  }

  lemma FailingDropsNothing(s: Endpoint, d: Datagram, now: int)
    requires Inv(s) && Headroom(s) && AllReleased(s.fates) && !Stalled(s, now) && HandleFrame(s, d, now).1.Err?
    ensures AllReleased(HandleData(s, d, now).0.fates)
  {
    if d.Datagram? && Opened(s, d).Some? { FailsKeepsFates(s, d, Opened(s, d).value, now); }
  }

  lemma FailsKeepsFates(s: Endpoint, d: Datagram, f: Frame, now: int)
    requires Opened(s, d) == Some(f) && HandleFrame(s, d, now).1.Err?
    ensures HandleFrame(s, d, now).0.fates == s.fates
  {
    assert OnAuthenticated(s, d.nonce, f, now).1.None?;
  }

  lemma DataReleases(s: Endpoint, d: Datagram, now: int)
    requires Inv(s) && Headroom(s) && AllReleased(s.fates) && !Stalled(s, now)
    ensures AllReleased(HandleData(s, d, now).0.fates)
  {
    FrameReleases(s, d, now);
    if HandleFrame(s, d, now).1.Err? { FailingDropsNothing(s, d, now); }
  }

  /** Only recovery makes an event skip or drop anything. */
  lemma NothingLostWithoutRecovery(s: Endpoint, e: Event, now: int)
    requires Inv(s) && Headroom(s) && AllReleased(s.fates) && !Recovers(s, e, now)
    ensures AllReleased(OnEvent(s, e, now).0.fates)
  {
    if e.Inbound? {
      if s.state == Established && !e.datagram.Runt? && e.datagram.sid == s.cfg.sid { DataReleases(s, e.datagram, now); }
    } else {
      AnyEventStep(s, e, now);
    }
  }

  lemma SequenceReleases(s: Endpoint, nonce: nat, f: Frame, sends: seq<Action>, now: int)
    requires Inv(s) && Within(s, U64_MAX) && AllReleased(s.fates)
    requires s.expected <= nonce <= s.expected + s.cfg.maxReorder && nonce < U64_MAX
    ensures AllReleased(Sequence(s, nonce, ActionOf(f), sends, now).0.fates)
  {
    if nonce == s.expected {
      AcceptStep(s, ActionOf(f), now);
      var m := AcceptInOrder(s, ActionOf(f), now).0;
      assert Within(m, U64_MAX);
      AckIfDueStep(m, now);
    } else {
      BufferStep(s, nonce, ActionOf(f), now);
      var m := BufferBeyondGap(s, nonce, ActionOf(f), now).0;
      assert Within(m, U64_MAX);
      AckIfDueStep(m, now);
    }
  }

  lemma AcceptedReleases(s: Endpoint, d: Datagram, f: Frame, now: int)
    requires Inv(s) && Within(s, U64_MAX) && AllReleased(s.fates)
    requires d.Datagram? && s.expected <= d.nonce <= s.expected + s.cfg.maxReorder && d.nonce < U64_MAX
    requires Decrypt(s.cfg.recvKey, d.nonce, s.cfg.sid, d.body) == Some(f)
    ensures AllReleased(HandleFrame(s, d, now).0.fates)
  {
    AuthenticatedStep(s, d, f, now);
    var (a, sends) := OnAuthenticated(s, d.nonce, f, now);
    if sends.Some? {
      var b := AfterKind(a, f.kind);
      QuietStep(a, b);
      SequenceReleases(b, d.nonce, f, sends.value, now);
    }
  }
}
