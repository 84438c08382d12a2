/**
 What an endpoint tells its congestion controller: every tracked datagram it builds,
 every acknowledged byte with the least unambiguous sample, and every request as a
 loss; nothing else. So the bounds proved of controller runs hold of endpoints' controllers.
 */
module ControllerFeed {
  import opened Basics
  import opened Wire
  import opened Congestion
  import opened Endpoint
  import opened EndpointEvents
  import opened TwoEndpoints
  import P = CongestionProofs

  // ---------- Sizes and samples ----------

  /** The least time since a frame never resent was sent: no such frame's is less, and it is one's. */
  ghost predicate LeastSample(h: seq<SentFrame>, now: int, rtt: nat) {
    && (exists i :: 0 <= i < |h| && h[i].retries == 0 && rtt == Since(now, h[i].lastSent))
    && forall i :: 0 <= i < |h| && h[i].retries == 0 ==> rtt <= Since(now, h[i].lastSent)
  }

  /** A sample is taken exactly when some frame was never resent, and it is the least. */
  lemma {:induction false} SampleIsLeast(h: seq<SentFrame>, now: int)
    ensures RttSample(h, now).Some? <==> exists i :: 0 <= i < |h| && h[i].retries == 0
    ensures RttSample(h, now).Some? ==> LeastSample(h, now, RttSample(h, now).value)
  {
    if h != [] {
      var front, f := h[..|h| - 1], h[|h| - 1];
      SampleIsLeast(front, now);
      var before := RttSample(front, now);
      if before.Some? {
        var i :| 0 <= i < |front| && front[i].retries == 0 && before.value == Since(now, front[i].lastSent);
        assert h[i] == front[i];
      }
      if f.retries == 0 { assert h[|h| - 1].retries == 0; }
      assert forall i :: 0 <= i < |front| ==> h[i] == front[i];
    }
  }

  function Sizes(h: seq<SentFrame>): seq<nat> {
    seq(|h|, i requires 0 <= i < |h| => h[i].bytes.Size())
  }

  function Sum(ns: seq<nat>): nat { if ns == [] then 0 else Sum(ns[..|ns| - 1]) + ns[|ns| - 1] }

  /** Acknowledged bytes are the sizes of the frames that leave. */
  lemma {:induction false} SizeIsSum(h: seq<SentFrame>)
    ensures TotalSize(h) == Sum(Sizes(h))
  {
    if h != [] {
      SizeIsSum(h[..|h| - 1]);
      assert Sizes(h)[..|h| - 1] == Sizes(h[..|h| - 1]);
    }
  }

  // ---------- One event ----------

  /** What an ACK that names these frames tells the controller. */
  function AckEvents(covered: seq<SentFrame>, now: int): seq<P.Timed> {
    var bytes, sample := Sum(Sizes(covered)), RttSample(covered, now);
    if bytes == 0 then []
    else if sample.Some? then [P.At(P.AckRtt(bytes, sample.value), now)]
    else [P.At(P.AckNoRtt(bytes), now)]
  }

  /** What a request for this nonce costs: the size of the frame, or 1200 bytes if it is held no more. */
  function RequestedSize(h: seq<SentFrame>, nonce: nat): nat {
    match FindSent(h, nonce) case Some(i) => h[i].bytes.Size() case None => 1200
  }

  function FrameEvents(s: Endpoint, f: Frame, now: int): seq<P.Timed> {
    if f.kind == Nack && |f.payload| >= 8 then [P.At(P.Loss(RequestedSize(s.history, FromBe(f.payload[..8]))), now)]
    else if f.kind == Ack && ParseAck(f.payload).Some? then
      AckEvents(Where(s.history, Named(ParseAck(f.payload).value)), now)
    else []
  }

  /** What one event of an endpoint tells its controller. */
  function Events(s: Endpoint, e: Event, now: int): seq<P.Timed> {
    if s.state != Established then []
    else
      match e
      case Outbound(stream, payload) => [P.At(P.Send(Seal(s.cfg, s.sendNonce, Frame(Data, stream, payload)).Size()), now)]
      case Shutdown => [P.At(P.Send(Seal(s.cfg, s.sendNonce, Frame(Close, 0, [])).Size()), now)]
      case Tick => []
      case Inbound(d) =>
        if !d.Datagram? || d.sid != s.cfg.sid then []
        else
          match Opened(RecoverStalledGap(s, now).0, d)
          case None => []
          case Some(f) => FrameEvents(s, f, now)
  }

  lemma AfterOne(c: Controller, e: P.Timed)
    ensures P.After(c, [e]) == P.Apply(c, e) && P.After(c, []) == c
  {
    assert [e][..0] == [];
    assert P.After(c, [e]) == P.Apply(P.After(c, []), e);
  }

  lemma RequestFeeds(s: Endpoint, payload: Bytes, now: int)
    requires |payload| >= 8
    ensures OnNack(s, payload, now).0.cc == s.cc.OnLoss(RequestedSize(s.history, FromBe(payload[..8])), now)
  {
  }

  lemma AckFeeds(s: Endpoint, ranges: seq<Range>, now: int)
    ensures DropAckedFrames(s, ranges, now).cc == P.After(s.cc, AckEvents(Where(s.history, Named(ranges)), now))
  {
    var covered := Where(s.history, Named(ranges));
    SizeIsSum(covered);
    var events := AckEvents(covered, now);
    if events != [] { AfterOne(s.cc, events[0]); }
  }

  lemma HeardFeeds(s: Endpoint, nonce: nat, f: Frame, now: int)
    ensures OnAuthenticated(s, nonce, f, now).0.cc == P.After(s.cc, FrameEvents(s, f, now))
  {
    var a := Noted(s, nonce);
    if f.kind == Nack && |f.payload| >= 8 {
      RequestFeeds(a, f.payload, now);
      AfterOne(s.cc, FrameEvents(s, f, now)[0]);
    } else if f.kind == Ack && ParseAck(f.payload).Some? {
      AckFeeds(a, ParseAck(f.payload).value, now);
    }
  }

  lemma BuildControlFeeds(s: Endpoint, f: Frame, now: int)
    ensures Build(s, f, false, now).0.cc == s.cc
  {
  }

  lemma SequenceFeedsNothing(s: Endpoint, nonce: nat, action: Action, sends: seq<Action>, now: int)
    ensures Sequence(s, nonce, action, sends, now).0.cc == s.cc
  {
    AcceptFeedsNothing(s, action, now);
    GapFeedsNothing(s, nonce, action, now);
    AckFeedsNothing(AcceptInOrder(s, action, now).0, now);
    AckFeedsNothing(BufferBeyondGap(s, nonce, action, now).0, now);
  }

  lemma AcceptFeedsNothing(s: Endpoint, action: Action, now: int)
    ensures AcceptInOrder(s, action, now).0.cc == s.cc
  {
  }

  lemma GapFeedsNothing(s: Endpoint, nonce: nat, action: Action, now: int)
    ensures BufferBeyondGap(s, nonce, action, now).0.cc == s.cc
  {
    var b := Inserted(s, nonce, action);
    assert b.cc == s.cc;
    BuildControlFeeds(b.(lastNackSent := now), NackFrame(b.expected), now);
  }

  lemma AckFeedsNothing(s: Endpoint, now: int)
    ensures BuildAckIfDue(s, now).0.cc == s.cc
  {
    BuildControlFeeds(s, Frame(Ack, 0, BuildAckPayload(s)), now);
  }

  lemma FrameFeeds(s: Endpoint, d: Datagram, now: int)
    ensures HandleFrame(s, d, now).0.cc
            == match Opened(s, d) case None => s.cc case Some(f) => P.After(s.cc, FrameEvents(s, f, now))
  {
    if Opened(s, d).Some? {
      var f := Opened(s, d).value;
      HeardFeeds(s, d.nonce, f, now);
      var (a, sends) := OnAuthenticated(s, d.nonce, f, now);
      if sends.Some? { SequenceFeedsNothing(AfterKind(a, f.kind), d.nonce, ActionOf(f), sends.value, now); }
    } else {
      UnopenedFeedsNothing(s, d, now);
    }
  }

  lemma UnopenedFeedsNothing(s: Endpoint, d: Datagram, now: int)
    requires Opened(s, d).None?
    ensures HandleFrame(s, d, now).0.cc == s.cc
  {
  }

  lemma InboundFeeds(s: Endpoint, d: Datagram, now: int)
    requires s.state == Established
    ensures OnEvent(s, Inbound(d), now).0.cc == P.After(s.cc, Events(s, Inbound(d), now))
  {
    var r := RecoverStalledGap(s, now).0;
    assert r.cc == s.cc && r.history == s.history && r.cfg == s.cfg;
    if !d.Runt? && d.sid == s.cfg.sid {
      FrameFeeds(r, d, now);
      if Opened(r, d).Some? { SameFeed(s, r, Opened(r, d).value, now); }
    }
  }

  lemma SameFeed(s: Endpoint, r: Endpoint, f: Frame, now: int)
    requires r.history == s.history
    ensures FrameEvents(r, f, now) == FrameEvents(s, f, now)
  {
  }

  lemma BuildFeeds(s: Endpoint, f: Frame, now: int)
    ensures Build(s, f, true, now).0.cc == s.cc.OnSend(Seal(s.cfg, s.sendNonce, f).Size(), now)
  {
  }

  lemma TickFeedsNothing(s: Endpoint, now: int)
    ensures HandleTick(s, now).0.cc == s.cc
  {
    BuildControlFeeds(s, Frame(Ack, 0, BuildAckPayload(s)), now);
  }

  /** The controller after any event is the controller before it after exactly what the event tells it. */
  lemma EventFeeds(s: Endpoint, e: Event, now: int)
    ensures OnEvent(s, e, now).0.cc == P.After(s.cc, Events(s, e, now))
  {
    if s.state != Established {
      if e.Tick? { TickFeedsNothing(s, now); }
    } else {
      match e
      case Inbound(d) => InboundFeeds(s, d, now);
      case Outbound(stream, payload) =>
        BuildFeeds(s, Frame(Data, stream, payload), now);
        AfterOne(s.cc, Events(s, e, now)[0]);
      case Shutdown =>
        BuildFeeds(s.(state := Closing), Frame(Close, 0, []), now);
        AfterOne(s.cc, Events(s, e, now)[0]);
      case Tick => TickFeedsNothing(s, now);
    }
  }

  // ---------- Over runs ----------

  lemma {:induction false} AfterConcat(c: Controller, a: seq<P.Timed>, b: seq<P.Timed>)
    ensures P.After(c, a + b) == P.After(P.After(c, a), b)
  {
    if b == [] {
      assert a + b == a;
    } else {
      assert (a + b)[..|a + b| - 1] == a + b[..|b| - 1];
      AfterConcat(c, a, b[..|b| - 1]);
    }
  }

  /** The controller is one that a run of its own reaches. */
  ghost predicate Driven(c: Controller) {
    exists mtu: Mtu, start: int, run: seq<P.Timed> :: c == P.After(Fresh(mtu, start), run)
  }

  lemma DrivenOn(c: Controller, more: seq<P.Timed>)
    requires Driven(c)
    ensures Driven(P.After(c, more))
  {
    var mtu: Mtu, start: int, run: seq<P.Timed> :| c == P.After(Fresh(mtu, start), run);
    AfterConcat(Fresh(mtu, start), run, more);
  }

  lemma MoveDrives(x: Side, m: Move, now: int)
    requires Driven(x.ep.cc)
    ensures Driven(Moved(x, m, now).ep.cc)
  {
    match m
    case PathChanges =>
      AfterOne(x.ep.cc, P.At(P.PathReset, now));
      DrivenOn(x.ep.cc, [P.At(P.PathReset, now)]);
    case Occurs(e) =>
      EventFeeds(x.ep, e, now);
      DrivenOn(x.ep.cc, Events(x.ep, e, now));
  }

  lemma NextDrives(w: World, w': World)
    requires TwoEndpoints.Next(w, w') && Driven(w.a.ep.cc) && Driven(w.b.ep.cc)
    ensures Driven(w'.a.ep.cc) && Driven(w'.b.ep.cc)
  {
    var m :| AMoves(w, m, w') || BMoves(w, m, w');
    if AMoves(w, m, w') { MoveDrives(w.a, m, w'.now); } else { MoveDrives(w.b, m, w'.now); }
  }

  lemma FreshIsDriven(mtu: Mtu, start: int)
    ensures Driven(Fresh(mtu, start))
  {
    assert P.After(Fresh(mtu, start), []) == Fresh(mtu, start);
  }

  /** In every reachable state of two endpoints both controllers are driven, whatever the network did. */
  lemma {:induction false} ControllersAreDriven(run: seq<World>, i: nat)
    requires Run(run) && i < |run|
    ensures Driven(run[i].a.ep.cc) && Driven(run[i].b.ep.cc)
  {
    if i == 0 {
      var ca: Config, cb: Config, mtuA: Mtu, mtuB: Mtu :|
        && ca.Valid() && cb.Valid() && Linked(ca, cb)
        && run[0].a == Side(Start(ca, mtuA, run[0].now), [], [], []) && run[0].b == Side(Start(cb, mtuB, run[0].now), [], [], []);
      FreshIsDriven(mtuA, run[0].now);
      FreshIsDriven(mtuB, run[0].now);
    } else {
      var k: nat := i - 1;
      ControllersAreDriven(run, k);
      NextDrives(run[k], run[i]);
    }
  }

  /** So in every reachable state each window is between 2 and 1024 packets. */
  lemma EndpointWindowsAreBounded(run: seq<World>, i: nat)
    requires Run(run) && i < |run|
    ensures P.WindowBounded(run[i].a.ep.cc) && P.WindowBounded(run[i].b.ep.cc)
  {
    ControllersAreDriven(run, i);
    DrivenIsBounded(run[i].a.ep.cc);
    DrivenIsBounded(run[i].b.ep.cc);
  }

  lemma DrivenIsBounded(c: Controller)
    requires Driven(c)
    ensures P.WindowBounded(c)
  {
    var mtu: Mtu, start: int, run: seq<P.Timed> :| c == P.After(Fresh(mtu, start), run);
    P.WindowStaysBounded(mtu, start, run);
  }
}
