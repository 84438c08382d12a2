/**
 Where a session's traffic goes: over every run, to the source of the datagram
 that first carried the highest nonce to have authenticated and been processed,
 or to the handshake's address if there was none (section 9.3 of RFC 9000).
 */
module SessionTracking {
  import opened Basics
  import opened Wire
  import opened Congestion
  import opened Sessions
  import opened EndpointEvents
  import E = Endpoint

  // ---------- What an endpoint counts as authenticated ----------

  ghost predicate SameCount(m: E.Endpoint, n: E.Endpoint) {
    n.highestAuthenticated == m.highestAuthenticated && n.authenticatedCount == m.authenticatedCount && n.cfg == m.cfg
  }

  ghost predicate OneMore(m: E.Endpoint, n: E.Endpoint, nonce: nat) {
    && n.highestAuthenticated == E.HighestOf(m.highestAuthenticated, nonce)
    && n.authenticatedCount == m.authenticatedCount + 1 && n.cfg == m.cfg
  }

  /** The datagram opened under the session's key, and the count and the highest nonce took note. */
  ghost predicate Heeded(m: E.Endpoint, n: E.Endpoint, d: Datagram) {
    d.Datagram? && OneMore(m, n, d.nonce) && Decrypt(m.cfg.recvKey, d.nonce, m.cfg.sid, d.body).Some?
  }

  lemma FrameCounts(s: E.Endpoint, d: Datagram, now: int)
    ensures var t := E.HandleFrame(s, d, now).0; SameCount(s, t) || Heeded(s, t, d)
  {
    if d.Datagram? && s.expected <= d.nonce <= s.expected + s.cfg.maxReorder {
      match Decrypt(s.cfg.recvKey, d.nonce, s.cfg.sid, d.body)
      case None =>
      case Some(f) =>
        var (t, sends) := E.OnAuthenticated(s, d.nonce, f, now);
        assert OneMore(s, t, d.nonce);
        match sends
        case None =>
        case Some(sends) =>
          var a := E.AfterKind(t, f.kind);
          assert SameCount(t, a);
          SequenceCounts(a, d.nonce, E.ActionOf(f), sends, now);
    }
  }

  lemma AckCounts(s: E.Endpoint, now: int)
    ensures SameCount(s, E.BuildAckIfDue(s, now).0)
  {
  }

  lemma GapCounts(s: E.Endpoint, nonce: nat, action: E.Action, now: int)
    ensures SameCount(s, E.BufferBeyondGap(s, nonce, action, now).0)
  {
    assert SameCount(s, E.Inserted(s, nonce, action));
  }

  lemma SequenceCounts(s: E.Endpoint, nonce: nat, action: E.Action, sends: seq<E.Action>, now: int)
    ensures SameCount(s, E.Sequence(s, nonce, action, sends, now).0)
  {
    if nonce == s.expected {
      var t := E.AcceptInOrder(s, action, now).0;
      assert SameCount(s, t);
      AckCounts(t, now);
    } else {
      GapCounts(s, nonce, action, now);
      AckCounts(E.BufferBeyondGap(s, nonce, action, now).0, now);
    }
  }

  /** Only a datagram that opens is counted, once, and its nonce noted if it is the highest. */
  lemma EventCounts(s: E.Endpoint, e: E.Event, now: int)
    ensures var t := E.OnEvent(s, e, now).0;
            SameCount(s, t) || (e.Inbound? && Heeded(s, t, e.datagram))
  {
    if s.state != E.Closed {
      match e
      case Inbound(d) =>
        if s.state == E.Established && !d.Runt? && d.sid == s.cfg.sid {
          var r := E.RecoverStalledGap(s, now).0;
          assert SameCount(s, r);
          FrameCounts(r, d, now);
        }
      case Outbound(stream, payload) =>
      case Shutdown =>
      case Tick => TickCounts(s, now);
    }
  }

  lemma TickCounts(s: E.Endpoint, now: int)
    ensures SameCount(s, E.HandleTick(s, now).0)
  {
    var a := E.BuildAckIfDue(s, now).0;
    assert SameCount(s, a);
    assert SameCount(a, E.Retransmit(a, now).0);
  }

  // ---------- The address a trail leads to ----------

  predicate Record(before: seq<Arrival>, nonce: nat) {
    forall i :: 0 <= i < |before| ==> before[i].nonce < nonce
  }

  function Highest(arrivals: seq<Arrival>): Option<nat> {
    if arrivals == [] then None
    else E.HighestOf(Highest(arrivals[..|arrivals| - 1]), arrivals[|arrivals| - 1].nonce)
  }

  lemma {:induction false} RecordIsHigher(arrivals: seq<Arrival>, nonce: nat)
    ensures Record(arrivals, nonce) <==> Highest(arrivals).None? || Highest(arrivals).value < nonce
  {
    if arrivals != [] { RecordIsHigher(arrivals[..|arrivals| - 1], nonce); }
  }

  /** The source of the last arrival that set a record and was processed without error. */
  function Home(t: Trail): Addr
    decreases |t.arrivals|
  {
    if t.arrivals == [] then t.origin
    else
      var last, before := t.arrivals[|t.arrivals| - 1], t.arrivals[..|t.arrivals| - 1];
      if last.ok && Record(before, last.nonce) then last.from else Home(Trail(t.origin, before))
  }

  /** With no failed arrival, home is where the highest nonce was first seen. */
  lemma {:induction false} HomeIsFirstOfHighest(t: Trail) returns (i: nat)
    requires forall k :: 0 <= k < |t.arrivals| ==> t.arrivals[k].ok
    ensures t.arrivals == [] ==> Home(t) == t.origin
    ensures t.arrivals != [] ==> i < |t.arrivals| && Home(t) == t.arrivals[i].from
    ensures forall j :: 0 <= j < |t.arrivals| ==> t.arrivals[j].nonce <= t.arrivals[i].nonce
    ensures forall j :: 0 <= j < i && i < |t.arrivals| ==> t.arrivals[j].nonce < t.arrivals[i].nonce
    decreases |t.arrivals|
  {
    i := 0;
    if t.arrivals != [] {
      var n := |t.arrivals| - 1;
      var before := t.arrivals[..n];
      i := HomeIsFirstOfHighest(Trail(t.origin, before));
      if Record(before, t.arrivals[n].nonce) {
        i := n;
      } else {
        var k :| 0 <= k < n && before[k].nonce >= t.arrivals[n].nonce;
        assert before[k].nonce <= before[i].nonce;
      }
    }
  }

  lemma HomeAfter(t: Trail, a: Arrival)
    ensures var after := Trail(t.origin, t.arrivals + [a]);
            Home(after) == (if a.ok && Record(t.arrivals, a.nonce) then a.from else Home(t))
  {
    assert (t.arrivals + [a])[..|t.arrivals|] == t.arrivals;
  }

  /** What a session remembers is what its trail says. */
  ghost predicate Tracks(p: Peer, t: Trail) {
    && p.machine.highestAuthenticated == Highest(t.arrivals)
    && p.machine.authenticatedCount == |t.arrivals|
    && p.lastAddr == Home(t)
  }

  ghost predicate Tracked(s: Table) {
    && s.trails.Keys == s.peers.Keys
    && forall sid :: sid in s.peers ==> s.peers[sid].machine.cfg.sid == sid && Tracks(s.peers[sid], s.trails[sid])
  }

  // ---------- Every operation keeps the tracks ----------

  /** One session changed, with its trail. */
  lemma UpdateTracks(s: Table, t: Table, sid: nat, q: Peer, trail: Trail)
    requires Tracked(s) && q.machine.cfg.sid == sid && Tracks(q, trail)
    requires t.peers == s.peers[sid := q] && t.trails == s.trails[sid := trail]
    ensures Tracked(t)
  {
  }

  lemma ArrivalTracks(p: Peer, t: Trail, n: E.Endpoint, d: Datagram, from: Addr, ok: bool)
    requires Tracks(p, t) && (SameCount(p.machine, n) || Heeded(p.machine, n, d))
    ensures var after := t.(arrivals := t.arrivals + Heard(p.machine, n, d, from, ok));
            Tracks(p.(machine := n, lastAddr := if ok && Raised(p.machine, n) then from else p.lastAddr), after)
  {
    if SameCount(p.machine, n) {
      assert t.arrivals + [] == t.arrivals;
    } else {
      RecordIsHigher(t.arrivals, d.nonce);
      HomeAfter(t, Arrival(d.nonce, from, ok));
      assert (t.arrivals + [Arrival(d.nonce, from, ok)])[..|t.arrivals|] == t.arrivals;
    }
  }

  /** A processed datagram changes the session's own entries only. */
  lemma SettleShape(s: Table, sid: nat, from: Addr, d: Datagram, size: nat, n: E.Endpoint, result: E.Outcome, now: int)
    requires sid in s.peers
    ensures var t, f := Settle(s, sid, from, d, size, n, result, now).0, Fed(s, sid, from, d, size, n, result.Ok?);
            && sid in t.peers && t.peers == s.peers[sid := t.peers[sid]] && t.trails == f.trails
            && t.peers[sid].machine == n && t.peers[sid].key == s.peers[sid].key
            && t.peers[sid].lastAddr == if result.Ok? && Raised(s.peers[sid].machine, n) then from
                                        else s.peers[sid].lastAddr
  {
    var f := Fed(s, sid, from, d, size, n, result.Ok?);
    assert f.peers == s.peers[sid := s.peers[sid].(machine := n)];
    if result.Ok? {
      var u := if s.peers[sid].lastAddr != from && Raised(s.peers[sid].machine, n) then Roam(f, sid, from) else f;
      assert u.peers == s.peers[sid := u.peers[sid]] && u.trails == f.trails;
      assert Seen(u, sid, from, now).peers == s.peers[sid := Seen(u, sid, from, now).peers[sid]];
    }
  }

  lemma SettleTracks(s: Table, sid: nat, from: Addr, d: Datagram, size: nat, n: E.Endpoint, result: E.Outcome, now: int)
    requires Tracked(s) && sid in s.peers && n.cfg.sid == sid
    requires SameCount(s.peers[sid].machine, n) || Heeded(s.peers[sid].machine, n, d)
    ensures Tracked(Settle(s, sid, from, d, size, n, result, now).0)
  {
    var t := Settle(s, sid, from, d, size, n, result, now).0;
    SettleShape(s, sid, from, d, size, n, result, now);
    ArrivalTracks(s.peers[sid], s.trails[sid], n, d, from, result.Ok?);
    UpdateTracks(s, t, sid, t.peers[sid], t.trails[sid]);
  }

  lemma KnownTracks(s: Table, c: Crypto, sid: nat, from: Addr, packet: Bytes, now: int)
    requires Tracked(s) && sid in s.peers
    ensures Tracked(OnKnown(s, c, sid, from, packet, now).0)
  {
    var p := s.peers[sid];
    if !Barred(s, p.key) {
      var d := c.Unmask(packet, p.secret);
      EventCounts(p.machine, E.Inbound(d), now);
      var (n, result) := E.OnEvent(p.machine, E.Inbound(d), now);
      SettleTracks(Touched(s, p.key), sid, from, d, |packet|, n, result, now);
    }
  }

  lemma StartTracks(cfg: E.Config, mtu: Mtu, now: int, from: Addr, secret: Secret, key: Key)
    ensures Tracks(Peer(E.Start(cfg, mtu, now), from, secret, now, key), Trail(from, []))
    ensures E.Start(cfg, mtu, now).cfg == cfg
  {
  }

  lemma OpenTracks(s: Table, key: Key, secret: Secret, sid: nat, h: Handshake, from: Addr, now: int)
    requires Tracked(s)
    ensures Tracked(Open(s, key, secret, sid, h, from, now).0)
  {
    if !UserOf(s, key).OverLimit() {
      StartTracks(h.cfg.(sid := sid), h.mtu, now, from, secret, key);
      UpdateTracks(s, Open(s, key, secret, sid, h, from, now).0, sid,
                   Peer(E.Start(h.cfg.(sid := sid), h.mtu, now), from, secret, now, key), Trail(from, []));
    }
  }

  lemma AdmitTracks(s: Table, key: Key, secret: Secret, sid: nat, h: Handshake, from: Addr, now: int, wall: nat, oldest: Bytes)
    requires Tracked(s) && |h.payload| >= 12
    ensures Tracked(Admit(s, key, secret, sid, h, from, now, wall, oldest).0)
  {
    var r := MakeRoom(s, wall, oldest);
    assert Tracked(r);
    var t := Touched(r.(replay := r.replay[h.payload := Stamp(h.payload)]), key);
    assert Tracked(t);
    OpenTracks(t, key, secret, sid, h, from, now);
  }

  lemma {:induction false} TryKeysTracks(s: Table, c: Crypto, from: Addr, packet: Bytes, now: int, wall: nat, window: nat,
                                         keys: seq<Key>, oldest: Bytes)
    requires Tracked(s) && |packet| >= 4
    ensures Tracked(TryKeys(s, c, from, packet, now, wall, window, keys, oldest).0)
  {
    if keys != [] {
      TryKeysTracks(s, c, from, packet, now, wall, window, keys[1..], oldest);
      var key := keys[0];
      if c.open(packet, key).Some? && |c.open(packet, key).value.payload| >= 12 {
        AdmitTracks(s, key, c.secretOf(key), c.handshakeSid(packet, c.secretOf(key)), c.open(packet, key).value, from,
                    now, wall, oldest);
      }
    }
  }

  lemma {:induction false} DropAllTracks(s: Table, sids: seq<nat>)
    requires Tracked(s)
    ensures Tracked(DropAll(s, sids))
  {
    if sids != [] { DropAllTracks(s, sids[..|sids| - 1]); }
  }

  lemma {:induction false} TouchAllTracks(s: Table, sids: seq<nat>)
    ensures TouchAll(s, sids) == s.(users := TouchAll(s, sids).users)
  {
    if sids != [] { TouchAllTracks(s, sids[..|sids| - 1]); }
  }

  lemma TickTracks(s: Table, now: int)
    requires Tracked(s)
    ensures Tracked(TickAll(s, now))
  {
    forall sid | sid in s.peers
      ensures SameCount(s.peers[sid].machine, Ticked(s.peers[sid], now).0.machine)
    {
      EventCounts(s.peers[sid].machine, E.Tick, now);
    }
  }

  lemma ClockTracks(s: Table, now: int, wall: nat, choice: Choice)
    requires Tracked(s)
    ensures Tracked(OnTick(s, now, wall, choice).0)
  {
    var q := s.(replay := Recent(s.replay, wall));
    TouchAllTracks(q, choice.sids);
    var r := TouchAll(q, choice.sids);
    DropAllTracks(r, ExpiredOf(q, choice.sids, now));
    TickTracks(DropAll(r, ExpiredOf(q, choice.sids, now)), now);
  }

  lemma SentTracks(s: Table, sid: nat, n: E.Endpoint, result: E.Outcome)
    requires Tracked(s) && sid in s.peers && SameCount(s.peers[sid].machine, n)
    ensures Tracked(Sent(s, sid, n, result).0)
  {
    var t := Sent(s, sid, n, result).0;
    assert t.peers == s.peers[sid := s.peers[sid].(machine := n)];
    assert t.trails == s.trails[sid := s.trails[sid]];
    UpdateTracks(s, t, sid, s.peers[sid].(machine := n), s.trails[sid]);
  }

  lemma OutboundTracks(s: Table, sid: nat, stream: nat, payload: Bytes, now: int)
    requires Tracked(s)
    ensures Tracked(OnOutbound(s, sid, stream, payload, now).0)
  {
    if sid in s.peers {
      var p := s.peers[sid];
      EventCounts(p.machine, E.Outbound(stream, payload), now);
      var (n, result) := E.OnEvent(p.machine, E.Outbound(stream, payload), now);
      SentTracks(s, sid, n, result);
    }
  }

  lemma DropTracks(s: Table, sid: nat)
    requires Tracked(s)
    ensures Tracked(DropSession(s, sid))
  {
  }

  lemma NextTracks(s: Table, c: Crypto, e: Timed)
    requires Tracked(s)
    ensures Tracked(Next(s, c, e))
  {
    match e.input
    case Packet(from, packet, window) => DatagramTracks(s, c, from, packet, e.now, e.wall, window, e.choice);
    case Clock => ClockTracks(s, e.now, e.wall, e.choice);
    case Send(sid, stream, payload) => OutboundTracks(s, sid, stream, payload, e.now);
    case Drop(sid) => DropTracks(s, sid);
    case Limit(key, limit) => SameTracks(s, SetUserLimit(s, key, limit));
    case Rekey(keys) => SameTracks(s, s.(keys := keys));
  }

  lemma DatagramTracks(s: Table, c: Crypto, from: Addr, packet: Bytes, now: int, wall: nat, window: nat, choice: Choice)
    requires Tracked(s)
    ensures Tracked(OnDatagram(s, c, from, packet, now, wall, window, choice).0)
  {
    if |packet| >= 4 {
      var hit := FastPath(s, c, from, packet);
      if hit.Some? {
        KnownTracks(s, c, hit.value, from, packet, now);
      } else {
        StrayTracks(s, c, from, packet, now, wall, window, choice);
      }
    }
  }

  lemma SameTracks(s: Table, t: Table)
    requires Tracked(s) && t.peers == s.peers && t.trails == s.trails
    ensures Tracked(t)
  {
  }

  /** The roaming bucket has no whole token. */
  predicate Dry(s: Table, now: int) { Refilled(s.roamTokens, s.lastRoam, now, ROAMING_RATE) < 1.0 }

  /** The table with the bucket looked at, and with a token taken from it. */
  function Waiting(s: Table, now: int): (r: Table)
    ensures r.peers == s.peers && r.trails == s.trails && r.keys == s.keys && r.users == s.users && r.lost == s.lost
  {
    s.(roamTokens := Refilled(s.roamTokens, s.lastRoam, now, ROAMING_RATE), lastRoam := now)
  }

  function Asking(s: Table, now: int): (r: Table)
    ensures r.peers == s.peers && r.trails == s.trails && r.keys == s.keys && r.users == s.users && r.lost == s.lost
  {
    s.(roamTokens := Refilled(s.roamTokens, s.lastRoam, now, ROAMING_RATE) - 1.0, lastRoam := now, scans := s.scans + 1)
  }

  lemma StrayIs(s: Table, c: Crypto, from: Addr, packet: Bytes, now: int, wall: nat, window: nat, choice: Choice)
    requires |packet| >= 4
    ensures OnStray(s, c, from, packet, now, wall, window, choice)
            == if Dry(s, now) then OnUnknown(Waiting(s, now), c, from, packet, now, wall, window, choice)
               else AskSessions(Asking(s, now), c, from, packet, now, wall, window, choice)
  {
  }

  lemma StrayTracks(s: Table, c: Crypto, from: Addr, packet: Bytes, now: int, wall: nat, window: nat, choice: Choice)
    requires Tracked(s) && |packet| >= 4
    ensures Tracked(OnStray(s, c, from, packet, now, wall, window, choice).0)
  {
    StrayIs(s, c, from, packet, now, wall, window, choice);
    if Dry(s, now) {
      SameTracks(s, Waiting(s, now));
      UnknownTracks(Waiting(s, now), c, from, packet, now, wall, window, choice);
    } else {
      SameTracks(s, Asking(s, now));
      AskTracks(Asking(s, now), c, from, packet, now, wall, window, choice);
    }
  }

  lemma AskTracks(s: Table, c: Crypto, from: Addr, packet: Bytes, now: int, wall: nat, window: nat, choice: Choice)
    requires Tracked(s) && |packet| >= 4
    ensures Tracked(AskSessions(s, c, from, packet, now, wall, window, choice).0)
  {
    UnknownTracks(s, c, from, packet, now, wall, window, choice);
    var found := ScanPeers(s.peers, c, packet, choice.sids);
    if found.Some? { KnownTracks(s, c, found.value, from, packet, now); }
  }

  lemma UnknownTracks(s: Table, c: Crypto, from: Addr, packet: Bytes, now: int, wall: nat, window: nat, choice: Choice)
    requires Tracked(s) && |packet| >= 4
    ensures Tracked(OnUnknown(s, c, from, packet, now, wall, window, choice).0)
  {
    var tokens := Refilled(s.trialTokens, s.lastTrial, now, TRIAL_RATE);
    var r := s.(trialTokens := tokens, lastTrial := now);
    TryKeysTracks(r.(trialTokens := tokens - 1.0, trials := s.trials + 1), c, from, packet, now, wall, window, choice.keys,
                  choice.oldest);
  }

  // ---------- Over runs ----------

  /** In every reachable table, every session is where its trail leads. */
  lemma {:induction false} SessionsStayHome(keys: map<Key, Option<nat>>, start: int, c: Crypto, es: seq<Timed>, t: Table)
    requires Run(New(keys, start), c, es, t)
    ensures Tracked(t)
  {
    if es != [] {
      var e := es[|es| - 1];
      var m :| Run(New(keys, start), c, es[..|es| - 1], m) && Fair(m, e.wall, e.choice) && t == Next(m, c, e);
      SessionsStayHome(keys, start, c, es[..|es| - 1], m);
      NextTracks(m, c, e);
    }
  }

  /**
   In every reachable table, while no authenticated datagram of a session has failed
   to process, the session's address is the source of the first datagram that carried
   its highest nonce, or the handshake's address if none has authenticated.
   */
  lemma RoamingInvariant(keys: map<Key, Option<nat>>, start: int, c: Crypto, es: seq<Timed>, t: Table, sid: nat)
    returns (i: nat)
    requires Run(New(keys, start), c, es, t)
    requires sid in t.peers && sid in t.trails
    requires forall k :: 0 <= k < |t.trails[sid].arrivals| ==> t.trails[sid].arrivals[k].ok
    ensures var p, a := t.peers[sid], t.trails[sid].arrivals;
            && (a == [] ==> p.lastAddr == t.trails[sid].origin && p.machine.highestAuthenticated == None)
            && (a != [] ==> i < |a| && p.lastAddr == a[i].from)
            && (forall j :: 0 <= j < |a| ==> a[j].nonce <= a[i].nonce)
            && (forall j :: 0 <= j < i && i < |a| ==> a[j].nonce < a[i].nonce)
  {
    SessionsStayHome(keys, start, c, es, t);
    i := HomeIsFirstOfHighest(t.trails[sid]);
  }

  /** The frame this datagram authenticates as, at this instant. */
  function HeardAs(m: E.Endpoint, d: Datagram, now: int): Option<Frame> {
    if m.state == E.Established && d.Datagram? && d.sid == m.cfg.sid then Opened(E.RecoverStalledGap(m, now).0, d) else None
  }

  lemma OpenedCounts(s: E.Endpoint, d: Datagram, f: Frame, now: int)
    requires Opened(s, d) == Some(f)
    ensures OneMore(s, E.HandleFrame(s, d, now).0, d.nonce)
  {
    var (t, sends) := E.OnAuthenticated(s, d.nonce, f, now);
    assert OneMore(s, t, d.nonce);
    if sends.Some? { SequenceCounts(E.AfterKind(t, f.kind), d.nonce, E.ActionOf(f), sends.value, now); }
  }

  lemma UnopenedCounts(s: E.Endpoint, d: Datagram, now: int)
    requires d.Datagram? && Opened(s, d).None?
    ensures SameCount(s, E.HandleFrame(s, d, now).0)
  {
  }

  lemma FrameCountsIff(s: E.Endpoint, d: Datagram, now: int)
    requires d.Datagram?
    ensures var t := E.HandleFrame(s, d, now).0; if Opened(s, d).Some? then OneMore(s, t, d.nonce) else SameCount(s, t)
  {
    if Opened(s, d).Some? {
      OpenedCounts(s, d, Opened(s, d).value, now);
    } else {
      UnopenedCounts(s, d, now);
    }
  }

  /** A datagram is counted exactly when it authenticates. */
  lemma CountsIff(m: E.Endpoint, d: Datagram, now: int)
    ensures var n := E.OnEvent(m, E.Inbound(d), now).0;
            if HeardAs(m, d, now).Some? then OneMore(m, n, d.nonce) else SameCount(m, n)
  {
    EventCounts(m, E.Inbound(d), now);
    if m.state == E.Established && d.Datagram? && d.sid == m.cfg.sid {
      var r := E.RecoverStalledGap(m, now).0;
      assert SameCount(m, r);
      FrameCountsIff(r, d, now);
    }
  }

  /** It authenticates, with a nonce above every one heard before. */
  ghost predicate SetsRecord(p: Peer, t: Trail, d: Datagram, now: int) {
    HeardAs(p.machine, d, now).Some? && Record(t.arrivals, d.nonce)
  }

  lemma RaisedIff(p: Peer, t: Trail, d: Datagram, now: int)
    requires Tracks(p, t)
    ensures Raised(p.machine, E.OnEvent(p.machine, E.Inbound(d), now).0) <==> SetsRecord(p, t, d, now)
  {
    CountsIff(p.machine, d, now);
    if HeardAs(p.machine, d, now).Some? { RecordIsHigher(t.arrivals, d.nonce); }
  }

  lemma HeardFailsIff(m: E.Endpoint, d: Datagram, now: int)
    requires HeardAs(m, d, now).Some?
    ensures E.OnEvent(m, E.Inbound(d), now).1.Err? <==> TruncatedAck(HeardAs(m, d, now).value)
  {
    OpenedFailsIff(m, d, now);
  }

  /**
   A datagram from elsewhere moves a live session if and only if it authenticates
   with a nonce above every one heard before and is not a truncated ACK; so a copy, a
   late one and a forgery leave the session where it was. A record raises the highest
   nonce whether or not the session moves.
   */
  lemma MovesIff(s: Table, c: Crypto, sid: nat, from: Addr, packet: Bytes, now: int)
    requires Tracked(s) && sid in s.peers && !Barred(s, s.peers[sid].key) && from != s.peers[sid].lastAddr
    ensures var p, trail := s.peers[sid], s.trails[sid];
            var d := c.Unmask(packet, p.secret);
            var (t, out) := OnKnown(s, c, sid, from, packet, now);
            && sid in t.peers
            && (t.peers[sid].lastAddr == from
                <==> SetsRecord(p, trail, d, now) && !TruncatedAck(HeardAs(p.machine, d, now).value))
            && (t.peers[sid].lastAddr == p.lastAddr || t.peers[sid].lastAddr == from)
            && (SetsRecord(p, trail, d, now) ==> t.peers[sid].machine.highestAuthenticated == Some(d.nonce))
  {
    var p, trail := s.peers[sid], s.trails[sid];
    var d := c.Unmask(packet, p.secret);
    var (n, result) := E.OnEvent(p.machine, E.Inbound(d), now);
    SettleShape(Touched(s, p.key), sid, from, d, |packet|, n, result, now);
    RaisedIff(p, trail, d, now);
    if SetsRecord(p, trail, d, now) {
      CountsIff(p.machine, d, now);
      RecordIsHigher(trail.arrivals, d.nonce);
      HeardFailsIff(p.machine, d, now);
    }
  }

  // ---------- Where a datagram goes ----------

  /**
   The live session a datagram is handed to: the one last seen at its source if the
   packet unmasks to it, otherwise the first in walk order that it unmasks to, if the
   roaming bucket still has a token.
   */
  function Route(s: Table, c: Crypto, from: Addr, packet: Bytes, now: int, choice: Choice): Option<nat> {
    if |packet| < 4 then None
    else if FastPath(s, c, from, packet).Some? then FastPath(s, c, from, packet)
    else if Refilled(s.roamTokens, s.lastRoam, now, ROAMING_RATE) < 1.0 then None
    else ScanPeers(s.peers, c, packet, choice.sids)
  }

  /** Session `sid` is untouched, or a handshake has taken its id over. */
  ghost predicate Untouched(s: Table, t: Table, sid: nat) {
    (sid in s.peers && sid in t.peers && t.peers[sid] == s.peers[sid]) || |t.lost| > |s.lost|
  }

  lemma AdmitLeaves(s: Table, key: Key, secret: Secret, sid: nat, h: Handshake, from: Addr, now: int, wall: nat, oldest: Bytes,
                    other: nat)
    requires |h.payload| >= 12 && other in s.peers
    ensures Untouched(s, Admit(s, key, secret, sid, h, from, now, wall, oldest).0, other)
  {
  }

  lemma TryKeyLeaves(s: Table, c: Crypto, from: Addr, packet: Bytes, now: int, wall: nat, window: nat, key: Key,
                     oldest: Bytes, sid: nat)
    requires |packet| >= 4 && sid in s.peers
    ensures var r := TryKey(s, c, from, packet, now, wall, window, key, oldest); r.Some? ==> Untouched(s, r.value.0, sid)
  {
    var secret := c.secretOf(key);
    var h := c.open(packet, key);
    if h.Some? && |h.value.payload| >= 12 {
      AdmitLeaves(s, key, secret, c.handshakeSid(packet, secret), h.value, from, now, wall, oldest, sid);
    }
  }

  lemma {:induction false} TryKeysLeave(s: Table, c: Crypto, from: Addr, packet: Bytes, now: int, wall: nat, window: nat,
                                        keys: seq<Key>, oldest: Bytes, sid: nat)
    requires |packet| >= 4 && sid in s.peers
    ensures Untouched(s, TryKeys(s, c, from, packet, now, wall, window, keys, oldest).0, sid)
  {
    if keys != [] {
      TryKeyLeaves(s, c, from, packet, now, wall, window, keys[0], oldest, sid);
      TryKeysLeave(s, c, from, packet, now, wall, window, keys[1..], oldest, sid);
    }
  }

  lemma UnknownLeaves(s: Table, c: Crypto, from: Addr, packet: Bytes, now: int, wall: nat, window: nat, choice: Choice,
                      sid: nat)
    requires |packet| >= 4 && sid in s.peers
    ensures Untouched(s, OnUnknown(s, c, from, packet, now, wall, window, choice).0, sid)
  {
    var tokens := Refilled(s.trialTokens, s.lastTrial, now, TRIAL_RATE);
    TryKeysLeave(s.(trialTokens := tokens - 1.0, lastTrial := now, trials := s.trials + 1), c, from, packet, now, wall, window,
                 choice.keys, choice.oldest, sid);
  }

  lemma KnownLeavesOthers(s: Table, c: Crypto, other: nat, from: Addr, packet: Bytes, now: int, sid: nat)
    requires other in s.peers && sid in s.peers && other != sid
    ensures Untouched(s, OnKnown(s, c, other, from, packet, now).0, sid)
  {
    var p := s.peers[other];
    if !Barred(s, p.key) {
      var d := c.Unmask(packet, p.secret);
      var (n, result) := E.OnEvent(p.machine, E.Inbound(d), now);
      SettleShape(Touched(s, p.key), other, from, d, |packet|, n, result, now);
    }
  }

  lemma KnownLosesNone(s: Table, c: Crypto, sid: nat, from: Addr, packet: Bytes, now: int)
    requires sid in s.peers
    ensures OnKnown(s, c, sid, from, packet, now).0.lost == s.lost
  {
  }

  /** The table as the session's machine or the handshakes find it: only buckets and counters differ. */
  ghost predicate SameSessions(s: Table, r: Table) {
    r.peers == s.peers && r.trails == s.trails && r.keys == s.keys && r.users == s.users && r.lost == s.lost
  }

  /** A datagram is processed by the session it is routed to, and touches no other. */
  lemma RouteDecides(s: Table, c: Crypto, from: Addr, packet: Bytes, now: int, wall: nat, window: nat, choice: Choice, sid: nat)
    returns (r: Table)
    requires sid in s.peers
    ensures SameSessions(s, r)
    ensures var t := OnDatagram(s, c, from, packet, now, wall, window, choice);
            if Route(s, c, from, packet, now, choice) == Some(sid) then t == OnKnown(r, c, sid, from, packet, now)
            else Untouched(s, t.0, sid)
  {
    r := s;
    if |packet| >= 4 {
      var fast := FastPath(s, c, from, packet);
      if fast.Some? {
        if fast.value != sid { KnownLeavesOthers(s, c, fast.value, from, packet, now, sid); }
      } else {
        r := StrayDecides(s, c, from, packet, now, wall, window, choice, sid);
      }
    }
  }

  lemma AskDecides(s: Table, c: Crypto, from: Addr, packet: Bytes, now: int, wall: nat, window: nat, choice: Choice, sid: nat)
    requires sid in s.peers && |packet| >= 4
    ensures var r := AskSessions(s, c, from, packet, now, wall, window, choice);
            if ScanPeers(s.peers, c, packet, choice.sids) == Some(sid) then r == OnKnown(s, c, sid, from, packet, now)
            else Untouched(s, r.0, sid)
  {
    UnknownLeaves(s, c, from, packet, now, wall, window, choice, sid);
    var found := ScanPeers(s.peers, c, packet, choice.sids);
    if found.Some? && found.value != sid { KnownLeavesOthers(s, c, found.value, from, packet, now, sid); }
  }

  lemma StrayDecides(s: Table, c: Crypto, from: Addr, packet: Bytes, now: int, wall: nat, window: nat, choice: Choice, sid: nat)
    returns (r: Table)
    requires sid in s.peers && |packet| >= 4 && FastPath(s, c, from, packet).None?
    ensures SameSessions(s, r)
    ensures var t := OnStray(s, c, from, packet, now, wall, window, choice);
            if Route(s, c, from, packet, now, choice) == Some(sid) then t == OnKnown(r, c, sid, from, packet, now)
            else Untouched(s, t.0, sid)
  {
    StrayIs(s, c, from, packet, now, wall, window, choice);
    if Dry(s, now) {
      r := Waiting(s, now);
      UnknownLeaves(r, c, from, packet, now, wall, window, choice, sid);
    } else {
      r := Asking(s, now);
      AskDecides(r, c, from, packet, now, wall, window, choice, sid);
    }
  }

  /** The session is still the same and now at `from`. */
  ghost predicate MovedTo(s: Table, t: Table, sid: nat, from: Addr) {
    sid in t.peers && t.peers[sid].lastAddr == from && t.lost == s.lost
  }

  /**
   Over whole datagrams: one from elsewhere moves a live session if and only if it is
   routed to it, authenticates with a nonce above every one heard before and is not a
   truncated ACK. So an authentic record is without effect on the address while the
   roaming bucket is empty, or if a session earlier in the walk unmasks it too.
   */
  lemma DatagramMovesIff(s: Table, c: Crypto, sid: nat, from: Addr, packet: Bytes, now: int, wall: nat, window: nat,
                         choice: Choice)
    requires Tracked(s) && sid in s.peers && !Barred(s, s.peers[sid].key) && from != s.peers[sid].lastAddr
    ensures var p, trail := s.peers[sid], s.trails[sid];
            var d := c.Unmask(packet, p.secret);
            MovedTo(s, OnDatagram(s, c, from, packet, now, wall, window, choice).0, sid, from)
            <==> Route(s, c, from, packet, now, choice) == Some(sid)
                 && SetsRecord(p, trail, d, now) && !TruncatedAck(HeardAs(p.machine, d, now).value)
  {
    var r := RouteDecides(s, c, from, packet, now, wall, window, choice, sid);
    if Route(s, c, from, packet, now, choice) == Some(sid) {
      SameTracks(s, r);
      MovesIff(r, c, sid, from, packet, now);
      KnownLosesNone(r, c, sid, from, packet, now);
    }
  }

  /** An answer goes to the address its session is at once the datagram has been dealt with. */
  lemma RepliesGoHome(s: Table, c: Crypto, sid: nat, from: Addr, packet: Bytes, now: int)
    requires Tracked(s) && sid in s.peers
    ensures var (t, out) := OnKnown(s, c, sid, from, packet, now);
            out.Accepted? ==> sid in t.peers && sid in t.trails && out.to == t.peers[sid].lastAddr == Home(t.trails[sid])
  {
    KnownTracks(s, c, sid, from, packet, now);
    var p := s.peers[sid];
    if !Barred(s, p.key) {
      var d := c.Unmask(packet, p.secret);
      var (n, result) := E.OnEvent(p.machine, E.Inbound(d), now);
      SettleShape(Touched(s, p.key), sid, from, d, |packet|, n, result, now);
    }
  }
}
