/**
 The machines of the session table stay sound: whatever arrives, each live session's
 endpoint satisfies the invariant of its kind, so that what is proved of endpoints
 holds of the server's.
 */
module SessionMachines {
  import opened Basics
  import opened Wire
  import opened Congestion
  import opened EndpointInvariants
  import opened EndpointEvents
  import opened Sessions
  import SessionTracking
  import E = Endpoint

  ghost predicate Sound(peers: map<nat, Peer>) {
    forall sid :: sid in peers ==> Inv(peers[sid].machine)
  }

  /** Every session's nonces are far enough from 2^64. */
  ghost predicate AllRoomy(peers: map<nat, Peer>) {
    forall sid :: sid in peers ==> Headroom(peers[sid].machine)
  }

  lemma StartIsSound(cfg: E.Config, mtu: Mtu, now: int)
    requires cfg.Valid()
    ensures Inv(E.Start(cfg, mtu, now))
  {
  }

  lemma EventIsSound(m: E.Endpoint, e: E.Event, now: int)
    requires Inv(m) && Headroom(m)
    ensures Inv(E.OnEvent(m, e, now).0)
  {
    AnyEventStep(m, e, now);
  }

  lemma ReplaceSound(peers: map<nat, Peer>, sid: nat, p: Peer)
    requires Sound(peers) && Inv(p.machine)
    ensures Sound(peers[sid := p])
  {
  }

  lemma SettleSound(s: Table, sid: nat, from: Addr, d: Datagram, size: nat, n: E.Endpoint, result: E.Outcome, now: int)
    requires Sound(s.peers) && sid in s.peers && Inv(n)
    ensures Sound(Settle(s, sid, from, d, size, n, result, now).0.peers)
  {
    SessionTracking.SettleShape(s, sid, from, d, size, n, result, now);
  }

  lemma KnownSound(s: Table, c: Crypto, sid: nat, from: Addr, packet: Bytes, now: int)
    requires Sound(s.peers) && AllRoomy(s.peers) && sid in s.peers
    ensures Sound(OnKnown(s, c, sid, from, packet, now).0.peers)
  {
    var p := s.peers[sid];
    if !Barred(s, p.key) {
      var d := c.Unmask(packet, p.secret);
      var (n, result) := E.OnEvent(p.machine, E.Inbound(d), now);
      EventIsSound(p.machine, E.Inbound(d), now);
      SettleSound(Touched(s, p.key), sid, from, d, |packet|, n, result, now);
    }
  }

  lemma AdmitShape(s: Table, key: Key, secret: Secret, sid: nat, h: Handshake, from: Addr, now: int, wall: nat, oldest: Bytes)
    requires |h.payload| >= 12
    ensures var t := Admit(s, key, secret, sid, h, from, now, wall, oldest).0;
            || t.peers == s.peers
            || t.peers == s.peers[sid := Peer(E.Start(h.cfg.(sid := sid), h.mtu, now), from, secret, now, key)]
  {
  }

  lemma AdmitSound(s: Table, c: Crypto, packet: Bytes, key: Key, sid: nat, from: Addr, now: int, wall: nat, oldest: Bytes)
    requires Sound(s.peers) && c.Valid() && c.open(packet, key).Some? && |c.open(packet, key).value.payload| >= 12
    ensures Sound(Admit(s, key, c.secretOf(key), sid, c.open(packet, key).value, from, now, wall, oldest).0.peers)
  {
    var h, secret := c.open(packet, key).value, c.secretOf(key);
    AdmitShape(s, key, secret, sid, h, from, now, wall, oldest);
    StartIsSound(h.cfg.(sid := sid), h.mtu, now);
    ReplaceSound(s.peers, sid, Peer(E.Start(h.cfg.(sid := sid), h.mtu, now), from, secret, now, key));
  }

  lemma {:induction false} TryKeysSound(s: Table, c: Crypto, from: Addr, packet: Bytes, now: int, wall: nat, window: nat,
                                        keys: seq<Key>, oldest: Bytes)
    requires Sound(s.peers) && c.Valid() && |packet| >= 4
    ensures Sound(TryKeys(s, c, from, packet, now, wall, window, keys, oldest).0.peers)
  {
    if keys != [] {
      TryKeysSound(s, c, from, packet, now, wall, window, keys[1..], oldest);
      var key := keys[0];
      if c.open(packet, key).Some? && |c.open(packet, key).value.payload| >= 12 {
        AdmitSound(s, c, packet, key, c.handshakeSid(packet, c.secretOf(key)), from, now, wall, oldest);
      }
    }
  }

  lemma UnknownSound(s: Table, c: Crypto, from: Addr, packet: Bytes, now: int, wall: nat, window: nat, choice: Choice)
    requires Sound(s.peers) && c.Valid() && |packet| >= 4
    ensures Sound(OnUnknown(s, c, from, packet, now, wall, window, choice).0.peers)
  {
    var tokens := Refilled(s.trialTokens, s.lastTrial, now, TRIAL_RATE);
    var r := s.(trialTokens := tokens, lastTrial := now);
    TryKeysSound(r.(trialTokens := tokens - 1.0, trials := s.trials + 1), c, from, packet, now, wall, window, choice.keys,
                 choice.oldest);
  }

  lemma AskSound(s: Table, c: Crypto, from: Addr, packet: Bytes, now: int, wall: nat, window: nat, choice: Choice)
    requires Sound(s.peers) && AllRoomy(s.peers) && c.Valid() && |packet| >= 4
    ensures Sound(AskSessions(s, c, from, packet, now, wall, window, choice).0.peers)
  {
    UnknownSound(s, c, from, packet, now, wall, window, choice);
    var found := ScanPeers(s.peers, c, packet, choice.sids);
    if found.Some? { KnownSound(s, c, found.value, from, packet, now); }
  }

  lemma StraySound(s: Table, c: Crypto, from: Addr, packet: Bytes, now: int, wall: nat, window: nat, choice: Choice)
    requires Sound(s.peers) && AllRoomy(s.peers) && c.Valid() && |packet| >= 4
    ensures Sound(OnStray(s, c, from, packet, now, wall, window, choice).0.peers)
  {
    SessionTracking.StrayIs(s, c, from, packet, now, wall, window, choice);
    if SessionTracking.Dry(s, now) {
      UnknownSound(SessionTracking.Waiting(s, now), c, from, packet, now, wall, window, choice);
    } else {
      AskSound(SessionTracking.Asking(s, now), c, from, packet, now, wall, window, choice);
    }
  }

  lemma DatagramSound(s: Table, c: Crypto, from: Addr, packet: Bytes, now: int, wall: nat, window: nat, choice: Choice)
    requires Sound(s.peers) && AllRoomy(s.peers) && c.Valid()
    ensures Sound(OnDatagram(s, c, from, packet, now, wall, window, choice).0.peers)
  {
    if |packet| >= 4 {
      var hit := FastPath(s, c, from, packet);
      if hit.Some? {
        KnownSound(s, c, hit.value, from, packet, now);
      } else {
        StraySound(s, c, from, packet, now, wall, window, choice);
      }
    }
  }

  lemma {:induction false} DropAllPart(s: Table, sids: seq<nat>)
    ensures DropAll(s, sids).peers.Keys <= s.peers.Keys
    ensures forall sid :: sid in DropAll(s, sids).peers ==> DropAll(s, sids).peers[sid] == s.peers[sid]
  {
    if sids != [] { DropAllPart(s, sids[..|sids| - 1]); }
  }

  lemma ClockSound(s: Table, now: int, wall: nat, choice: Choice)
    requires Sound(s.peers) && AllRoomy(s.peers)
    ensures Sound(OnTick(s, now, wall, choice).0.peers)
  {
    var q := s.(replay := Recent(s.replay, wall));
    SessionTracking.TouchAllTracks(q, choice.sids);
    var r := TouchAll(q, choice.sids);
    DropAllPart(r, ExpiredOf(q, choice.sids, now));
    var t := DropAll(r, ExpiredOf(q, choice.sids, now));
    forall sid | sid in t.peers
      ensures Inv(Ticked(t.peers[sid], now).0.machine)
    {
      assert t.peers[sid] == s.peers[sid];
      EventIsSound(t.peers[sid].machine, E.Tick, now);
    }
  }

  lemma SentShape(s: Table, sid: nat, n: E.Endpoint, result: E.Outcome)
    requires sid in s.peers
    ensures Sent(s, sid, n, result).0.peers == s.peers[sid := s.peers[sid].(machine := n)]
  {
  }

  lemma SentSound(s: Table, sid: nat, n: E.Endpoint, result: E.Outcome)
    requires Sound(s.peers) && sid in s.peers && Inv(n)
    ensures Sound(Sent(s, sid, n, result).0.peers)
  {
    SentShape(s, sid, n, result);
    ReplaceSound(s.peers, sid, s.peers[sid].(machine := n));
  }

  lemma OutboundSound(s: Table, sid: nat, stream: nat, payload: Bytes, now: int)
    requires Sound(s.peers) && AllRoomy(s.peers)
    ensures Sound(OnOutbound(s, sid, stream, payload, now).0.peers)
  {
    if sid in s.peers {
      EventIsSound(s.peers[sid].machine, E.Outbound(stream, payload), now);
      var (n, result) := E.OnEvent(s.peers[sid].machine, E.Outbound(stream, payload), now);
      SentSound(s, sid, n, result);
    }
  }

  lemma DropSound(s: Table, sid: nat)
    requires Sound(s.peers)
    ensures Sound(DropSession(s, sid).peers)
  {
  }

  lemma NextSound(s: Table, c: Crypto, e: Timed)
    requires Sound(s.peers) && AllRoomy(s.peers) && c.Valid()
    ensures Sound(Next(s, c, e).peers)
  {
    match e.input
    case Packet(from, packet, window) => DatagramSound(s, c, from, packet, e.now, e.wall, window, e.choice);
    case Clock => ClockSound(s, e.now, e.wall, e.choice);
    case Send(sid, stream, payload) => OutboundSound(s, sid, stream, payload, e.now);
    case Drop(sid) => DropSound(s, sid);
    case Limit(key, limit) =>
    case Rekey(keys) =>
  }

  /** A run at every step of which all sessions have nonces left. */
  ghost predicate RoomyRun(s: Table, c: Crypto, es: seq<Timed>, t: Table) {
    if es == [] then s == t
    else
      var e := es[|es| - 1];
      exists m :: RoomyRun(s, c, es[..|es| - 1], m) && AllRoomy(m.peers) && Fair(m, e.wall, e.choice) && t == Next(m, c, e)
  }

  /** In every reachable table every session's machine satisfies the endpoint's invariant. */
  lemma {:induction false} MachinesStaySound(keys: map<Key, Option<nat>>, start: int, c: Crypto, es: seq<Timed>, t: Table)
    requires c.Valid() && RoomyRun(New(keys, start), c, es, t)
    ensures Sound(t.peers)
  {
    if es != [] {
      var e := es[|es| - 1];
      var m :| RoomyRun(New(keys, start), c, es[..|es| - 1], m) && AllRoomy(m.peers) && Fair(m, e.wall, e.choice)
               && t == Next(m, c, e);
      MachinesStaySound(keys, start, c, es[..|es| - 1], m);
      NextSound(m, c, e);
    }
  }
}
