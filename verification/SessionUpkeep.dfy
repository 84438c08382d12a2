/**
 The upkeep of the session table: which sessions a tick drops and where the rest's
 datagrams go, which handshakes open a session, and what traffic each user is charged.
 */
module SessionUpkeep {
  import opened Basics
  import opened Wire
  import opened EndpointInvariants
  import opened Sessions
  import opened SessionTracking
  import opened SessionDelivery
  import E = Endpoint

  // ---------- Who may have a session ----------

  function LimitOf(s: Table, key: Key): Option<nat> {
    if key in s.users then s.users[key].limit else if key in s.keys then s.keys[key] else None
  }

  function UpOf(s: Table, key: Key): nat { if key in s.users then s.users[key].up else 0 }

  function DownOf(s: Table, key: Key): nat { if key in s.users then s.users[key].down else 0 }

  /** The key was taken off the list, or its user has used up what it may. */
  predicate Revoked(s: Table, key: Key) {
    key !in s.keys || (LimitOf(s, key).Some? && UpOf(s, key) + DownOf(s, key) >= LimitOf(s, key).value)
  }

  lemma BarredIff(s: Table, key: Key)
    ensures Barred(s, key) <==> Revoked(s, key)
  {
  }

  /** A datagram for a session whose key was revoked drops it, and is not processed. */
  lemma RevokedIsDropped(s: Table, c: Crypto, sid: nat, from: Addr, packet: Bytes, now: int, wall: nat, window: nat,
                         choice: Choice)
    requires sid in s.peers && Route(s, c, from, packet, now, choice) == Some(sid) && Revoked(s, s.peers[sid].key)
    ensures var (t, out) := OnDatagram(s, c, from, packet, now, wall, window, choice);
            out == Unauthorized && t.peers == s.peers - {sid}
  {
    BarredIff(s, s.peers[sid].key);
    var r := RouteDecides(s, c, from, packet, now, wall, window, choice, sid);
  }

  // ---------- Where a datagram goes ----------

  /** The packet has a whole header, and the session's own secret unmasks its own id in it. */
  ghost predicate Owns(s: Table, c: Crypto, packet: Bytes, sid: nat) {
    sid in s.peers && |packet| >= 12 && c.sidOf(packet, s.peers[sid].secret) == sid
  }

  /** The session last seen at this address owns the packet. */
  ghost predicate KnownHere(s: Table, c: Crypto, from: Addr, packet: Bytes, sid: nat) {
    from in s.addrs && s.addrs[from] == sid && Owns(s, c, packet, sid)
  }

  /** The first session in walk order that owns the packet. */
  ghost predicate FirstOwner(s: Table, c: Crypto, packet: Bytes, sids: seq<nat>, sid: nat) {
    exists i :: 0 <= i < |sids| && sids[i] == sid && Owns(s, c, packet, sid)
                && forall j :: 0 <= j < i ==> !Owns(s, c, packet, sids[j])
  }

  lemma {:induction false} ScanFindsFirst(s: Table, c: Crypto, packet: Bytes, sids: seq<nat>, sid: nat)
    ensures ScanPeers(s.peers, c, packet, sids) == Some(sid) <==> FirstOwner(s, c, packet, sids, sid)
  {
    if sids != [] {
      var rest := sids[1..];
      ScanFindsFirst(s, c, packet, rest, sid);
      if FirstOwner(s, c, packet, rest, sid) && !Owns(s, c, packet, sids[0]) {
        var i :| 0 <= i < |rest| && rest[i] == sid && forall j :: 0 <= j < i ==> !Owns(s, c, packet, rest[j]);
        assert sids[i + 1] == sid;
        assert forall j :: 0 <= j < i + 1 ==> !Owns(s, c, packet, sids[j]) by {
          forall j | 0 <= j < i + 1
            ensures !Owns(s, c, packet, sids[j])
          {
            if j > 0 { assert sids[j] == rest[j - 1]; }
          }
        }
      }
      if FirstOwner(s, c, packet, sids, sid) {
        var i :| 0 <= i < |sids| && sids[i] == sid && forall j :: 0 <= j < i ==> !Owns(s, c, packet, sids[j]);
        if i > 0 {
          assert rest[i - 1] == sid;
          assert forall j :: 0 <= j < i - 1 ==> rest[j] == sids[j + 1];
        }
      }
    }
  }

  /**
   A datagram is for the session last seen at its source if that session owns it, and
   otherwise, while the bucket has a token, for the first in walk order that does.
   */
  lemma RouteIff(s: Table, c: Crypto, from: Addr, packet: Bytes, now: int, choice: Choice, sid: nat)
    ensures Route(s, c, from, packet, now, choice) == Some(sid)
            <==> || KnownHere(s, c, from, packet, sid)
                 || ((forall id :: !KnownHere(s, c, from, packet, id)) && !Dry(s, now)
                     && FirstOwner(s, c, packet, choice.sids, sid))
  {
    ScanFindsFirst(s, c, packet, choice.sids, sid);
    var fast := FastPath(s, c, from, packet);
    if fast.Some? {
      assert KnownHere(s, c, from, packet, fast.value);
    } else {
      assert forall id :: !KnownHere(s, c, from, packet, id);
    }
  }

  /** A bucket left alone for a second is full, and after one period it has a token. */
  lemma IdleBucketFills(tokens: real, since: int, now: int, rate: real)
    requires tokens >= 0.0 && rate >= 1.0 && since <= now
    ensures now >= since + SECOND ==> Refilled(tokens, since, now, rate) == rate
    ensures (now - since) as real * rate >= SECOND as real ==> Refilled(tokens, since, now, rate) >= 1.0
    ensures tokens <= rate ==> Refilled(tokens, since, now, rate) >= tokens
  {
    var earned := Seconds(Since(now, since)) * rate;
    assert earned == (now - since) as real * rate / 1_000_000_000.0;
    if now >= since + SECOND { assert (now - since) as real * rate >= SECOND as real * rate; }
  }

  /** A packet is junk under a key when it begins with the marker of this window or the one before. */
  lemma JunkIff(c: Crypto, packet: Bytes, key: Key, window: nat)
    requires |packet| >= 4
    ensures c.IsJunk(packet, key, window)
            <==> packet[..4] == c.marker(key, window)
                 || (window > 0 && packet[..4] == c.marker(key, window - 1))
                 || (window == 0 && packet[..4] == c.marker(key, 0xFFFF_FFFF_FFFF_FFFF))
  {
  }

  // ---------- The tick ----------

  /** The limit a user had when its session was first looked at stays, whatever becomes of the key list. */
  lemma TickKnowsUsers(s: Table, now: int, wall: nat, choice: Choice, sid: nat)
    requires Enumerates(choice.sids, s.peers.Keys) && sid in s.peers
    ensures var t, key := OnTick(s, now, wall, choice).0, s.peers[sid].key;
            key in t.users && t.users[key].limit == LimitOf(s, key)
  {
    var q := s.(replay := Recent(s.replay, wall));
    TouchedAre(q, choice.sids, sid);
    DropAllUsers(TouchAll(q, choice.sids), ExpiredOf(q, choice.sids, now), s.peers[sid].key);
  }

  lemma {:induction false} TouchedAre(s: Table, sids: seq<nat>, sid: nat)
    requires sid in s.peers
    ensures var r, key := TouchAll(s, sids), s.peers[sid].key;
            && r.peers == s.peers && r.keys == s.keys && LimitOf(r, key) == LimitOf(s, key) && (sid in sids ==> key in r.users)
  {
    if sids != [] {
      TouchedAre(s, sids[..|sids| - 1], sid);
      assert sid in sids ==> sid in sids[..|sids| - 1] || sid == sids[|sids| - 1];
    }
  }

  lemma {:induction false} DropAllUsers(s: Table, sids: seq<nat>, key: Key)
    requires key in s.users
    ensures var t := DropAll(s, sids); key in t.users && t.users[key].limit == s.users[key].limit && t.keys == s.keys
  {
    if sids != [] { DropAllUsers(s, sids[..|sids| - 1], key); }
  }

  /** The session was closed by its client, was not heard from for ten minutes, or its key was revoked. */
  ghost predicate Over(s: Table, sid: nat, now: int) {
    && sid in s.peers
    && var p := s.peers[sid];
       p.machine.state == E.Closed || now > p.lastSeen + 600 * SECOND || Revoked(s, p.key)
  }

  lemma ExpiredIsOver(s: Table, q: Table, sid: nat, now: int)
    requires q.peers == s.peers && q.keys == s.keys && q.users == s.users
    ensures Expired(q, sid, now) <==> Over(s, sid, now)
  {
    if sid in s.peers { BarredIff(s, s.peers[sid].key); }
  }

  lemma {:induction false} ExpiredAre(s: Table, sids: seq<nat>, now: int)
    ensures forall sid :: sid in ExpiredOf(s, sids, now) <==> sid in sids && Expired(s, sid, now)
  {
    if sids != [] { ExpiredAre(s, sids[..|sids| - 1], now); }
  }

  lemma {:induction false} DroppedAre(s: Table, sids: seq<nat>)
    ensures forall sid :: sid in DropAll(s, sids).peers <==> sid in s.peers && sid !in sids
    ensures forall sid :: sid in DropAll(s, sids).peers ==> DropAll(s, sids).peers[sid] == s.peers[sid]
  {
    if sids != [] { DroppedAre(s, sids[..|sids| - 1]); }
  }

  /** A tick drops exactly the sessions that are over, and ticks each of the others, changing nothing else of it. */
  lemma TickDropsExactly(s: Table, now: int, wall: nat, choice: Choice)
    requires Enumerates(choice.sids, s.peers.Keys)
    ensures var (t, frames, expired) := OnTick(s, now, wall, choice);
            && (forall sid :: sid in expired <==> Over(s, sid, now))
            && (forall sid :: sid in t.peers <==> sid in s.peers && !Over(s, sid, now))
            && (forall sid :: sid in t.peers ==>
                 t.peers[sid] == s.peers[sid].(machine := E.OnEvent(s.peers[sid].machine, E.Tick, now).0))
  {
    var q := s.(replay := Recent(s.replay, wall));
    ExpiredIffOver(s, q, choice.sids, now);
    TouchAllTracks(q, choice.sids);
    DroppedAre(TouchAll(q, choice.sids), ExpiredOf(q, choice.sids, now));
  }

  lemma ExpiredIffOver(s: Table, q: Table, sids: seq<nat>, now: int)
    requires Enumerates(sids, s.peers.Keys) && q.peers == s.peers && q.keys == s.keys && q.users == s.users
    ensures forall sid :: sid in ExpiredOf(q, sids, now) <==> Over(s, sid, now)
  {
    ExpiredAre(q, sids, now);
    forall sid
      ensures sid in ExpiredOf(q, sids, now) <==> Over(s, sid, now)
    {
      ExpiredIsOver(s, q, sid, now);
    }
  }

  /** What a session's machine transmits at the tick. */
  ghost function TickSends(p: Peer, now: int): seq<Tx> {
    var result := E.OnEvent(p.machine, E.Tick, now).1;
    if result.Ok? then Sends(result.action, now) else []
  }

  lemma {:induction false} BackwardsAt(ds: seq<Datagram>, i: nat)
    requires i < |ds|
    ensures Backwards(ds)[i] == ds[|ds| - 1 - i]
  {
    if i > 0 { BackwardsAt(ds[..|ds| - 1], i - 1); }
  }

  /** One session's datagrams go to its address, the newest first. */
  lemma FramesGoHome(p: Peer, now: int)
    ensures var txs, frames := TickSends(p, now), Frames(Ticked(p, now).1, p.lastAddr);
            |frames| == |txs| && forall i :: 0 <= i < |txs| ==> frames[i] == (txs[|txs| - 1 - i].d, p.lastAddr)
  {
    var result := Ticked(p, now).1;
    if result.Ok? {
      OutgoingIsSent(result.action, now);
      var ds, txs := Outgoing(result.action), TickSends(p, now);
      assert AsSent(ds, now) == txs;
      forall i | 0 <= i < |ds|
        ensures Frames(result, p.lastAddr)[i] == (txs[|txs| - 1 - i].d, p.lastAddr)
      {
        BackwardsAt(ds, i);
        assert txs[|txs| - 1 - i] == AsSent(ds, now)[|ds| - 1 - i];
      }
    }
  }

  /** `f` is a datagram some session of `peers` transmits, addressed to where that session is. */
  ghost predicate FromSession(peers: map<nat, Peer>, sids: seq<nat>, now: int, f: (Datagram, Addr)) {
    exists sid, i :: sid in sids && sid in peers && 0 <= i < |TickSends(peers[sid], now)|
                     && f == (TickSends(peers[sid], now)[i].d, peers[sid].lastAddr)
  }

  lemma OfFrames(p: Peer, now: int, f: (Datagram, Addr))
    ensures f in Frames(Ticked(p, now).1, p.lastAddr)
            <==> exists i :: 0 <= i < |TickSends(p, now)| && f == (TickSends(p, now)[i].d, p.lastAddr)
  {
    FramesGoHome(p, now);
    var txs, frames := TickSends(p, now), Frames(Ticked(p, now).1, p.lastAddr);
    if i :| 0 <= i < |txs| && f == (txs[i].d, p.lastAddr) {
      assert frames[|txs| - 1 - i] == f;
    }
  }

  lemma {:induction false} TickFramesAre(s: Table, sids: seq<nat>, now: int, f: (Datagram, Addr))
    ensures f in TickFrames(s, sids, now) <==> FromSession(s.peers, sids, now, f)
  {
    if sids != [] {
      var front, last := sids[..|sids| - 1], sids[|sids| - 1];
      TickFramesAre(s, front, now, f);
      if last in s.peers { OfFrames(s.peers[last], now, f); }
      FromSessionSplit(s.peers, sids, now, f);
    }
  }

  lemma FromSessionSplit(peers: map<nat, Peer>, sids: seq<nat>, now: int, f: (Datagram, Addr))
    requires sids != []
    ensures var front, last := sids[..|sids| - 1], sids[|sids| - 1];
            FromSession(peers, sids, now, f)
            <==> FromSession(peers, front, now, f)
                 || (last in peers && exists i :: 0 <= i < |TickSends(peers[last], now)|
                                                  && f == (TickSends(peers[last], now)[i].d, peers[last].lastAddr))
  {
    var front, last := sids[..|sids| - 1], sids[|sids| - 1];
    assert forall sid :: sid in sids <==> sid in front || sid == last;
  }

  /** A tick's datagrams are exactly those the remaining sessions transmit, each to its session's address. */
  lemma TickGoesHome(s: Table, now: int, wall: nat, choice: Choice, f: (Datagram, Addr))
    requires Enumerates(choice.sids, s.peers.Keys)
    ensures f in OnTick(s, now, wall, choice).1
            <==> exists sid, i :: sid in s.peers && !Over(s, sid, now) && 0 <= i < |TickSends(s.peers[sid], now)|
                                  && f == (TickSends(s.peers[sid], now)[i].d, s.peers[sid].lastAddr)
  {
    TickDropsExactly(s, now, wall, choice);
    var q := s.(replay := Recent(s.replay, wall));
    TouchAllTracks(q, choice.sids);
    var expired := ExpiredOf(q, choice.sids, now);
    var t := DropAll(TouchAll(q, choice.sids), expired);
    DroppedAre(TouchAll(q, choice.sids), expired);
    TickFramesAre(t, choice.sids, now, f);
    if FromSession(t.peers, choice.sids, now, f) {
      var sid, i :| sid in choice.sids && sid in t.peers && 0 <= i < |TickSends(t.peers[sid], now)|
                    && f == (TickSends(t.peers[sid], now)[i].d, t.peers[sid].lastAddr);
      assert t.peers[sid] == s.peers[sid];
    }
    if sid, i :| sid in s.peers && !Over(s, sid, now) && 0 <= i < |TickSends(s.peers[sid], now)|
                 && f == (TickSends(s.peers[sid], now)[i].d, s.peers[sid].lastAddr) {
      assert sid in t.peers && t.peers[sid] == s.peers[sid] && sid in choice.sids;
    }
  }

  /** What is sent for a session carries the stream and payload given, under its next nonce, and goes to its address. */
  lemma OutboundGoesHome(s: Table, sid: nat, stream: nat, payload: Bytes, now: int)
    ensures var out := OnOutbound(s, sid, stream, payload, now).1;
            if sid in s.peers && s.peers[sid].machine.state == E.Established then
              var m := s.peers[sid].machine;
              out == Some((E.Seal(m.cfg, m.sendNonce, Frame(Data, stream, payload)), s.peers[sid].lastAddr))
            else out == None
  {
    if sid in s.peers { SealsNext(s.peers[sid].machine, stream, payload, now); }
  }

  lemma SealsNext(m: E.Endpoint, stream: nat, payload: Bytes, now: int)
    ensures E.OnEvent(m, E.Outbound(stream, payload), now).1
            == E.Ok(if m.state == E.Established then E.SendDatagram(E.Seal(m.cfg, m.sendNonce, Frame(Data, stream, payload)))
                    else E.Noop)
  {
  }

  /** The ten minutes run from the last datagram that was processed and came from the session's address. */
  lemma SeenIff(s: Table, c: Crypto, sid: nat, from: Addr, packet: Bytes, now: int)
    requires sid in s.peers && !Revoked(s, s.peers[sid].key)
    ensures var (t, out) := OnKnown(s, c, sid, from, packet, now);
            sid in t.peers
            && t.peers[sid].lastSeen == (if out.Accepted? && t.peers[sid].lastAddr == from then now else s.peers[sid].lastSeen)
  {
    BarredIff(s, s.peers[sid].key);
    var p := s.peers[sid];
    var d := c.Unmask(packet, p.secret);
    var (n, result) := E.OnEvent(p.machine, E.Inbound(d), now);
    SettleSeen(Touched(s, p.key), sid, from, d, |packet|, n, result, now);
  }

  lemma SettleSeen(s: Table, sid: nat, from: Addr, d: Datagram, size: nat, n: E.Endpoint, result: E.Outcome, now: int)
    requires sid in s.peers
    ensures var (t, out) := Settle(s, sid, from, d, size, n, result, now);
            && sid in t.peers && (out.Accepted? <==> result.Ok?)
            && t.peers[sid].lastSeen == (if result.Ok? && t.peers[sid].lastAddr == from then now else s.peers[sid].lastSeen)
  {
    var f := Sessions.Fed(s, sid, from, d, size, n, result.Ok?);
    assert f.peers[sid] == s.peers[sid].(machine := n);
  }

  // ---------- Handshakes ----------

  /** The payload names this session and this key, its timestamp is within five minutes, and it is not in the cache. */
  ghost predicate Proves(s: Table, payload: Bytes, sid: nat, key: Key, wall: nat) {
    && |payload| >= 12 && FromBe(payload[8..12]) == sid && payload[12..] == key
    && wall <= FromBe(payload[..8]) + 300 && FromBe(payload[..8]) <= wall + 300 && payload !in s.replay
  }

  lemma FreshIff(s: Table, payload: Bytes, key: Key, sid: nat, wall: nat)
    ensures Fresh(s, payload, key, sid, wall) <==> Proves(s, payload, sid, key, wall)
  {
  }

  /** Under `key` the packet opens session `sid` with this handshake. */
  ghost predicate Knocks(s: Table, c: Crypto, packet: Bytes, key: Key, wall: nat, sid: nat, h: Handshake) {
    && |packet| >= 7 && c.open(packet, key) == Some(h) && c.handshakeSid(packet, c.secretOf(key)) == sid
    && Proves(s, h.payload, sid, key, wall)
  }

  /** There is room for a session, and the key's user may still have one. */
  ghost predicate Welcomes(s: Table, key: Key) {
    && |s.peers| < 1024 && !(LimitOf(s, key).Some? && UpOf(s, key) + DownOf(s, key) >= LimitOf(s, key).value)
  }

  /** The session a handshake opens. */
  function NewPeer(c: Crypto, key: Key, sid: nat, h: Handshake, from: Addr, now: int): Peer {
    Peer(E.Start(h.cfg.(sid := sid), h.mtu, now), from, c.secretOf(key), now, key)
  }

  lemma AdmitDecides(s: Table, c: Crypto, key: Key, sid: nat, h: Handshake, from: Addr, now: int, wall: nat, oldest: Bytes)
    requires |h.payload| >= 12
    ensures var (t, out) := Admit(s, key, c.secretOf(key), sid, h, from, now, wall, oldest);
            if Welcomes(s, key) then t.peers == s.peers[sid := NewPeer(c, key, sid, h, from, now)]
                                     && out == Accepted([Welcome(h.response)], [], from)
            else t.peers == s.peers && out == Unauthorized
  {
  }

  /** One candidate key: junk, nothing, or the handshake that proves itself fresh under it. */
  lemma TryKeyDecides(s: Table, c: Crypto, from: Addr, packet: Bytes, now: int, wall: nat, window: nat, key: Key,
                      oldest: Bytes, h: Handshake, sid: nat)
    requires |packet| >= 4
    ensures var r := TryKey(s, c, from, packet, now, wall, window, key, oldest);
            if c.IsJunk(packet, key, window) then r == Some((s, Junk))
            else if Knocks(s, c, packet, key, wall, sid, h) then
              && r.Some?
              && (if Welcomes(s, key) then r.value.0.peers == s.peers[sid := NewPeer(c, key, sid, h, from, now)]
                                           && r.value.1 == Accepted([Welcome(h.response)], [], from)
                  else r.value.0.peers == s.peers && r.value.1 == Unauthorized)
            else r.None? || Knocks(s, c, packet, key, wall, c.handshakeSid(packet, c.secretOf(key)), c.open(packet, key).value)
  {
    if !c.IsJunk(packet, key, window) && |packet| >= 7 && c.open(packet, key).Some? {
      var g, id := c.open(packet, key).value, c.handshakeSid(packet, c.secretOf(key));
      FreshIff(s, g.payload, key, id, wall);
      if |g.payload| >= 12 { AdmitDecides(s, c, key, id, g, from, now, wall, oldest); }
    }
  }

  /** This key ends the trial: it finds junk, or a fresh handshake. */
  ghost predicate Decides(s: Table, c: Crypto, packet: Bytes, wall: nat, window: nat, key: Key)
    requires |packet| >= 4
  {
    c.IsJunk(packet, key, window) || exists sid, h :: Knocks(s, c, packet, key, wall, sid, h)
  }

  /** The first key, in walk order, that finds anything. */
  ghost predicate FirstDeciding(s: Table, c: Crypto, packet: Bytes, wall: nat, window: nat, keys: seq<Key>, i: nat)
    requires |packet| >= 4
  {
    && i < |keys| && Decides(s, c, packet, wall, window, keys[i])
    && forall j :: 0 <= j < i ==> !Decides(s, c, packet, wall, window, keys[j])
  }

  lemma {:induction false} TryKeysDecide(s: Table, c: Crypto, from: Addr, packet: Bytes, now: int, wall: nat, window: nat,
                                         keys: seq<Key>, oldest: Bytes, i: nat)
    requires |packet| >= 4 && FirstDeciding(s, c, packet, wall, window, keys, i)
    ensures TryKey(s, c, from, packet, now, wall, window, keys[i], oldest)
            == Some(TryKeys(s, c, from, packet, now, wall, window, keys, oldest))
  {
    if i == 0 {
      DecidesEnds(s, c, from, packet, now, wall, window, keys[0], oldest);
    } else {
      assert !Decides(s, c, packet, wall, window, keys[0]);
      UndecidedPasses(s, c, from, packet, now, wall, window, keys[0], oldest);
      TryKeysDecide(s, c, from, packet, now, wall, window, keys[1..], oldest, i - 1);
    }
  }

  lemma DecidesEnds(s: Table, c: Crypto, from: Addr, packet: Bytes, now: int, wall: nat, window: nat, key: Key, oldest: Bytes)
    requires |packet| >= 4 && Decides(s, c, packet, wall, window, key)
    ensures TryKey(s, c, from, packet, now, wall, window, key, oldest).Some?
  {
    if !c.IsJunk(packet, key, window) {
      var sid, h :| Knocks(s, c, packet, key, wall, sid, h);
      TryKeyDecides(s, c, from, packet, now, wall, window, key, oldest, h, sid);
    }
  }

  lemma UndecidedPasses(s: Table, c: Crypto, from: Addr, packet: Bytes, now: int, wall: nat, window: nat, key: Key, oldest: Bytes)
    requires |packet| >= 4 && !Decides(s, c, packet, wall, window, key)
    ensures TryKey(s, c, from, packet, now, wall, window, key, oldest).None?
  {
    if |packet| >= 7 && c.open(packet, key).Some? {
      var h, sid := c.open(packet, key).value, c.handshakeSid(packet, c.secretOf(key));
      assert !Knocks(s, c, packet, key, wall, sid, h);
      TryKeyDecides(s, c, from, packet, now, wall, window, key, oldest, h, sid);
    }
  }

  lemma {:induction false} NoneDecides(s: Table, c: Crypto, from: Addr, packet: Bytes, now: int, wall: nat, window: nat,
                                       keys: seq<Key>, oldest: Bytes)
    requires |packet| >= 4 && forall j :: 0 <= j < |keys| ==> !Decides(s, c, packet, wall, window, keys[j])
    ensures TryKeys(s, c, from, packet, now, wall, window, keys, oldest) == (s, Unauthorized)
  {
    if keys != [] {
      assert !Decides(s, c, packet, wall, window, keys[0]);
      UndecidedPasses(s, c, from, packet, now, wall, window, keys[0], oldest);
      assert forall j :: 0 <= j < |keys[1..]| ==> keys[1..][j] == keys[j + 1];
      NoneDecides(s, c, from, packet, now, wall, window, keys[1..], oldest);
    }
  }

  /**
   What a datagram no session claims comes to, if a trial is allowed: nothing unless
   some key finds something; otherwise the first such key decides, and it opens a
   session, for the id the payload and the header name and for that key alone, exactly
   when it finds a fresh handshake and there is room and allowance for it.
   */
  lemma TrialOutcome(s: Table, c: Crypto, from: Addr, packet: Bytes, now: int, wall: nat, window: nat, choice: Choice)
    requires |packet| >= 4 && Refilled(s.trialTokens, s.lastTrial, now, TRIAL_RATE) >= 1.0
    ensures var (t, out) := OnUnknown(s, c, from, packet, now, wall, window, choice);
            && ((forall j :: 0 <= j < |choice.keys| ==> !Decides(s, c, packet, wall, window, choice.keys[j]))
                ==> t.peers == s.peers && out == Unauthorized)
            && forall i: nat :: FirstDeciding(s, c, packet, wall, window, choice.keys, i) ==>
                 Decision(s, c, from, packet, now, wall, window, choice.keys[i], t, out)
  {
    var r := Tried(s, now);
    forall key
      ensures Decides(r, c, packet, wall, window, key) <==> Decides(s, c, packet, wall, window, key)
    {
      SameDecides(s, r, c, packet, wall, window, key);
      SameDecides(r, s, c, packet, wall, window, key);
    }
    var (t, out) := OnUnknown(s, c, from, packet, now, wall, window, choice);
    assert (t, out) == TryKeys(r, c, from, packet, now, wall, window, choice.keys, choice.oldest);
    if forall j :: 0 <= j < |choice.keys| ==> !Decides(s, c, packet, wall, window, choice.keys[j]) {
      NoneDecides(r, c, from, packet, now, wall, window, choice.keys, choice.oldest);
    }
    forall i: nat | FirstDeciding(s, c, packet, wall, window, choice.keys, i)
      ensures Decision(s, c, from, packet, now, wall, window, choice.keys[i], t, out)
    {
      TryKeysDecide(r, c, from, packet, now, wall, window, choice.keys, choice.oldest, i);
      KeyDecision(s, r, c, from, packet, now, wall, window, choice.keys[i], choice.oldest);
    }
  }

  /** The table with a trial paid for. */
  function Tried(s: Table, now: int): Table {
    s.(trialTokens := Refilled(s.trialTokens, s.lastTrial, now, TRIAL_RATE) - 1.0, lastTrial := now, trials := s.trials + 1)
  }

  lemma SameDecides(s: Table, r: Table, c: Crypto, packet: Bytes, wall: nat, window: nat, key: Key)
    requires |packet| >= 4 && r.replay == s.replay
    ensures Decides(s, c, packet, wall, window, key) ==> Decides(r, c, packet, wall, window, key)
  {
    if Decides(s, c, packet, wall, window, key) && !c.IsJunk(packet, key, window) {
      var sid, h :| Knocks(s, c, packet, key, wall, sid, h);
      assert Knocks(r, c, packet, key, wall, sid, h);
    }
  }

  /** What a key that finds something makes of the packet. */
  ghost predicate Decision(s: Table, c: Crypto, from: Addr, packet: Bytes, now: int, wall: nat, window: nat, key: Key, t: Table,
                           out: Outcome)
    requires |packet| >= 4
  {
    if c.IsJunk(packet, key, window) then t.peers == s.peers && out == Junk
    else
      exists sid, h ::
        && Knocks(s, c, packet, key, wall, sid, h)
        && (if Welcomes(s, key) then t.peers == s.peers[sid := NewPeer(c, key, sid, h, from, now)]
                                     && out == Accepted([Welcome(h.response)], [], from)
            else t.peers == s.peers && out == Unauthorized)
  }

  lemma KeyDecision(s: Table, r: Table, c: Crypto, from: Addr, packet: Bytes, now: int, wall: nat, window: nat, key: Key,
                    oldest: Bytes)
    requires |packet| >= 4 && r == Tried(s, now) && Decides(s, c, packet, wall, window, key)
    requires TryKey(r, c, from, packet, now, wall, window, key, oldest).Some?
    ensures var u := TryKey(r, c, from, packet, now, wall, window, key, oldest).value;
            Decision(s, c, from, packet, now, wall, window, key, u.0, u.1)
  {
    if !c.IsJunk(packet, key, window) {
      var sid, h :| Knocks(s, c, packet, key, wall, sid, h);
      assert Knocks(r, c, packet, key, wall, sid, h);
      TryKeyDecides(r, c, from, packet, now, wall, window, key, oldest, h, sid);
      assert Welcomes(r, key) == Welcomes(s, key);
    }
  }

  // ---------- Traffic ----------

  /** No user is charged. */
  ghost predicate SameTraffic(s: Table, t: Table) {
    forall key :: UpOf(t, key) == UpOf(s, key) && DownOf(t, key) == DownOf(s, key)
  }

  /** Exactly this user is charged, for what came up and what went down. */
  ghost predicate ChargedOnly(s: Table, t: Table, key: Key, up: nat, down: nat) {
    forall k :: UpOf(t, k) == UpOf(s, k) + (if k == key then up else 0)
                && DownOf(t, k) == DownOf(s, k) + (if k == key then down else 0)
  }

  lemma TouchedTraffic(s: Table, key: Key)
    ensures SameTraffic(s, Touched(s, key))
  {
  }

  lemma DropTraffic(s: Table, sid: nat)
    ensures SameTraffic(s, DropSession(s, sid))
  {
  }

  lemma {:induction false} TouchAllTraffic(s: Table, sids: seq<nat>)
    ensures SameTraffic(s, TouchAll(s, sids))
  {
    if sids != [] {
      var r, sid := TouchAll(s, sids[..|sids| - 1]), sids[|sids| - 1];
      TouchAllTraffic(s, sids[..|sids| - 1]);
      if sid in r.peers { TouchedTraffic(r, r.peers[sid].key); }
    }
  }

  lemma {:induction false} DropAllTraffic(s: Table, sids: seq<nat>)
    ensures SameTraffic(s, DropAll(s, sids))
  {
    if sids != [] {
      DropAllTraffic(s, sids[..|sids| - 1]);
      DropTraffic(DropAll(s, sids[..|sids| - 1]), sids[|sids| - 1]);
    }
  }

  lemma ClockTraffic(s: Table, now: int, wall: nat, choice: Choice)
    ensures SameTraffic(s, OnTick(s, now, wall, choice).0)
  {
    var q := s.(replay := Recent(s.replay, wall));
    TouchAllTraffic(q, choice.sids);
    DropAllTraffic(TouchAll(q, choice.sids), ExpiredOf(q, choice.sids, now));
    assert SameTraffic(s, q);
    TrafficAsBefore(s, q, TouchAll(q, choice.sids), DropAll(TouchAll(q, choice.sids), ExpiredOf(q, choice.sids, now)));
  }

  lemma TrafficAsBefore(s: Table, q: Table, r: Table, t: Table)
    requires SameTraffic(s, q) && SameTraffic(q, r) && SameTraffic(r, t)
    ensures SameTraffic(s, t)
  {
    forall key
      ensures UpOf(t, key) == UpOf(s, key) && DownOf(t, key) == DownOf(s, key)
    {
      assert UpOf(q, key) == UpOf(s, key) && UpOf(r, key) == UpOf(q, key);
    }
  }

  lemma OpenTraffic(s: Table, key: Key, secret: Secret, sid: nat, h: Handshake, from: Addr, now: int)
    ensures SameTraffic(s, Open(s, key, secret, sid, h, from, now).0)
  {
  }

  lemma AdmitTraffic(s: Table, key: Key, secret: Secret, sid: nat, h: Handshake, from: Addr, now: int, wall: nat, oldest: Bytes)
    requires |h.payload| >= 12
    ensures SameTraffic(s, Admit(s, key, secret, sid, h, from, now, wall, oldest).0)
  {
    var r := MakeRoom(s, wall, oldest);
    var u := Touched(r.(replay := r.replay[h.payload := Stamp(h.payload)]), key);
    TouchedTraffic(r.(replay := r.replay[h.payload := Stamp(h.payload)]), key);
    OpenTraffic(u, key, secret, sid, h, from, now);
  }

  lemma {:induction false} TryKeysTraffic(s: Table, c: Crypto, from: Addr, packet: Bytes, now: int, wall: nat, window: nat,
                                          keys: seq<Key>, oldest: Bytes)
    requires |packet| >= 4
    ensures SameTraffic(s, TryKeys(s, c, from, packet, now, wall, window, keys, oldest).0)
  {
    if keys != [] {
      TryKeysTraffic(s, c, from, packet, now, wall, window, keys[1..], oldest);
      var key, h := keys[0], c.open(packet, keys[0]);
      if h.Some? && |h.value.payload| >= 12 {
        AdmitTraffic(s, key, c.secretOf(key), c.handshakeSid(packet, c.secretOf(key)), h.value, from, now, wall, oldest);
      }
    }
  }

  lemma UnknownTraffic(s: Table, c: Crypto, from: Addr, packet: Bytes, now: int, wall: nat, window: nat, choice: Choice)
    requires |packet| >= 4
    ensures SameTraffic(s, OnUnknown(s, c, from, packet, now, wall, window, choice).0)
  {
    TryKeysTraffic(Tried(s, now), c, from, packet, now, wall, window, choice.keys, choice.oldest);
  }

  lemma SettleTraffic(s: Table, sid: nat, from: Addr, d: Datagram, size: nat, n: E.Endpoint, result: E.Outcome, now: int)
    requires sid in s.peers
    ensures ChargedOnly(s, Settle(s, sid, from, d, size, n, result, now).0, s.peers[sid].key, size, 0)
  {
    var f := Sessions.Fed(s, sid, from, d, size, n, result.Ok?);
    assert Settle(s, sid, from, d, size, n, result, now).0.users == f.users;
  }

  lemma KnownTraffic(s: Table, c: Crypto, sid: nat, from: Addr, packet: Bytes, now: int)
    requires sid in s.peers
    ensures var t, key := OnKnown(s, c, sid, from, packet, now).0, s.peers[sid].key;
            ChargedOnly(s, t, key, if Revoked(s, key) then 0 else |packet|, 0)
  {
    var p := s.peers[sid];
    BarredIff(s, p.key);
    TouchedTraffic(s, p.key);
    if Barred(s, p.key) {
      DropTraffic(Touched(s, p.key), sid);
    } else {
      var d := c.Unmask(packet, p.secret);
      var (n, result) := E.OnEvent(p.machine, E.Inbound(d), now);
      SettleTraffic(Touched(s, p.key), sid, from, d, |packet|, n, result, now);
    }
  }

  lemma RoutedTraffic(s: Table, c: Crypto, sid: nat, from: Addr, packet: Bytes, now: int, wall: nat, window: nat, choice: Choice)
    requires Route(s, c, from, packet, now, choice) == Some(sid)
    ensures sid in s.peers
    ensures var t, key := OnDatagram(s, c, from, packet, now, wall, window, choice).0, s.peers[sid].key;
            ChargedOnly(s, t, key, if Revoked(s, key) then 0 else |packet|, 0)
  {
    var r := RouteDecides(s, c, from, packet, now, wall, window, choice, sid);
    KnownTraffic(r, c, sid, from, packet, now);
  }

  /** The user whose session a datagram is for is charged its length; no one else is charged anything. */
  lemma DatagramTraffic(s: Table, c: Crypto, from: Addr, packet: Bytes, now: int, wall: nat, window: nat, choice: Choice)
    ensures var t, route := OnDatagram(s, c, from, packet, now, wall, window, choice).0, Route(s, c, from, packet, now, choice);
            if route.Some? && route.value in s.peers && !Revoked(s, s.peers[route.value].key)
            then ChargedOnly(s, t, s.peers[route.value].key, |packet|, 0)
            else SameTraffic(s, t)
  {
    var route := Route(s, c, from, packet, now, choice);
    if route.Some? {
      RoutedTraffic(s, c, route.value, from, packet, now, wall, window, choice);
    } else if |packet| >= 4 {
      StrayTraffic(s, c, from, packet, now, wall, window, choice);
    }
  }

  lemma StrayTraffic(s: Table, c: Crypto, from: Addr, packet: Bytes, now: int, wall: nat, window: nat, choice: Choice)
    requires |packet| >= 4 && Route(s, c, from, packet, now, choice).None?
    ensures SameTraffic(s, OnDatagram(s, c, from, packet, now, wall, window, choice).0)
  {
    StrayIs(s, c, from, packet, now, wall, window, choice);
    var r := if Dry(s, now) then Waiting(s, now) else Asking(s, now);
    UnknownTraffic(r, c, from, packet, now, wall, window, choice);
  }

  lemma OutboundTraffic(s: Table, sid: nat, stream: nat, payload: Bytes, now: int)
    ensures var (t, out) := OnOutbound(s, sid, stream, payload, now);
            if out.Some? && sid in s.peers then ChargedOnly(s, t, s.peers[sid].key, 0, out.value.0.Size()) else SameTraffic(s, t)
  {
  }

  /** The length on the wire of a payload's frame. */
  function SentSize(m: E.Endpoint, payload: Bytes): nat { |payload| + m.cfg.padding(m.sendNonce) + 40 }

  /** What one step charges this user. */
  function Costs(m: Table, c: Crypto, e: Timed, key: Key): (nat, nat) {
    match e.input
    case Packet(from, packet, window) =>
      var route := Route(m, c, from, packet, e.now, e.choice);
      if route.Some? && route.value in m.peers && m.peers[route.value].key == key && !Revoked(m, key) then (|packet|, 0)
      else (0, 0)
    case Send(sid, stream, payload) =>
      if sid in m.peers && m.peers[sid].key == key && m.peers[sid].machine.state == E.Established
      then (0, SentSize(m.peers[sid].machine, payload)) else (0, 0)
    case _ => (0, 0)
  }

  /** `t` follows `m` by this step, and the user has been charged what it costs. */
  ghost predicate Paid(m: Table, c: Crypto, e: Timed, key: Key, t: Table) {
    var cost := Costs(m, c, e, key);
    UpOf(t, key) == UpOf(m, key) + cost.0 && DownOf(t, key) == DownOf(m, key) + cost.1
  }

  lemma PacketPaid(m: Table, c: Crypto, e: Timed, key: Key)
    requires e.input.Packet?
    ensures Paid(m, c, e, key, Sessions.Next(m, c, e))
  {
    DatagramTraffic(m, c, e.input.from, e.input.packet, e.now, e.wall, e.input.window, e.choice);
  }

  lemma SendPaid(m: Table, c: Crypto, e: Timed, key: Key)
    requires e.input.Send?
    ensures Paid(m, c, e, key, Sessions.Next(m, c, e))
  {
    var sid, stream, payload := e.input.sid, e.input.stream, e.input.payload;
    OutboundTraffic(m, sid, stream, payload, e.now);
    OutboundGoesHome(m, sid, stream, payload, e.now);
    if sid in m.peers {
      var machine := m.peers[sid].machine;
      SealedSize(machine.cfg.sid, machine.sendNonce, machine.cfg.sendKey, Frame(Data, stream, payload),
                 machine.cfg.padding(machine.sendNonce));
    }
  }

  lemma ClockPaid(m: Table, c: Crypto, e: Timed, key: Key)
    requires e.input.Clock?
    ensures Paid(m, c, e, key, Sessions.Next(m, c, e))
  {
    ClockTraffic(m, e.now, e.wall, e.choice);
  }

  lemma ManagementPaid(m: Table, c: Crypto, e: Timed, key: Key)
    requires e.input.Drop? || e.input.Limit? || e.input.Rekey?
    ensures Paid(m, c, e, key, Sessions.Next(m, c, e))
  {
    if e.input.Drop? { DropTraffic(m, e.input.sid); }
  }

  lemma StepPaid(m: Table, c: Crypto, e: Timed, key: Key)
    ensures Paid(m, c, e, key, Sessions.Next(m, c, e))
  {
    if e.input.Packet? {
      PacketPaid(m, c, e, key);
    } else if e.input.Send? {
      SendPaid(m, c, e, key);
    } else if e.input.Clock? {
      ClockPaid(m, c, e, key);
    } else {
      ManagementPaid(m, c, e, key);
    }
  }

  function Plus(a: (nat, nat), b: (nat, nat)): (nat, nat) { (a.0 + b.0, a.1 + b.1) }

  /** What a run charges this user. */
  ghost function Bill(s: Table, c: Crypto, es: seq<Timed>, key: Key): (nat, nat) {
    if es == [] then (0, 0)
    else
      var front := es[..|es| - 1];
      var before, cost := Bill(s, c, front, key), Costs(TableAfter(s, c, front), c, es[|es| - 1], key);
      Plus(before, cost)
  }

  lemma BillIs(s: Table, c: Crypto, es: seq<Timed>, key: Key, m: Table, e: Timed)
    requires es != [] && e == es[|es| - 1] && m == TableAfter(s, c, es[..|es| - 1])
    ensures Bill(s, c, es, key) == Plus(Bill(s, c, es[..|es| - 1], key), Costs(m, c, e, key))
  {
  }

  lemma PaidAdds(m: Table, c: Crypto, e: Timed, key: Key, t: Table, before: (nat, nat))
    requires Paid(m, c, e, key, t) && (UpOf(m, key), DownOf(m, key)) == before
    ensures (UpOf(t, key), DownOf(t, key)) == Plus(before, Costs(m, c, e, key))
  {
  }

  lemma TableNext(s: Table, c: Crypto, es: seq<Timed>)
    requires es != []
    ensures TableAfter(s, c, es) == Sessions.Next(TableAfter(s, c, es[..|es| - 1]), c, es[|es| - 1])
  {
  }

  /** In every reachable table a user's counters are what its sessions received and sent, to the byte. */
  lemma {:induction false} TrafficIsBilled(keys: map<Key, Option<nat>>, start: int, c: Crypto, es: seq<Timed>, key: Key)
    ensures var t := TableAfter(New(keys, start), c, es); (UpOf(t, key), DownOf(t, key)) == Bill(New(keys, start), c, es, key)
  {
    var s := New(keys, start);
    if es != [] {
      var front := es[..|es| - 1];
      var m := TableAfter(s, c, front);
      TrafficIsBilled(keys, start, c, front, key);
      StepPaid(m, c, es[|es| - 1], key);
      TableNext(s, c, es);
      BillIs(s, c, es, key, m, es[|es| - 1]);
      PaidAdds(m, c, es[|es| - 1], key, TableAfter(s, c, es), Bill(s, c, front, key));
    }
  }

  /** A new limit keeps what was counted, and holds from then on; a user of whom nothing was known gets it too. */
  lemma LimitHolds(s: Table, key: Key, limit: Option<nat>)
    ensures var t := SetUserLimit(s, key, limit); SameTraffic(s, t) && LimitOf(t, key) == limit && t.peers == s.peers
  {
  }
}
