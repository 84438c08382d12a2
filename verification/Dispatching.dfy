/**
 The session table as the object the server keeps. Each map owns its values, the
 sessions' machines among them: `Endpoint.OnEvent` is what `ProtocolMachine.OnEvent`
 is proved to compute.
 Methods update the maps in place; each is proved against the value-level
 specification in `Sessions`, of which `View` is the current state.
 */
module Dispatching {
  import opened Basics
  import opened Wire
  import opened EndpointInvariants
  import opened Sessions
  import E = Endpoint

  // ---------- Walking hash maps ----------

  method Enumerate<K(==), V>(m: map<K, V>) returns (order: seq<K>)
    ensures forall k :: k in order <==> k in m
    ensures forall i, j :: 0 <= i < j < |order| ==> order[i] != order[j]
  {
    order := [];
    var rest := m.Keys;
    while rest != {}
      invariant rest <= m.Keys
      invariant forall k :: k in order <==> k in m.Keys - rest
      invariant forall i, j :: 0 <= i < j < |order| ==> order[i] != order[j]
      decreases |rest|
    {
      var k :| k in rest;
      assert k !in order;
      assert forall i :: 0 <= i < |order| ==> order[i] in order;
      order := order + [k];
      rest := rest - {k};
    }
  }

  method OldestEntry(replay: map<Bytes, nat>) returns (p: Bytes)
    requires replay != map[]
    ensures IsOldest(replay, p)
  {
    var order := Enumerate(replay);
    assert order != [] by {
      var k :| k in replay;
      assert k in order;
    }
    p := order[0];
    for i := 1 to |order|
      invariant p in replay && forall j :: 0 <= j < i ==> replay[p] <= replay[order[j]]
    {
      assert order[i] in order;
      if replay[order[i]] < replay[p] {
        p := order[i];
      }
    }
    assert forall q :: q in replay ==> q in order;
  }

  // ---------- Unpacking an action ----------

  function Bulk(a: E.Action): nat
    decreases a, 0
  {
    match a
    case Multiple(list) => 1 + AllBulk(list)
    case _ => 1
  }

  function AllBulk(list: seq<E.Action>): nat
    decreases list, 1
  {
    if list == [] then 0 else AllBulk(list[..|list| - 1]) + Bulk(list[|list| - 1])
  }

  lemma {:induction false} ConcatOutgoing(a: seq<E.Action>, b: seq<E.Action>)
    ensures AllOutgoing(a + b) == AllOutgoing(a) + AllOutgoing(b)
    ensures AllBulk(a + b) == AllBulk(a) + AllBulk(b)
  {
    if b == [] {
      assert a + b == a;
    } else {
      assert (a + b)[..|a + b| - 1] == a + b[..|b| - 1];
      ConcatOutgoing(a, b[..|b| - 1]);
    }
  }

  lemma {:induction false} BackwardsConcat(a: seq<Datagram>, b: seq<Datagram>)
    ensures Backwards(a + b) == Backwards(b) + Backwards(a)
  {
    if b == [] {
      assert a + b == a;
    } else {
      assert (a + b)[..|a + b| - 1] == a + b[..|b| - 1];
      BackwardsConcat(a, b[..|b| - 1]);
    }
  }

  /** The stack of a tick: an item is popped from the end, and a bundle's items are pushed back in order. */
  method Unpack(action: E.Action) returns (ds: seq<Datagram>)
    ensures ds == Backwards(Outgoing(action))
  {
    var queue := [action];
    ds := [];
    assert AllOutgoing([action]) == Outgoing(action) by {
      assert [action][..0] == [];
      assert AllOutgoing([action]) == AllOutgoing([]) + Outgoing(action);
    }
    while queue != []
      invariant ds + Backwards(AllOutgoing(queue)) == Backwards(Outgoing(action))
      decreases AllBulk(queue)
    {
      var front, current := queue[..|queue| - 1], queue[|queue| - 1];
      BackwardsConcat(AllOutgoing(front), Outgoing(current));
      assert AllBulk(queue) == AllBulk(front) + Bulk(current);
      match current {
        case Multiple(list) =>
          ConcatOutgoing(front, list);
          queue := front + list;
        case SendDatagram(d) =>
          assert Backwards([d]) == [d];
          ds := ds + [d];
          queue := front;
        case _ =>
          assert Backwards([]) == [];
          queue := front;
      }
    }
  }

  // ---------- The dispatcher ----------

  class Dispatcher {
    const crypto: Crypto
    var peerMachines: map<nat, Peer>
    var addrToSession: map<Addr, nat>
    var accessKeys: map<Key, Option<nat>>
    var userStats: map<Key, User>
    var replayCache: map<Bytes, nat>
    var roamingTokens: real
    var lastTokenRegen: int
    var trialTokens: real
    var lastTrialRegen: int
    ghost var trails: map<nat, Trail>
    ghost var admitted: seq<Bytes>
    ghost var forced: set<Bytes>
    ghost var lost: seq<Key>
    ghost var orphaned: set<Addr>
    ghost var scans: nat
    ghost var trials: nat

    ghost function View(): Table
      reads this
    {
      Table(peerMachines, addrToSession, accessKeys, userStats, replayCache,
            roamingTokens, lastTokenRegen, trialTokens, lastTrialRegen, trails, admitted, forced, lost, orphaned, scans, trials)
    }

    constructor (crypto: Crypto, keys: map<Key, Option<nat>>, now: int)
      ensures View() == New(keys, now) && this.crypto == crypto
    {
      this.crypto := crypto;
      peerMachines, addrToSession, accessKeys, replayCache := map[], map[], keys, map[];
      userStats := map k | k in keys :: User(0, 0, 0, keys[k]);
      roamingTokens, lastTokenRegen, trialTokens, lastTrialRegen := ROAMING_RATE, now, TRIAL_RATE, now;
      trails, admitted, forced, lost, orphaned, scans, trials := map[], [], {}, [], {}, 0, 0;
    }

    /** The user's entry, made on first sight. */
    method GetOrCreateUserStats(key: Key) returns (u: User)
      modifies this`userStats
      ensures u == UserIn(old(userStats), accessKeys, key) && userStats == old(userStats)[key := u]
    {
      if key !in userStats {
        userStats := userStats[key := User(0, 0, 0, if key in accessKeys then accessKeys[key] else None)];
      }
      u := userStats[key];
    }

    method TrackBytesUp(key: Key, size: nat)
      modifies this`userStats
      ensures userStats == Uploaded(old(userStats), accessKeys, key, size)
    {
      var u := GetOrCreateUserStats(key);
      userStats := userStats[key := u.(up := u.up + size)];
    }

    method TrackBytesDown(key: Key, size: nat)
      modifies this`userStats
      ensures userStats == Downloaded(old(userStats), accessKeys, key, size)
    {
      var u := GetOrCreateUserStats(key);
      userStats := userStats[key := u.(down := u.down + size)];
    }

    method CountSession(key: Key)
      modifies this`userStats
      ensures userStats == Joined(old(userStats), accessKeys, key)
    {
      var u := GetOrCreateUserStats(key);
      userStats := userStats[key := u.(connections := u.connections + 1)];
    }

    method UncountSession(key: Key)
      modifies this`userStats
      ensures userStats == Left(old(userStats), accessKeys, key)
    {
      var u := GetOrCreateUserStats(key);
      userStats := userStats[key := u.(connections := Monus(u.connections, 1))];
    }

    method DropSession(sid: nat)
      modifies this
      ensures View() == Sessions.DropSession(old(View()), sid)
    {
      if sid in peerMachines {
        var p := peerMachines[sid];
        peerMachines := peerMachines - {sid};
        addrToSession := addrToSession - {p.lastAddr};
        UncountSession(p.key);
        trails := trails - {sid};
      }
    }

    /** Asks each session in turn whether the packet is its own. */
    method ScanSessions(packet: Bytes, order: seq<nat>) returns (hit: Option<nat>)
      ensures hit == ScanPeers(peerMachines, crypto, packet, order)
    {
      for i := 0 to |order|
        invariant ScanPeers(peerMachines, crypto, packet, order) == ScanPeers(peerMachines, crypto, packet, order[i..])
      {
        var sid := order[i];
        assert order[i..][0] == sid && order[i..][1..] == order[i + 1..];
        if sid in peerMachines && Masks(crypto, packet, peerMachines[sid], sid) {
          return Some(sid);
        }
      }
      return None;
    }

    /** A packet that unmasks to a live session. */
    method OnSessionDatagram(sid: nat, from: Addr, packet: Bytes, now: int) returns (out: Outcome)
      requires sid in peerMachines
      modifies this
      ensures (View(), out) == OnKnown(old(View()), crypto, sid, from, packet, now)
    {
      var key := peerMachines[sid].key;
      var stats := GetOrCreateUserStats(key);
      if key !in accessKeys || stats.OverLimit() {
        DropSession(sid);
        return Unauthorized;
      }
      out := Process(sid, from, packet, now);
    }

    /** Hands the datagram to the session's machine and charges the user. */
    method Feed(sid: nat, from: Addr, d: Datagram, size: nat, now: int) returns (result: E.Outcome)
      requires sid in peerMachines
      modifies this
      ensures var (n, r) := E.OnEvent(old(peerMachines)[sid].machine, E.Inbound(d), now);
              result == r && View() == Fed(old(View()), sid, from, d, size, n, r.Ok?)
    {
      var p := peerMachines[sid];
      TrackBytesUp(p.key, size);
      var (n, r) := E.OnEvent(p.machine, E.Inbound(d), now);
      result := r;
      peerMachines := peerMachines[sid := p.(machine := n)];
      ghost var trail := TrailOf(old(View()), sid);
      trails := trails[sid := trail.(arrivals := trail.arrivals + Heard(p.machine, n, d, from, result.Ok?))];
    }

    method MoveTo(sid: nat, from: Addr)
      requires sid in peerMachines
      modifies this`addrToSession, this`peerMachines
      ensures View() == Roam(old(View()), sid, from)
    {
      var p := peerMachines[sid];
      addrToSession := (addrToSession - {p.lastAddr})[from := sid];
      peerMachines := peerMachines[sid := p.(lastAddr := from)];
    }

    method Process(sid: nat, from: Addr, packet: Bytes, now: int) returns (out: Outcome)
      requires sid in peerMachines
      modifies this
      ensures var p := old(View()).peers[sid];
              var d := crypto.Unmask(packet, p.secret);
              var (n, result) := E.OnEvent(p.machine, E.Inbound(d), now);
              (View(), out) == Settle(old(View()), sid, from, d, |packet|, n, result, now)
    {
      var before, lastAddr := peerMachines[sid].machine, peerMachines[sid].lastAddr;
      var result := Feed(sid, from, crypto.Unmask(packet, peerMachines[sid].secret), |packet|, now);
      if result.Err? {
        return Unauthorized;
      }
      if lastAddr != from && Raised(before, peerMachines[sid].machine) {
        MoveTo(sid, from);
      }
      var p := peerMachines[sid];
      out := Accepted(Replies(Outgoing(result.action)), Deliveries(result.action), p.lastAddr);
      if p.lastAddr == from {
        peerMachines := peerMachines[sid := p.(lastSeen := now)];
      }
    }

    /** Reclaims space in a full replay cache. `victim` is the entry it would force out. */
    method ReclaimReplayCache(wall: nat) returns (ghost victim: Bytes)
      modifies this`replayCache, this`forced
      ensures GoodVictim(old(replayCache), wall, victim)
      ensures View() == MakeRoom(old(View()), wall, victim)
    {
      var kept := Recent(replayCache, wall);
      if |replayCache| >= REPLAY_CACHE_MAX {
        replayCache := kept;
        if |replayCache| >= REPLAY_CACHE_MAX {
          assert kept != map[];
          var oldest := OldestEntry(replayCache);
          victim := oldest;
          replayCache := replayCache - {oldest};
          forced := forced + {oldest};
          return;
        }
      }
      victim := AnyVictim(kept);
    }

    /** The session and its address take their places, over any session that had the same id. */
    method Seat(sid: nat, peer: Peer)
      modifies this`peerMachines, this`addrToSession, this`trails, this`lost, this`orphaned
      ensures peerMachines == old(peerMachines)[sid := peer] && addrToSession == old(addrToSession)[peer.lastAddr := sid]
      ensures trails == old(trails)[sid := Trail(peer.lastAddr, [])] && lost == LostTo(old(peerMachines), old(lost), sid)
      ensures orphaned == OrphanedBy(old(peerMachines), old(orphaned), sid, peer.lastAddr)
    {
      lost := LostTo(peerMachines, lost, sid);
      orphaned := OrphanedBy(peerMachines, orphaned, sid, peer.lastAddr);
      peerMachines := peerMachines[sid := peer];
      addrToSession := addrToSession[peer.lastAddr := sid];
      trails := trails[sid := Trail(peer.lastAddr, [])];
    }

    method Register(sid: nat, peer: Peer)
      modifies this
      ensures View() == Connect(old(View()), sid, peer)
    {
      Seat(sid, peer);
      CountSession(peer.key);
    }

    /** Opens the session a handshake asks for, unless its user may not connect. */
    method OpenSession(key: Key, secret: Secret, sid: nat, h: Handshake, from: Addr, now: int) returns (out: Outcome)
      modifies this
      ensures (View(), out) == Open(Touched(old(View()), key), key, secret, sid, h, from, now)
    {
      var stats := GetOrCreateUserStats(key);
      if stats.OverLimit() {
        return Unauthorized;
      }
      Register(sid, Peer(E.Start(h.cfg.(sid := sid), h.mtu, now), from, secret, now, key));
      admitted := admitted + [h.payload];
      out := Accepted([Welcome(h.response)], [], from);
    }

    /** A handshake that opened and names this key: is it fresh, and is there room? */
    method AdmitHandshake(key: Key, secret: Secret, sid: nat, h: Handshake, from: Addr, now: int, wall: nat)
      returns (out: Outcome, ghost victim: Bytes)
      requires Fresh(View(), h.payload, key, sid, wall)
      modifies this
      ensures GoodVictim(old(replayCache), wall, victim)
      ensures (View(), out) == Admit(old(View()), key, secret, sid, h, from, now, wall, victim)
    {
      victim := ReclaimReplayCache(wall);
      if |peerMachines| >= MAX_SESSIONS {
        return Unauthorized, victim;
      }
      replayCache := replayCache[h.payload := Stamp(h.payload)];
      out := OpenSession(key, secret, sid, h, from, now);
    }

    /** One candidate key. Nothing changes unless its handshake is admitted or turned away for good. */
    method TryCandidate(from: Addr, packet: Bytes, now: int, wall: nat, window: nat, key: Key)
      returns (r: Option<Outcome>, ghost victim: Bytes)
      requires |packet| >= 4
      modifies this
      ensures GoodVictim(old(replayCache), wall, victim)
      ensures r.None? ==> View() == old(View())
                          && forall v :: TryKey(old(View()), crypto, from, packet, now, wall, window, key, v).None?
      ensures r.Some? ==> TryKey(old(View()), crypto, from, packet, now, wall, window, key, victim) == Some((View(), r.value))
    {
      victim := AnyVictim(Recent(replayCache, wall));
      if crypto.IsJunk(packet, key, window) {
        return Some(Junk), victim;
      }
      if |packet| < 7 {
        return None, victim;
      }
      var secret := crypto.secretOf(key);
      var sid := crypto.handshakeSid(packet, secret);
      var attempt := crypto.open(packet, key);
      if attempt.None? {
        return None, victim;
      }
      var h := attempt.value;
      if |h.payload| < 12 || FromBe(h.payload[8..12]) != sid || h.payload[12..] != key {
        return None, victim;
      }
      if Drift(wall, Stamp(h.payload)) > DRIFT_LIMIT || h.payload in replayCache {
        return None, victim;
      }
      var out;
      out, victim := AdmitHandshake(key, secret, sid, h, from, now, wall);
      r := Some(out);
    }

    method TryCandidates(from: Addr, packet: Bytes, now: int, wall: nat, window: nat, order: seq<Key>)
      returns (out: Outcome, ghost victim: Bytes)
      requires |packet| >= 4
      modifies this
      ensures GoodVictim(old(replayCache), wall, victim)
      ensures (View(), out) == TryKeys(old(View()), crypto, from, packet, now, wall, window, order, victim)
    {
      for i := 0 to |order|
        invariant View() == old(View())
        invariant forall v :: TryKeys(View(), crypto, from, packet, now, wall, window, order, v)
                              == TryKeys(View(), crypto, from, packet, now, wall, window, order[i..], v)
      {
        assert order[i..][0] == order[i] && order[i..][1..] == order[i + 1..];
        var r;
        r, victim := TryCandidate(from, packet, now, wall, window, order[i]);
        if r.Some? {
          return r.value, victim;
        }
      }
      victim := AnyVictim(Recent(replayCache, wall));
      out := Unauthorized;
    }

    method TakeTrialToken(now: int) returns (granted: bool)
      modifies this`trialTokens, this`lastTrialRegen, this`trials
      ensures var s, tokens := old(View()), Refilled(old(trialTokens), old(lastTrialRegen), now, TRIAL_RATE);
              && granted == (tokens >= 1.0)
              && View() == if granted then s.(trialTokens := tokens - 1.0, lastTrial := now, trials := s.trials + 1)
                           else s.(trialTokens := tokens, lastTrial := now)
    {
      trialTokens := Refilled(trialTokens, lastTrialRegen, now, TRIAL_RATE);
      lastTrialRegen := now;
      granted := trialTokens >= 1.0;
      if granted {
        trialTokens := trialTokens - 1.0;
        trials := trials + 1;
      }
    }

    method TakeRoamingToken(now: int) returns (granted: bool)
      modifies this`roamingTokens, this`lastTokenRegen, this`scans
      ensures var s, tokens := old(View()), Refilled(old(roamingTokens), old(lastTokenRegen), now, ROAMING_RATE);
              && granted == (tokens >= 1.0)
              && View() == if granted then s.(roamTokens := tokens - 1.0, lastRoam := now, scans := s.scans + 1)
                           else s.(roamTokens := tokens, lastRoam := now)
    {
      roamingTokens := Refilled(roamingTokens, lastTokenRegen, now, ROAMING_RATE);
      lastTokenRegen := now;
      granted := roamingTokens >= 1.0;
      if granted {
        roamingTokens := roamingTokens - 1.0;
        scans := scans + 1;
      }
    }

    /** The expensive path: every key is tried, if the trial bucket allows one more. */
    method OnUnknownDatagram(from: Addr, packet: Bytes, now: int, wall: nat, window: nat)
      returns (out: Outcome, ghost order: seq<Key>, ghost victim: Bytes)
      requires |packet| >= 4
      modifies this
      ensures Enumerates(order, old(accessKeys).Keys) && GoodVictim(old(replayCache), wall, victim)
      ensures forall sids :: (View(), out) == OnUnknown(old(View()), crypto, from, packet, now, wall, window,
                                                        Choice(sids, order, victim))
    {
      var granted := TakeTrialToken(now);
      var keys := Enumerate(accessKeys);
      order := keys;
      if !granted {
        victim := AnyVictim(Recent(replayCache, wall));
        return Unauthorized, order, victim;
      }
      out, victim := TryCandidates(from, packet, now, wall, window, keys);
    }

    method AskSessions(from: Addr, packet: Bytes, now: int, wall: nat, window: nat)
      returns (out: Outcome, ghost choice: Choice)
      requires |packet| >= 4
      modifies this
      ensures Fair(old(View()), wall, choice)
      ensures (View(), out) == Sessions.AskSessions(old(View()), crypto, from, packet, now, wall, window, choice)
    {
      choice := AnyChoice(View(), wall);
      var sids := Enumerate(peerMachines);
      choice := choice.(sids := sids);
      var hit := ScanSessions(packet, sids);
      if hit.Some? {
        out := OnSessionDatagram(hit.value, from, packet, now);
        return;
      }
      ghost var keys, victim;
      out, keys, victim := OnUnknownDatagram(from, packet, now, wall, window);
      choice := Choice(sids, keys, victim);
    }

    /** No session is indexed at this address: the sessions are asked, if the roaming bucket allows it. */
    method OnStrayDatagram(from: Addr, packet: Bytes, now: int, wall: nat, window: nat)
      returns (out: Outcome, ghost choice: Choice)
      requires |packet| >= 4
      modifies this
      ensures Fair(old(View()), wall, choice)
      ensures (View(), out) == OnStray(old(View()), crypto, from, packet, now, wall, window, choice)
    {
      choice := AnyChoice(View(), wall);
      var granted := TakeRoamingToken(now);
      if granted {
        out, choice := AskSessions(from, packet, now, wall, window);
        return;
      }
      ghost var keys, victim;
      out, keys, victim := OnUnknownDatagram(from, packet, now, wall, window);
      choice := Choice(choice.sids, keys, victim);
    }

    /** One datagram from `from`. `choice` reports the map orders it met and the cache victim. */
    method OnDatagram(from: Addr, packet: Bytes, now: int, wall: nat, window: nat)
      returns (out: Outcome, ghost choice: Choice)
      modifies this
      ensures Fair(old(View()), wall, choice)
      ensures (View(), out) == Sessions.OnDatagram(old(View()), crypto, from, packet, now, wall, window, choice)
    {
      choice := AnyChoice(View(), wall);
      if |packet| < 4 {
        return Unauthorized, choice;
      }
      if from in addrToSession {
        var sid := addrToSession[from];
        if sid in peerMachines {
          if Masks(crypto, packet, peerMachines[sid], sid) {
            out := OnSessionDatagram(sid, from, packet, now);
            return;
          }
        }
      }
      out, choice := OnStrayDatagram(from, packet, now, wall, window);
    }

    /** Every user with a session gets an entry, and every session past its time is listed. */
    method GatherExpired(order: seq<nat>, now: int) returns (expired: seq<nat>)
      modifies this`userStats
      ensures View() == TouchAll(old(View()), order)
      ensures expired == ExpiredOf(old(View()), order, now)
    {
      expired := [];
      assert order[..0] == [];
      for i := 0 to |order|
        invariant View() == TouchAll(old(View()), order[..i])
        invariant expired == ExpiredOf(old(View()), order[..i], now)
      {
        var sid := order[i];
        assert order[..i + 1][..i] == order[..i] && order[..i + 1][i] == sid;
        TouchingKeeps(old(View()), order[..i], sid, now);
        if sid in peerMachines {
          var p := peerMachines[sid];
          var stats := GetOrCreateUserStats(p.key);
          if p.machine.state == E.Closed || Since(now, p.lastSeen) > SESSION_TIMEOUT || p.key !in accessKeys
             || stats.OverLimit() {
            expired := expired + [sid];
          }
        }
      }
      assert order[..|order|] == order;
    }

    method DropSessions(sids: seq<nat>)
      modifies this
      ensures View() == DropAll(old(View()), sids)
    {
      assert sids[..0] == [];
      for i := 0 to |sids|
        invariant View() == DropAll(old(View()), sids[..i])
      {
        assert sids[..i + 1][..i] == sids[..i] && sids[..i + 1][i] == sids[i];
        DropSession(sids[i]);
      }
      assert sids[..|sids|] == sids;
    }

    /** Ticks each live session once and collects what it sends, addressed to where the session is. */
    method TickSessions(order: seq<nat>, now: int) returns (frames: seq<(Datagram, Addr)>)
      requires forall i, j :: 0 <= i < j < |order| ==> order[i] != order[j]
      modifies this`peerMachines
      ensures peerMachines == TickSome(old(peerMachines), order, now)
      ensures frames == TickFrames(old(View()), order, now)
    {
      frames := [];
      assert order[..0] == [];
      for i := 0 to |order|
        invariant peerMachines == TickSome(old(peerMachines), order[..i], now)
        invariant frames == TickFrames(old(View()), order[..i], now)
      {
        var sid := order[i];
        assert order[..i + 1][..i] == order[..i] && order[..i + 1][i] == sid;
        assert sid !in order[..i];
        if sid in peerMachines {
          var p := peerMachines[sid];
          var (n, result) := E.OnEvent(p.machine, E.Tick, now);
          peerMachines := peerMachines[sid := p.(machine := n)];
          if result.Ok? {
            var ds := Unpack(result.action);
            frames := frames + Homeward(ds, p.lastAddr);
          }
        }
        TickOneMore(old(peerMachines), order[..i], sid, now);
      }
      assert order[..|order|] == order;
    }

    /** Expired handshakes are forgotten and expired sessions dropped. */
    method Purge(order: seq<nat>, now: int, wall: nat) returns (expired: seq<nat>)
      modifies this
      ensures var q := old(View()).(replay := Recent(old(replayCache), wall));
              expired == ExpiredOf(q, order, now) && View() == DropAll(TouchAll(q, order), expired)
    {
      replayCache := Recent(replayCache, wall);
      expired := GatherExpired(order, now);
      DropSessions(expired);
    }

    method OnTick(now: int, wall: nat) returns (frames: seq<(Datagram, Addr)>, expired: seq<nat>, ghost choice: Choice)
      modifies this
      ensures Fair(old(View()), wall, choice)
      ensures (View(), frames, expired) == Sessions.OnTick(old(View()), now, wall, choice)
    {
      choice := AnyChoice(View(), wall);
      var order := Enumerate(peerMachines);
      choice := choice.(sids := order);
      expired := Purge(order, now, wall);
      ghost var t := View();
      DropAllShrinks(old(View()).(replay := Recent(old(replayCache), wall)), order, expired);
      frames := TickSessions(order, now);
      TickSomeIsAll(t, order, now);
    }

    method OutboundToSession(sid: nat, stream: nat, payload: Bytes, now: int) returns (r: Option<(Datagram, Addr)>)
      modifies this
      ensures (View(), r) == OnOutbound(old(View()), sid, stream, payload, now)
    {
      if sid !in peerMachines {
        return None;
      }
      var p := peerMachines[sid];
      var (n, result) := E.OnEvent(p.machine, E.Outbound(stream, payload), now);
      peerMachines := peerMachines[sid := p.(machine := n)];
      if result.Ok? && result.action.SendDatagram? {
        TrackBytesDown(p.key, result.action.datagram.Size());
        return Some((result.action.datagram, p.lastAddr));
      }
      r := None;
    }

    /** A new limit; the counters stay. */
    method SetUserLimit(key: Key, limit: Option<nat>)
      modifies this`userStats
      ensures View() == Sessions.SetUserLimit(old(View()), key, limit)
    {
      if key !in userStats {
        userStats := userStats[key := User(0, 0, 0, limit)];
      }
      var entry := userStats[key];
      userStats := userStats[key := User(entry.up, entry.down, entry.connections, limit)];
    }
  }

  /** Looking users up changes nobody's standing. */
  lemma {:induction false} TouchingKeeps(s: Table, sids: seq<nat>, sid: nat, now: int)
    ensures var t := TouchAll(s, sids);
            t.peers == s.peers && t.keys == s.keys && (forall k :: UserOf(t, k) == UserOf(s, k))
            && (Expired(t, sid, now) <==> Expired(s, sid, now))
  {
    if sids != [] { TouchingKeeps(s, sids[..|sids| - 1], sid, now); }
  }

  lemma {:induction false} DropAllShrinks(s: Table, order: seq<nat>, sids: seq<nat>)
    ensures DropAll(TouchAll(s, order), sids).peers.Keys <= s.peers.Keys
  {
    if sids == [] {
      TouchingKeeps(s, order, 0, 0);
    } else {
      DropAllShrinks(s, order, sids[..|sids| - 1]);
    }
  }

  /** The sessions once those in `done` have been ticked. */
  function TickSome(peers: map<nat, Peer>, done: seq<nat>, now: int): map<nat, Peer> {
    map sid | sid in peers :: if sid in done then Ticked(peers[sid], now).0 else peers[sid]
  }

  lemma TickOneMore(peers: map<nat, Peer>, done: seq<nat>, sid: nat, now: int)
    ensures TickSome(peers, done + [sid], now)
            == if sid in peers then TickSome(peers, done, now)[sid := Ticked(peers[sid], now).0]
               else TickSome(peers, done, now)
  {
  }

  lemma TickSomeIsAll(t: Table, order: seq<nat>, now: int)
    requires forall sid :: sid in t.peers ==> sid in order
    ensures TickSome(t.peers, order, now) == TickAll(t, now).peers
  {
  }

  lemma AnyOrder<K(!new)>(all: set<K>) returns (order: seq<K>)
    ensures Enumerates(order, all)
    decreases all
  {
    order := [];
    if all != {} {
      var k :| k in all;
      var rest := AnyOrder(all - {k});
      order := rest + [k];
      assert all == (all - {k}) + {k};
    }
  }

  lemma AnyChoice(s: Table, wall: nat) returns (choice: Choice)
    ensures Fair(s, wall, choice)
  {
    var sids := AnyOrder(s.peers.Keys);
    var keys := AnyOrder(s.keys.Keys);
    var victim := AnyVictim(Recent(s.replay, wall));
    choice := Choice(sids, keys, victim);
  }

  lemma AnyVictim(kept: map<Bytes, nat>) returns (p: Bytes)
    ensures kept != map[] ==> IsOldest(kept, p)
  {
    p := [];
    if kept != map[] {
      p := OldestOf(kept, kept.Keys);
    }
  }

  lemma {:induction false} OldestOf(replay: map<Bytes, nat>, some: set<Bytes>) returns (p: Bytes)
    requires some != {} && some <= replay.Keys
    ensures p in some && forall q :: q in some ==> replay[p] <= replay[q]
    decreases some
  {
    var first :| first in some;
    var rest := some - {first};
    p := first;
    if rest != {} {
      var q := OldestOf(replay, rest);
      if replay[q] < replay[first] { p := q; }
    }
    forall r | r in some
      ensures replay[p] <= replay[r]
    {
      assert r == first || r in rest;
    }
  }
}
