/**
 The server's books agree in every reachable table: each address entry points at a
 live session that is at that address, and each user's session count is its number
 of live sessions. Both are exact up to the sessions overwritten by a handshake
 that named a live id, and hold outright if and only if there were none. The
 session table and the replay cache keep their limits always.
 */
module SessionBooks {
  import opened Basics
  import opened Wire
  import opened Sessions
  import E = Endpoint

  ghost function SessionsOf(peers: map<nat, Peer>, key: Key): set<nat> {
    set sid | sid in peers && peers[sid].key == key
  }

  function CountOf(users: map<Key, User>, key: Key): nat {
    if key in users then users[key].connections else 0
  }

  /** How many sessions a user's count should show: those live, and those lost to an overwrite. */
  ghost function Owed(peers: map<nat, Peer>, lost: seq<Key>, key: Key): nat {
    |SessionsOf(peers, key)| + multiset(lost)[key]
  }

  ghost predicate Counted(peers: map<nat, Peer>, users: map<Key, User>, lost: seq<Key>) {
    forall k :: CountOf(users, k) == Owed(peers, lost, k)
  }

  ghost predicate Indexed(addrs: map<Addr, nat>, peers: map<nat, Peer>, orphaned: set<Addr>) {
    forall a :: a in addrs && a !in orphaned ==> addrs[a] in peers && peers[addrs[a]].lastAddr == a
  }

  ghost predicate Books(s: Table) {
    && Counted(s.peers, s.users, s.lost)
    && Indexed(s.addrs, s.peers, s.orphaned)
    && |s.peers| <= MAX_SESSIONS && |s.replay| <= REPLAY_CACHE_MAX
    && (s.lost == [] ==> s.orphaned == {})
  }

  // ---------- Operations that leave the books alone ----------

  /** Who is live, where, and under which key. */
  ghost predicate SamePeers(p: map<nat, Peer>, q: map<nat, Peer>) {
    && p.Keys == q.Keys
    && forall sid :: sid in p ==> q[sid].key == p[sid].key && q[sid].lastAddr == p[sid].lastAddr
  }

  ghost predicate SameBooks(s: Table, t: Table) {
    && SamePeers(s.peers, t.peers)
    && (forall k :: CountOf(t.users, k) == CountOf(s.users, k))
    && t.addrs == s.addrs && t.lost == s.lost && t.orphaned == s.orphaned
    && |t.replay| <= REPLAY_CACHE_MAX
  }

  lemma SameSessions(p: map<nat, Peer>, q: map<nat, Peer>, lost: seq<Key>, k: Key)
    requires SamePeers(p, q)
    ensures Owed(p, lost, k) == Owed(q, lost, k)
  {
    assert SessionsOf(p, k) == SessionsOf(q, k);
  }

  lemma SameBooksKeep(s: Table, t: Table)
    requires Books(s) && SameBooks(s, t)
    ensures Books(t)
  {
    forall k
      ensures CountOf(t.users, k) == Owed(t.peers, t.lost, k)
    {
      SameSessions(s.peers, t.peers, s.lost, k);
    }
    assert |t.peers| == |t.peers.Keys| && |s.peers| == |s.peers.Keys|;
  }

  lemma TouchBooks(s: Table, key: Key)
    requires Books(s)
    ensures Books(Touched(s, key))
  {
    SameBooksKeep(s, Touched(s, key));
  }

  // ---------- Operations that change them ----------

  lemma DropOwes(peers: map<nat, Peer>, lost: seq<Key>, sid: nat, k: Key)
    requires sid in peers
    ensures Owed(peers - {sid}, lost, k) + (if peers[sid].key == k then 1 else 0) == Owed(peers, lost, k)
  {
    var before, after := SessionsOf(peers, k), SessionsOf(peers - {sid}, k);
    if peers[sid].key == k {
      assert sid in before && after == before - {sid};
    } else {
      assert after == before;
    }
  }

  lemma DropBooks(s: Table, sid: nat)
    requires Books(s)
    ensures Books(DropSession(s, sid))
  {
    if sid in s.peers {
      var t := DropSession(s, sid);
      forall k
        ensures CountOf(t.users, k) == Owed(t.peers, t.lost, k)
      {
        DropOwes(s.peers, s.lost, sid, k);
      }
      DropIndex(s.addrs, s.peers, s.orphaned, sid);
      assert |t.peers.Keys| == |s.peers.Keys - {sid}|;
    }
  }

  lemma DropIndex(addrs: map<Addr, nat>, peers: map<nat, Peer>, orphaned: set<Addr>, sid: nat)
    requires Indexed(addrs, peers, orphaned) && sid in peers
    ensures Indexed(addrs - {peers[sid].lastAddr}, peers - {sid}, orphaned)
  {
  }

  lemma RoamIndex(addrs: map<Addr, nat>, peers: map<nat, Peer>, orphaned: set<Addr>, sid: nat, q: Peer)
    requires Indexed(addrs, peers, orphaned) && sid in peers
    ensures Indexed((addrs - {peers[sid].lastAddr})[q.lastAddr := sid], peers[sid := q], orphaned)
  {
  }

  lemma RoamBooks(s: Table, sid: nat, from: Addr)
    requires Books(s) && sid in s.peers
    ensures Books(Roam(s, sid, from))
  {
    var t := Roam(s, sid, from);
    assert t.peers.Keys == s.peers.Keys;
    forall k
      ensures CountOf(t.users, k) == Owed(t.peers, t.lost, k)
    {
      assert SessionsOf(t.peers, k) == SessionsOf(s.peers, k);
    }
    RoamIndex(s.addrs, s.peers, s.orphaned, sid, s.peers[sid].(lastAddr := from));
    assert |t.peers| == |t.peers.Keys|;
  }

  lemma ConnectOwes(peers: map<nat, Peer>, lost: seq<Key>, sid: nat, p: Peer, k: Key)
    ensures Owed(peers[sid := p], LostTo(peers, lost, sid), k) == Owed(peers, lost, k) + (if p.key == k then 1 else 0)
  {
    ConnectSessions(peers, sid, p, k);
    LostCount(peers, lost, sid, k);
  }

  /** Whether the session now under `sid` is one of `k`'s. */
  function Holder(peers: map<nat, Peer>, sid: nat, k: Key): nat {
    if sid in peers && peers[sid].key == k then 1 else 0
  }

  lemma ConnectSessions(peers: map<nat, Peer>, sid: nat, p: Peer, k: Key)
    ensures |SessionsOf(peers[sid := p], k)| + Holder(peers, sid, k)
            == |SessionsOf(peers, k)| + (if p.key == k then 1 else 0)
  {
    var before, after := SessionsOf(peers, k), SessionsOf(peers[sid := p], k);
    var others := before - {sid};
    assert after == if k == p.key then others + {sid} else others;
    assert before == if Holder(peers, sid, k) == 1 then others + {sid} else others;
  }

  lemma LostCount(peers: map<nat, Peer>, lost: seq<Key>, sid: nat, k: Key)
    ensures multiset(LostTo(peers, lost, sid))[k] == multiset(lost)[k] + Holder(peers, sid, k)
  {
  }

  lemma ConnectIndex(addrs: map<Addr, nat>, peers: map<nat, Peer>, orphaned: set<Addr>, sid: nat, p: Peer)
    requires Indexed(addrs, peers, orphaned)
    ensures Indexed(addrs[p.lastAddr := sid], peers[sid := p], OrphanedBy(peers, orphaned, sid, p.lastAddr))
  {
  }

  lemma ConnectCounted(peers: map<nat, Peer>, users: map<Key, User>, lost: seq<Key>, sid: nat, p: Peer, u: User)
    requires Counted(peers, users, lost) && u.connections == CountOf(users, p.key) + 1
    ensures Counted(peers[sid := p], users[p.key := u], LostTo(peers, lost, sid))
  {
    var after := users[p.key := u];
    forall k
      ensures CountOf(after, k) == Owed(peers[sid := p], LostTo(peers, lost, sid), k)
    {
      ConnectOwes(peers, lost, sid, p, k);
    }
  }

  lemma OneMorePeer(peers: map<nat, Peer>, sid: nat, p: Peer)
    ensures |peers[sid := p]| <= |peers| + 1
  {
    assert peers[sid := p].Keys == peers.Keys + {sid};
    assert |peers[sid := p]| == |peers[sid := p].Keys|;
  }

  lemma ConnectBooks(s: Table, sid: nat, p: Peer)
    requires Books(s) && |s.peers| < MAX_SESSIONS
    ensures Books(Connect(s, sid, p))
  {
    var t := Connect(s, sid, p);
    var u := t.users[p.key];
    assert t.users == s.users[p.key := u] && u.connections == CountOf(s.users, p.key) + 1;
    ConnectCounted(s.peers, s.users, s.lost, sid, p, u);
    ConnectIndex(s.addrs, s.peers, s.orphaned, sid, p);
    OneMorePeer(s.peers, sid, p);
  }

  lemma RecentIsPart(replay: map<Bytes, nat>, wall: nat)
    ensures |Recent(replay, wall)| <= |replay|
  {
    SubsetSize(Recent(replay, wall).Keys, replay.Keys);
  }

  lemma SubsetSize<T>(a: set<T>, b: set<T>)
    requires a <= b
    ensures |a| <= |b|
  {
    assert b == a + (b - a);
  }

  /** There is room for one more entry once room has been made. */
  lemma RoomMade(s: Table, wall: nat, oldest: Bytes)
    requires |s.replay| <= REPLAY_CACHE_MAX
    requires GoodVictim(s.replay, wall, oldest)
    ensures |MakeRoom(s, wall, oldest).replay| < REPLAY_CACHE_MAX
  {
    var kept := Recent(s.replay, wall);
    RecentIsPart(s.replay, wall);
    if |kept| >= REPLAY_CACHE_MAX {
      assert kept != map[];
      assert (kept - {oldest}).Keys == kept.Keys - {oldest};
    }
  }

  // ---------- Datagrams ----------

  lemma FedBooks(s: Table, sid: nat, from: Addr, d: Datagram, size: nat, n: E.Endpoint, ok: bool)
    requires Books(s) && sid in s.peers
    ensures Books(Fed(s, sid, from, d, size, n, ok))
  {
    SameBooksKeep(s, Fed(s, sid, from, d, size, n, ok));
  }

  lemma SeenBooks(s: Table, sid: nat, from: Addr, now: int)
    requires Books(s) && sid in s.peers
    ensures Books(Seen(s, sid, from, now))
  {
    SameBooksKeep(s, Seen(s, sid, from, now));
  }

  lemma SettleBooks(s: Table, sid: nat, from: Addr, d: Datagram, size: nat, n: E.Endpoint, result: E.Outcome, now: int)
    requires Books(s) && sid in s.peers
    ensures Books(Settle(s, sid, from, d, size, n, result, now).0)
  {
    var p := s.peers[sid];
    var t := Fed(s, sid, from, d, size, n, result.Ok?);
    FedBooks(s, sid, from, d, size, n, result.Ok?);
    if result.Ok? {
      if p.lastAddr != from && Raised(p.machine, n) {
        RoamBooks(t, sid, from);
        SeenBooks(Roam(t, sid, from), sid, from, now);
      } else {
        SeenBooks(t, sid, from, now);
      }
    }
  }

  lemma KnownBooks(s: Table, c: Crypto, sid: nat, from: Addr, packet: Bytes, now: int)
    requires Books(s) && sid in s.peers
    ensures Books(OnKnown(s, c, sid, from, packet, now).0)
  {
    var p := s.peers[sid];
    TouchBooks(s, p.key);
    if Barred(s, p.key) {
      DropBooks(Touched(s, p.key), sid);
    } else {
      var d := c.Unmask(packet, p.secret);
      var (n, result) := E.OnEvent(p.machine, E.Inbound(d), now);
      SettleBooks(Touched(s, p.key), sid, from, d, |packet|, n, result, now);
    }
  }

  lemma OpenBooks(s: Table, key: Key, secret: Secret, sid: nat, h: Handshake, from: Addr, now: int)
    requires Books(s) && |s.peers| < MAX_SESSIONS
    ensures Books(Open(s, key, secret, sid, h, from, now).0)
  {
    if !UserOf(s, key).OverLimit() {
      var p := Peer(E.Start(h.cfg.(sid := sid), h.mtu, now), from, secret, now, key);
      ConnectBooks(s, sid, p);
      SameBooksKeep(Connect(s, sid, p), Open(s, key, secret, sid, h, from, now).0);
    }
  }

  lemma RememberBooks(s: Table, payload: Bytes, stamp: nat)
    requires Books(s) && |s.replay| < REPLAY_CACHE_MAX
    ensures Books(s.(replay := s.replay[payload := stamp]))
  {
    var replay := s.replay[payload := stamp];
    assert replay.Keys == s.replay.Keys + {payload};
    assert |replay| == |replay.Keys|;
  }

  lemma AdmitBooks(s: Table, key: Key, secret: Secret, sid: nat, h: Handshake, from: Addr, now: int, wall: nat, oldest: Bytes)
    requires Books(s) && |h.payload| >= 12
    requires GoodVictim(s.replay, wall, oldest)
    ensures Books(Admit(s, key, secret, sid, h, from, now, wall, oldest).0)
  {
    var r := MakeRoom(s, wall, oldest);
    RoomMade(s, wall, oldest);
    assert Books(r);
    if |r.peers| < MAX_SESSIONS {
      RememberBooks(r, h.payload, Stamp(h.payload));
      var t := r.(replay := r.replay[h.payload := Stamp(h.payload)]);
      TouchBooks(t, key);
      OpenBooks(Touched(t, key), key, secret, sid, h, from, now);
    }
  }

  lemma {:induction false} TryKeysBooks(s: Table, c: Crypto, from: Addr, packet: Bytes, now: int, wall: nat, window: nat,
                                        keys: seq<Key>, oldest: Bytes)
    requires Books(s) && |packet| >= 4
    requires GoodVictim(s.replay, wall, oldest)
    ensures Books(TryKeys(s, c, from, packet, now, wall, window, keys, oldest).0)
  {
    if keys != [] {
      TryKeysBooks(s, c, from, packet, now, wall, window, keys[1..], oldest);
      var key := keys[0];
      if c.open(packet, key).Some? && |c.open(packet, key).value.payload| >= 12 {
        AdmitBooks(s, key, c.secretOf(key), c.handshakeSid(packet, c.secretOf(key)), c.open(packet, key).value, from,
                   now, wall, oldest);
      }
    }
  }

  lemma UnknownBooks(s: Table, c: Crypto, from: Addr, packet: Bytes, now: int, wall: nat, window: nat, choice: Choice)
    requires Books(s) && |packet| >= 4 && GoodVictim(s.replay, wall, choice.oldest)
    ensures Books(OnUnknown(s, c, from, packet, now, wall, window, choice).0)
  {
    var tokens := Refilled(s.trialTokens, s.lastTrial, now, TRIAL_RATE);
    var r := s.(trialTokens := tokens, lastTrial := now);
    assert Books(r);
    var t := r.(trialTokens := tokens - 1.0, trials := s.trials + 1);
    assert Books(t);
    TryKeysBooks(t, c, from, packet, now, wall, window, choice.keys, choice.oldest);
  }

  lemma StrayBooks(s: Table, c: Crypto, from: Addr, packet: Bytes, now: int, wall: nat, window: nat, choice: Choice)
    requires Books(s) && |packet| >= 4 && GoodVictim(s.replay, wall, choice.oldest)
    ensures Books(OnStray(s, c, from, packet, now, wall, window, choice).0)
  {
    var tokens := Refilled(s.roamTokens, s.lastRoam, now, ROAMING_RATE);
    if tokens < 1.0 {
      var r := s.(roamTokens := tokens, lastRoam := now);
      assert Books(r);
      UnknownBooks(r, c, from, packet, now, wall, window, choice);
    } else {
      var r := s.(roamTokens := tokens - 1.0, lastRoam := now, scans := s.scans + 1);
      assert Books(r);
      AskBooks(r, c, from, packet, now, wall, window, choice);
    }
  }

  lemma AskBooks(s: Table, c: Crypto, from: Addr, packet: Bytes, now: int, wall: nat, window: nat, choice: Choice)
    requires Books(s) && |packet| >= 4 && GoodVictim(s.replay, wall, choice.oldest)
    ensures Books(AskSessions(s, c, from, packet, now, wall, window, choice).0)
  {
    UnknownBooks(s, c, from, packet, now, wall, window, choice);
    var found := ScanPeers(s.peers, c, packet, choice.sids);
    if found.Some? { KnownBooks(s, c, found.value, from, packet, now); }
  }

  lemma DatagramBooks(s: Table, c: Crypto, from: Addr, packet: Bytes, now: int, wall: nat, window: nat, choice: Choice)
    requires Books(s) && Fair(s, wall, choice)
    ensures Books(OnDatagram(s, c, from, packet, now, wall, window, choice).0)
  {
    if |packet| >= 4 {
      var hit := FastPath(s, c, from, packet);
      if hit.Some? {
        KnownBooks(s, c, hit.value, from, packet, now);
      } else {
        StrayBooks(s, c, from, packet, now, wall, window, choice);
      }
    }
  }

  // ---------- The other inputs ----------

  lemma {:induction false} TouchAllBooks(s: Table, sids: seq<nat>)
    requires Books(s)
    ensures Books(TouchAll(s, sids))
  {
    if sids != [] {
      TouchAllBooks(s, sids[..|sids| - 1]);
      var r := TouchAll(s, sids[..|sids| - 1]);
      if sids[|sids| - 1] in r.peers { TouchBooks(r, r.peers[sids[|sids| - 1]].key); }
    }
  }

  lemma {:induction false} DropAllBooks(s: Table, sids: seq<nat>)
    requires Books(s)
    ensures Books(DropAll(s, sids))
  {
    if sids != [] {
      DropAllBooks(s, sids[..|sids| - 1]);
      DropBooks(DropAll(s, sids[..|sids| - 1]), sids[|sids| - 1]);
    }
  }

  lemma TickBooks(s: Table, now: int)
    requires Books(s)
    ensures Books(TickAll(s, now))
  {
    var t := TickAll(s, now);
    assert t.peers.Keys == s.peers.Keys;
    SameBooksKeep(s, t);
  }

  lemma ClockBooks(s: Table, now: int, wall: nat, choice: Choice)
    requires Books(s)
    ensures Books(OnTick(s, now, wall, choice).0)
  {
    var q := s.(replay := Recent(s.replay, wall));
    RecentIsPart(s.replay, wall);
    SameBooksKeep(s, q);
    TouchAllBooks(q, choice.sids);
    var r := TouchAll(q, choice.sids);
    DropAllBooks(r, ExpiredOf(q, choice.sids, now));
    TickBooks(DropAll(r, ExpiredOf(q, choice.sids, now)), now);
  }

  lemma ChargeBooks(s: Table, key: Key, size: nat)
    requires Books(s)
    ensures Books(Charged(s, key, size))
  {
    SameBooksKeep(s, Charged(s, key, size));
  }

  lemma SentBooks(s: Table, sid: nat, n: E.Endpoint, result: E.Outcome)
    requires Books(s) && sid in s.peers
    ensures Books(Sent(s, sid, n, result).0)
  {
    var t := s.(peers := s.peers[sid := s.peers[sid].(machine := n)]);
    SameBooksKeep(s, t);
    ChargeBooks(t, s.peers[sid].key, if result.Ok? && result.action.SendDatagram? then result.action.datagram.Size() else 0);
  }

  lemma OutboundBooks(s: Table, sid: nat, stream: nat, payload: Bytes, now: int)
    requires Books(s)
    ensures Books(OnOutbound(s, sid, stream, payload, now).0)
  {
    if sid in s.peers {
      var (n, result) := E.OnEvent(s.peers[sid].machine, E.Outbound(stream, payload), now);
      SentBooks(s, sid, n, result);
    }
  }

  lemma LimitBooks(s: Table, key: Key, limit: Option<nat>)
    requires Books(s)
    ensures Books(SetUserLimit(s, key, limit))
  {
    SameBooksKeep(s, SetUserLimit(s, key, limit));
  }

  lemma NextBooks(s: Table, c: Crypto, e: Timed)
    requires Books(s) && Fair(s, e.wall, e.choice)
    ensures Books(Next(s, c, e))
  {
    match e.input
    case Packet(from, packet, window) => DatagramBooks(s, c, from, packet, e.now, e.wall, window, e.choice);
    case Clock => ClockBooks(s, e.now, e.wall, e.choice);
    case Send(sid, stream, payload) => OutboundBooks(s, sid, stream, payload, e.now);
    case Drop(sid) => DropBooks(s, sid);
    case Limit(key, limit) => LimitBooks(s, key, limit);
    case Rekey(keys) =>
  }

  // ---------- Over runs ----------

  lemma {:induction false} BooksKept(keys: map<Key, Option<nat>>, start: int, c: Crypto, es: seq<Timed>, t: Table)
    requires Run(New(keys, start), c, es, t)
    ensures Books(t)
  {
    if es == [] {
      forall k
        ensures SessionsOf(t.peers, k) == {}
      {
      }
    } else {
      var e := es[|es| - 1];
      var m :| Run(New(keys, start), c, es[..|es| - 1], m) && Fair(m, e.wall, e.choice) && t == Next(m, c, e);
      BooksKept(keys, start, c, es[..|es| - 1], m);
      NextBooks(m, c, e);
    }
  }

  /** Every address entry names a live session that is at that address. */
  ghost predicate AddressesAgree(s: Table) {
    forall a :: a in s.addrs ==> s.addrs[a] in s.peers && s.peers[s.addrs[a]].lastAddr == a
  }

  ghost predicate CountsAgree(s: Table) {
    forall k :: CountOf(s.users, k) == |SessionsOf(s.peers, k)|
  }

  /**
   A handshake leaves a right index right if and only if it does not take a live id over
   from a session elsewhere that the index still leads to.
   */
  lemma ConnectKeepsIndexIff(s: Table, sid: nat, p: Peer)
    requires AddressesAgree(s)
    ensures AddressesAgree(Connect(s, sid, p))
            <==> !(sid in s.peers && s.peers[sid].lastAddr != p.lastAddr
                   && s.peers[sid].lastAddr in s.addrs && s.addrs[s.peers[sid].lastAddr] == sid)
  {
    var t := Connect(s, sid, p);
    if sid in s.peers && s.peers[sid].lastAddr != p.lastAddr {
      var a := s.peers[sid].lastAddr;
      if a in s.addrs && s.addrs[a] == sid { assert a in t.addrs && t.addrs[a] == sid; }
    }
  }

  /** And right counts right if and only if the id is not live. */
  lemma ConnectKeepsCountsIff(s: Table, sid: nat, p: Peer)
    requires CountsAgree(s)
    ensures CountsAgree(Connect(s, sid, p)) <==> sid !in s.peers
  {
    var t := Connect(s, sid, p);
    forall k
      ensures CountOf(t.users, k) == |SessionsOf(t.peers, k)| + Holder(s.peers, sid, k)
    {
      ConnectSessions(s.peers, sid, p, k);
    }
    if sid in s.peers { assert Holder(s.peers, sid, s.peers[sid].key) == 1; }
  }

  /**
   In every reachable table the limits hold, and the session counts are right if and
   only if no handshake has overwritten a live session; then the address index is
   right as well.
   */
  lemma TablesAgreeUnlessOverwritten(keys: map<Key, Option<nat>>, start: int, c: Crypto, es: seq<Timed>, t: Table)
    requires Run(New(keys, start), c, es, t)
    ensures |t.peers| <= MAX_SESSIONS && |t.replay| <= REPLAY_CACHE_MAX
    ensures CountsAgree(t) <==> t.lost == []
    ensures t.lost == [] ==> AddressesAgree(t)
  {
    BooksKept(keys, start, c, es, t);
    if t.lost != [] {
      var k := t.lost[0];
      assert k in multiset(t.lost);
      assert CountOf(t.users, k) == Owed(t.peers, t.lost, k) != |SessionsOf(t.peers, k)|;
    }
  }
}
