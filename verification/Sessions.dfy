/**
 The server's session table as a value: sessions by id, the address index, user
 counters, the handshake replay cache and the two token buckets, and what a
 datagram, a tick or a management call does to them.

 The crypto layer is a parameter, a record of functions of the packet and a
 secret; nothing is assumed about what it returns. The order in which a hash map
 is walked, and which of several equally old cache entries is evicted, are
 explicit choices. Audit fields record history and are never read by an operation.
 */
module Sessions {
  import opened Basics
  import opened Wire
  import opened Congestion
  import opened EndpointInvariants
  import E = Endpoint

  const MAX_SESSIONS: nat := 1024
  const REPLAY_CACHE_MAX: nat := 50_000
  const DRIFT_LIMIT: nat := 300
  const SESSION_TIMEOUT: nat := 600 * SECOND
  const ROAMING_RATE: real := 50.0
  const TRIAL_RATE: real := 100.0

  type Addr = nat
  type Key = Bytes
  type Secret = Bytes

  /** A handshake that opened under some key: its payload, the answer, and the session's parameters. */
  datatype Handshake = Handshake(payload: Bytes, response: Bytes, cfg: E.Config, mtu: Mtu)

  datatype Crypto = Crypto(
    sidOf: (Bytes, Secret) -> nat,
    nonceOf: (Bytes, Secret) -> nat,
    bodyOf: (Bytes, Secret) -> Ciphertext,
    secretOf: Key -> Secret,
    marker: (Key, nat) -> Bytes,
    handshakeSid: (Bytes, Secret) -> nat,
    open: (Bytes, Key) -> Option<Handshake>)
  {
    /** The packet as a session holding this secret reads it. */
    function Unmask(packet: Bytes, secret: Secret): Datagram {
      if |packet| < 4 then Runt
      else if |packet| < 12 then Headless(sidOf(packet, secret))
      else Datagram(sidOf(packet, secret), nonceOf(packet, secret), bodyOf(packet, secret))
    }

    predicate IsJunk(packet: Bytes, key: Key, window: nat)
      requires |packet| >= 4
    {
      packet[..4] == marker(key, window) || packet[..4] == marker(key, if window == 0 then U64_MAX else window - 1)
    }

    /** Handshakes yield usable session parameters. */
    ghost predicate Valid() {
      forall packet, key :: open(packet, key).Some? ==> open(packet, key).value.cfg.Valid()
    }
  }

  datatype Peer = Peer(machine: E.Endpoint, lastAddr: Addr, secret: Secret, lastSeen: int, key: Key)

  datatype User = User(up: nat, down: nat, connections: nat, limit: Option<nat>)
  {
    predicate OverLimit() { limit.Some? && up + down >= limit.value }
  }

  /** A datagram that authenticated, and whether the session then processed it without error. */
  datatype Arrival = Arrival(nonce: nat, from: Addr, ok: bool)

  /** Where a session's handshake came from, and every datagram that has authenticated since. */
  datatype Trail = Trail(origin: Addr, arrivals: seq<Arrival>)

  datatype Table = Table(
    peers: map<nat, Peer>,
    addrs: map<Addr, nat>,
    keys: map<Key, Option<nat>>,
    users: map<Key, User>,
    replay: map<Bytes, nat>,
    roamTokens: real, lastRoam: int,
    trialTokens: real, lastTrial: int,
    // audit
    trails: map<nat, Trail>,
    admitted: seq<Bytes>, // handshake payloads that opened a session
    forced: set<Bytes>,   // payloads evicted from a full cache before they expired
    lost: seq<Key>,       // keys of the sessions overwritten by a handshake naming their id
    orphaned: set<Addr>,  // addresses such sessions had
    scans: nat, trials: nat)

  datatype Response = Reply(datagram: Datagram) | Welcome(bytes: Bytes)

  datatype Outcome =
    | Unauthorized
    | Junk
    | Accepted(responses: seq<Response>, deliveries: seq<Delivery>, to: Addr)

  /** The walk order of the session and key maps, and the victim if the replay cache is full. */
  datatype Choice = Choice(sids: seq<nat>, keys: seq<Key>, oldest: Bytes)

  // ---------- Users ----------

  function UserIn(users: map<Key, User>, keys: map<Key, Option<nat>>, key: Key): User {
    if key in users then users[key] else User(0, 0, 0, if key in keys then keys[key] else None)
  }

  function UserOf(s: Table, key: Key): User { UserIn(s.users, s.keys, key) }

  /** Looking a user up creates its entry. */
  function Touched(s: Table, key: Key): (t: Table)
    ensures t == s.(users := t.users)
  {
    s.(users := s.users[key := UserOf(s, key)])
  }

  function Joined(users: map<Key, User>, keys: map<Key, Option<nat>>, key: Key): map<Key, User> {
    var u := UserIn(users, keys, key);
    users[key := u.(connections := u.connections + 1)]
  }

  function Left(users: map<Key, User>, keys: map<Key, Option<nat>>, key: Key): map<Key, User> {
    var u := UserIn(users, keys, key);
    users[key := u.(connections := Monus(u.connections, 1))]
  }

  function Uploaded(users: map<Key, User>, keys: map<Key, Option<nat>>, key: Key, size: nat): map<Key, User> {
    var u := UserIn(users, keys, key);
    users[key := u.(up := u.up + size)]
  }

  function Downloaded(users: map<Key, User>, keys: map<Key, Option<nat>>, key: Key, size: nat): map<Key, User> {
    var u := UserIn(users, keys, key);
    users[key := u.(down := u.down + size)]
  }

  predicate Barred(s: Table, key: Key) {
    key !in s.keys || UserOf(s, key).OverLimit()
  }

  // ---------- Dropping a session ----------

  function DropSession(s: Table, sid: nat): Table {
    if sid !in s.peers then s
    else
      var p := s.peers[sid];
      s.(peers := s.peers - {sid},
         addrs := s.addrs - {p.lastAddr},
         users := Left(s.users, s.keys, p.key),
         trails := s.trails - {sid})
  }

  // ---------- Token buckets ----------

  function Refilled(tokens: real, since: int, now: int, rate: real): real {
    MinReal(tokens + Seconds(Since(now, since)) * rate, rate)
  }

  // ---------- Datagrams for a known session ----------

  predicate Masks(c: Crypto, packet: Bytes, p: Peer, sid: nat) {
    |packet| >= 12 && c.sidOf(packet, p.secret) == sid
  }

  /** The session last seen at this address, if the packet is its own. */
  function FastPath(s: Table, c: Crypto, from: Addr, packet: Bytes): Option<nat> {
    if from in s.addrs && s.addrs[from] in s.peers && Masks(c, packet, s.peers[s.addrs[from]], s.addrs[from])
    then Some(s.addrs[from]) else None
  }

  /** The first session, in the given order, that the packet unmasks to. */
  function ScanPeers(peers: map<nat, Peer>, c: Crypto, packet: Bytes, sids: seq<nat>): (hit: Option<nat>)
    ensures hit.Some? ==> hit.value in peers && Masks(c, packet, peers[hit.value], hit.value)
  {
    if sids == [] then None
    else if sids[0] in peers && Masks(c, packet, peers[sids[0]], sids[0]) then Some(sids[0])
    else ScanPeers(peers, c, packet, sids[1..])
  }

  function Outgoing(a: E.Action): seq<Datagram>
    decreases a, 0
  {
    match a
    case SendDatagram(d) => [d]
    case Multiple(list) => AllOutgoing(list)
    case _ => []
  }

  function AllOutgoing(list: seq<E.Action>): seq<Datagram>
    decreases list, 1
  {
    if list == [] then [] else AllOutgoing(list[..|list| - 1]) + Outgoing(list[|list| - 1])
  }

  function Replies(ds: seq<Datagram>): (r: seq<Response>)
    ensures |r| == |ds|
  {
    seq(|ds|, i requires 0 <= i < |ds| => Reply(ds[i]))
  }

  /** What the audit notes of a datagram that went to machine `m` and left it as `n`. */
  function Heard(m: E.Endpoint, n: E.Endpoint, d: Datagram, from: Addr, ok: bool): seq<Arrival> {
    if n.authenticatedCount > m.authenticatedCount && d.Datagram? then [Arrival(d.nonce, from, ok)] else []
  }

  predicate Raised(m: E.Endpoint, n: E.Endpoint) {
    n.highestAuthenticated.Some? && n.highestAuthenticated != m.highestAuthenticated
  }

  /** The session's address moves, and the index with it. */
  function Roam(s: Table, sid: nat, from: Addr): (t: Table)
    requires sid in s.peers
    ensures t == s.(addrs := t.addrs, peers := s.peers[sid := s.peers[sid].(lastAddr := from)])
  {
    var p := s.peers[sid];
    s.(addrs := (s.addrs - {p.lastAddr})[from := sid], peers := s.peers[sid := p.(lastAddr := from)])
  }

  function Seen(s: Table, sid: nat, from: Addr, now: int): (t: Table)
    requires sid in s.peers
    ensures sid in t.peers && t == s.(peers := s.peers[sid := s.peers[sid].(lastSeen := t.peers[sid].lastSeen)])
  {
    var p := s.peers[sid];
    if p.lastAddr == from then s.(peers := s.peers[sid := p.(lastSeen := now)]) else s
  }

  function TrailOf(s: Table, sid: nat): Trail {
    if sid in s.trails then s.trails[sid] else Trail(0, [])
  }

  /** The session's machine became `n` on this datagram; the session is charged and the audit notes it. */
  function Fed(s: Table, sid: nat, from: Addr, d: Datagram, size: nat, n: E.Endpoint, ok: bool): (t: Table)
    requires sid in s.peers
    ensures sid in t.peers
  {
    var p := s.peers[sid];
    var trail := TrailOf(s, sid);
    s.(peers := s.peers[sid := p.(machine := n)],
       users := Uploaded(s.users, s.keys, p.key, size),
       trails := s.trails[sid := trail.(arrivals := trail.arrivals + Heard(p.machine, n, d, from, ok))])
  }

  /** The machine is done with the datagram: the address moves if it raised the highest nonce. */
  function Settle(s: Table, sid: nat, from: Addr, d: Datagram, size: nat, n: E.Endpoint, result: E.Outcome, now: int)
    : (Table, Outcome)
    requires sid in s.peers
  {
    var p := s.peers[sid];
    var t := Fed(s, sid, from, d, size, n, result.Ok?);
    match result
    case Err(_) => (t, Unauthorized)
    case Ok(a) =>
      var moved := p.lastAddr != from && Raised(p.machine, n);
      var u := if moved then Roam(t, sid, from) else t;
      (Seen(u, sid, from, now), Accepted(Replies(Outgoing(a)), Deliveries(a), u.peers[sid].lastAddr))
  }

  function OnKnown(s: Table, c: Crypto, sid: nat, from: Addr, packet: Bytes, now: int): (Table, Outcome)
    requires sid in s.peers
  {
    var p := s.peers[sid];
    var t := Touched(s, p.key);
    if Barred(s, p.key) then (DropSession(t, sid), Unauthorized)
    else
      var d := c.Unmask(packet, p.secret);
      var (n, result) := E.OnEvent(p.machine, E.Inbound(d), now);
      Settle(t, sid, from, d, |packet|, n, result, now)
  }

  // ---------- Handshakes ----------

  function Drift(a: nat, b: nat): nat {
    if a >= b then a - b else b - a
  }

  /** The timestamp a handshake payload opens with. */
  function Stamp(payload: Bytes): nat
    requires |payload| >= 8
  {
    FromBe(payload[..8])
  }

  /** Entries still inside the drift window. */
  function Recent(replay: map<Bytes, nat>, wall: nat): map<Bytes, nat> {
    map p | p in replay && Drift(wall, replay[p]) <= DRIFT_LIMIT :: replay[p]
  }

  /** A full cache first forgets what has expired, and then, if still full, its oldest entry. */
  function MakeRoom(s: Table, wall: nat, oldest: Bytes): (t: Table)
    ensures t == s.(replay := t.replay, forced := t.forced)
  {
    s.(replay := Reclaimed(s.replay, wall, oldest),
       forced := if MustEvict(s.replay, wall) then s.forced + {oldest} else s.forced)
  }

  predicate MustEvict(replay: map<Bytes, nat>, wall: nat) {
    |replay| >= REPLAY_CACHE_MAX && |Recent(replay, wall)| >= REPLAY_CACHE_MAX
  }

  function Reclaimed(replay: map<Bytes, nat>, wall: nat, oldest: Bytes): map<Bytes, nat> {
    if |replay| < REPLAY_CACHE_MAX then replay
    else if MustEvict(replay, wall) then Recent(replay, wall) - {oldest}
    else Recent(replay, wall)
  }

  /** The lost sessions once a handshake takes over `sid`. */
  function LostTo(peers: map<nat, Peer>, lost: seq<Key>, sid: nat): seq<Key> {
    if sid in peers then lost + [peers[sid].key] else lost
  }

  function OrphanedBy(peers: map<nat, Peer>, orphaned: set<Addr>, sid: nat, from: Addr): set<Addr> {
    if sid in peers then orphaned + {peers[sid].lastAddr} - {from} else orphaned
  }

  function Connect(s: Table, sid: nat, p: Peer): Table {
    s.(peers := s.peers[sid := p],
       addrs := s.addrs[p.lastAddr := sid],
       users := Joined(s.users, s.keys, p.key),
       trails := s.trails[sid := Trail(p.lastAddr, [])],
       lost := LostTo(s.peers, s.lost, sid),
       orphaned := OrphanedBy(s.peers, s.orphaned, sid, p.lastAddr))
  }

  /** The last check, and the session. */
  function Open(s: Table, key: Key, secret: Secret, sid: nat, h: Handshake, from: Addr, now: int): (Table, Outcome) {
    if UserOf(s, key).OverLimit() then (s, Unauthorized)
    else
      var machine := E.Start(h.cfg.(sid := sid), h.mtu, now);
      (Connect(s, sid, Peer(machine, from, secret, now, key)).(admitted := s.admitted + [h.payload]),
       Accepted([Welcome(h.response)], [], from))
  }

  /** A handshake that proved itself fresh is remembered, whether or not its user may still connect. */
  function Admit(s: Table, key: Key, secret: Secret, sid: nat, h: Handshake, from: Addr, now: int, wall: nat, oldest: Bytes)
    : (Table, Outcome)
    requires |h.payload| >= 12
  {
    var r := MakeRoom(s, wall, oldest);
    if |r.peers| >= MAX_SESSIONS then (r, Unauthorized)
    else Open(Touched(r.(replay := r.replay[h.payload := Stamp(h.payload)]), key), key, secret, sid, h, from, now)
  }

  /** The payload names this session and this key, is recent, and has not been seen. */
  predicate Fresh(s: Table, payload: Bytes, key: Key, sid: nat, wall: nat) {
    && |payload| >= 12
    && FromBe(payload[8..12]) == sid
    && payload[12..] == key
    && Drift(wall, Stamp(payload)) <= DRIFT_LIMIT
    && payload !in s.replay
  }

  /** One candidate key. `None` means the next key is tried. */
  function TryKey(s: Table, c: Crypto, from: Addr, packet: Bytes, now: int, wall: nat, window: nat, key: Key,
                  oldest: Bytes): Option<(Table, Outcome)>
    requires |packet| >= 4
  {
    if c.IsJunk(packet, key, window) then Some((s, Junk))
    else if |packet| < 7 then None
    else
      var secret := c.secretOf(key);
      var sid := c.handshakeSid(packet, secret);
      match c.open(packet, key)
      case None => None
      case Some(h) =>
        if Fresh(s, h.payload, key, sid, wall) then Some(Admit(s, key, secret, sid, h, from, now, wall, oldest))
        else None
  }

  function TryKeys(s: Table, c: Crypto, from: Addr, packet: Bytes, now: int, wall: nat, window: nat, keys: seq<Key>,
                   oldest: Bytes): (Table, Outcome)
    requires |packet| >= 4
  {
    if keys == [] then (s, Unauthorized)
    else
      match TryKey(s, c, from, packet, now, wall, window, keys[0], oldest)
      case Some(r) => r
      case None => TryKeys(s, c, from, packet, now, wall, window, keys[1..], oldest)
  }

  /** No session claims the packet: a trial of every key, if the bucket allows one. */
  function OnUnknown(s: Table, c: Crypto, from: Addr, packet: Bytes, now: int, wall: nat, window: nat, choice: Choice)
    : (Table, Outcome)
    requires |packet| >= 4
  {
    var tokens := Refilled(s.trialTokens, s.lastTrial, now, TRIAL_RATE);
    var r := s.(trialTokens := tokens, lastTrial := now);
    if tokens < 1.0 then (r, Unauthorized)
    else TryKeys(r.(trialTokens := tokens - 1.0, trials := s.trials + 1), c, from, packet, now, wall, window,
                 choice.keys, choice.oldest)
  }

  /** Every session is asked whether the packet is its own. */
  function AskSessions(s: Table, c: Crypto, from: Addr, packet: Bytes, now: int, wall: nat, window: nat, choice: Choice)
    : (Table, Outcome)
    requires |packet| >= 4
  {
    match ScanPeers(s.peers, c, packet, choice.sids)
    case Some(sid) => OnKnown(s, c, sid, from, packet, now)
    case None => OnUnknown(s, c, from, packet, now, wall, window, choice)
  }

  /** The sender's address names no session that owns the packet: the sessions are asked, if the bucket allows it. */
  function OnStray(s: Table, c: Crypto, from: Addr, packet: Bytes, now: int, wall: nat, window: nat, choice: Choice)
    : (Table, Outcome)
    requires |packet| >= 4
  {
    var tokens := Refilled(s.roamTokens, s.lastRoam, now, ROAMING_RATE);
    if tokens < 1.0 then
      OnUnknown(s.(roamTokens := tokens, lastRoam := now), c, from, packet, now, wall, window, choice)
    else
      AskSessions(s.(roamTokens := tokens - 1.0, lastRoam := now, scans := s.scans + 1), c, from, packet, now, wall,
                  window, choice)
  }

  function OnDatagram(s: Table, c: Crypto, from: Addr, packet: Bytes, now: int, wall: nat, window: nat,
                            choice: Choice): (Table, Outcome)
  {
    if |packet| < 4 then (s, Unauthorized)
    else
      match FastPath(s, c, from, packet)
      case Some(sid) => OnKnown(s, c, sid, from, packet, now)
      case None => OnStray(s, c, from, packet, now, wall, window, choice)
  }

  // ---------- Ticks and the rest ----------

  function TouchAll(s: Table, sids: seq<nat>): Table {
    if sids == [] then s
    else
      var r := TouchAll(s, sids[..|sids| - 1]);
      var sid := sids[|sids| - 1];
      if sid in r.peers then Touched(r, r.peers[sid].key) else r
  }

  predicate Expired(s: Table, sid: nat, now: int) {
    && sid in s.peers
    && var p := s.peers[sid];
       p.machine.state == E.Closed || Since(now, p.lastSeen) > SESSION_TIMEOUT || Barred(s, p.key)
  }

  function ExpiredOf(s: Table, sids: seq<nat>, now: int): seq<nat> {
    if sids == [] then []
    else
      var last := sids[|sids| - 1];
      ExpiredOf(s, sids[..|sids| - 1], now) + if Expired(s, last, now) then [last] else []
  }

  function DropAll(s: Table, sids: seq<nat>): Table {
    if sids == [] then s else DropSession(DropAll(s, sids[..|sids| - 1]), sids[|sids| - 1])
  }

  function Ticked(p: Peer, now: int): (Peer, E.Outcome) {
    var (n, result) := E.OnEvent(p.machine, E.Tick, now);
    (p.(machine := n), result)
  }

  function TickAll(s: Table, now: int): Table {
    s.(peers := map sid | sid in s.peers :: Ticked(s.peers[sid], now).0)
  }

  function Backwards(ds: seq<Datagram>): (r: seq<Datagram>)
    ensures |r| == |ds|
  {
    if ds == [] then [] else [ds[|ds| - 1]] + Backwards(ds[..|ds| - 1])
  }

  function Homeward(ds: seq<Datagram>, to: Addr): (r: seq<(Datagram, Addr)>)
    ensures |r| == |ds|
  {
    seq(|ds|, i requires 0 <= i < |ds| => (ds[i], to))
  }

  /** A session's datagrams leave newest first: the action is unpacked from its end. */
  function Frames(result: E.Outcome, to: Addr): seq<(Datagram, Addr)> {
    if result.Ok? then Homeward(Backwards(Outgoing(result.action)), to) else []
  }

  function TickFrames(s: Table, sids: seq<nat>, now: int): seq<(Datagram, Addr)> {
    if sids == [] then []
    else
      var last := sids[|sids| - 1];
      TickFrames(s, sids[..|sids| - 1], now)
      + if last in s.peers then Frames(Ticked(s.peers[last], now).1, s.peers[last].lastAddr) else []
  }

  /** Expired handshakes are forgotten, expired sessions dropped, and the rest ticked. */
  function OnTick(s: Table, now: int, wall: nat, choice: Choice): (Table, seq<(Datagram, Addr)>, seq<nat>) {
    var q := s.(replay := Recent(s.replay, wall));
    var expired := ExpiredOf(q, choice.sids, now);
    var t := DropAll(TouchAll(q, choice.sids), expired);
    (TickAll(t, now), TickFrames(t, choice.sids, now), expired)
  }

  function Charged(s: Table, key: Key, size: nat): Table {
    s.(users := Downloaded(s.users, s.keys, key, size))
  }

  /** What the session's machine sealed is charged and goes to where the session is. */
  function Sent(s: Table, sid: nat, n: E.Endpoint, result: E.Outcome): (Table, Option<(Datagram, Addr)>)
    requires sid in s.peers
  {
    var p := s.peers[sid];
    var t := s.(peers := s.peers[sid := p.(machine := n)]);
    if result.Ok? && result.action.SendDatagram? then
      var d := result.action.datagram;
      (Charged(t, p.key, d.Size()), Some((d, p.lastAddr)))
    else (t, None)
  }

  function OnOutbound(s: Table, sid: nat, stream: nat, payload: Bytes, now: int)
    : (Table, Option<(Datagram, Addr)>)
  {
    if sid !in s.peers then (s, None)
    else
      var (n, result) := E.OnEvent(s.peers[sid].machine, E.Outbound(stream, payload), now);
      Sent(s, sid, n, result)
  }

  /** A new limit keeps the traffic and session counts. */
  function SetUserLimit(s: Table, key: Key, limit: Option<nat>): Table {
    var u := if key in s.users then s.users[key] else User(0, 0, 0, limit);
    s.(users := s.users[key := u.(limit := limit)])
  }

  function New(keys: map<Key, Option<nat>>, now: int): Table {
    Table(map[], map[], keys, map k | k in keys :: User(0, 0, 0, keys[k]), map[], ROAMING_RATE, now, TRIAL_RATE, now,
          map[], [], {}, [], {}, 0, 0)
  }

  // ---------- Runs ----------

  /** Everything that can happen to the table. `keys` in `Rekey` is whatever management made of the key list. */
  datatype Input =
    | Packet(from: Addr, packet: Bytes, window: nat)
    | Clock
    | Send(sid: nat, stream: nat, payload: Bytes)
    | Drop(sid: nat)
    | Limit(key: Key, limit: Option<nat>)
    | Rekey(keys: map<Key, Option<nat>>)

  datatype Timed = Timed(input: Input, now: int, wall: nat, choice: Choice)

  function Next(s: Table, c: Crypto, e: Timed): Table {
    match e.input
    case Packet(from, packet, window) => OnDatagram(s, c, from, packet, e.now, e.wall, window, e.choice).0
    case Clock => OnTick(s, e.now, e.wall, e.choice).0
    case Send(sid, stream, payload) => OnOutbound(s, sid, stream, payload, e.now).0
    case Drop(sid) => DropSession(s, sid)
    case Limit(key, limit) => SetUserLimit(s, key, limit)
    case Rekey(keys) => s.(keys := keys)
  }

  ghost predicate Enumerates<T(!new)>(order: seq<T>, all: set<T>) {
    && (forall x :: x in order <==> x in all)
    && (forall i, j :: 0 <= i < j < |order| ==> order[i] != order[j])
  }

  ghost predicate IsOldest(replay: map<Bytes, nat>, p: Bytes) {
    p in replay && forall q :: q in replay ==> replay[p] <= replay[q]
  }

  /** The victim is an oldest entry among those that have not expired. */
  ghost predicate GoodVictim(replay: map<Bytes, nat>, wall: nat, oldest: Bytes) {
    Recent(replay, wall) != map[] ==> IsOldest(Recent(replay, wall), oldest)
  }

  /** The choices are ones the hash maps could have made. */
  ghost predicate Fair(s: Table, wall: nat, choice: Choice) {
    && Enumerates(choice.sids, s.peers.Keys)
    && Enumerates(choice.keys, s.keys.Keys)
    && GoodVictim(s.replay, wall, choice.oldest)
  }

  /** The table after a run; every choice along it must be one the maps could have made. */
  ghost predicate Run(s: Table, c: Crypto, es: seq<Timed>, t: Table) {
    if es == [] then s == t
    else
      var e := es[|es| - 1];
      exists m :: Run(s, c, es[..|es| - 1], m) && Fair(m, e.wall, e.choice) && t == Next(m, c, e)
  }
}
