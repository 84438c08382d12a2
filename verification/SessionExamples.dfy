/**
 Two short runs of the session table that show what its promises leave out: a second
 handshake that names a live session id, and a truncated ACK that raises a session's
 highest nonce without moving it.
 */
module SessionExamples {
  import opened Basics
  import opened Wire
  import opened EndpointEvents
  import opened Sessions
  import opened SessionTracking
  import opened SessionBooks
  import E = Endpoint

  // ---------- A handshake that is let in ----------

  /** Too short to be a session's datagram. */
  lemma {:induction false} NoSessionClaims(peers: map<nat, Peer>, c: Crypto, packet: Bytes, sids: seq<nat>)
    requires |packet| < 12
    ensures ScanPeers(peers, c, packet, sids) == None
  {
    if sids != [] { NoSessionClaims(peers, c, packet, sids[1..]); }
  }

  /** The only key opens the packet to a fresh handshake, and there is room for it. */
  ghost predicate Welcomed(s: Table, c: Crypto, packet: Bytes, wall: nat, window: nat, key: Key) {
    && 7 <= |packet| < 12 && !c.IsJunk(packet, key, window)
    && c.open(packet, key).Some?
    && Fresh(s, c.open(packet, key).value.payload, key, c.handshakeSid(packet, c.secretOf(key)), wall)
    && |s.replay| < REPLAY_CACHE_MAX && |s.peers| < MAX_SESSIONS && !UserOf(s, key).OverLimit()
  }

  function NewPeer(c: Crypto, packet: Bytes, key: Key, from: Addr, now: int): Peer
    requires c.open(packet, key).Some?
  {
    var h, secret := c.open(packet, key).value, c.secretOf(key);
    Peer(E.Start(h.cfg.(sid := c.handshakeSid(packet, secret)), h.mtu, now), from, secret, now, key)
  }

  /** `t` is `s` with the session this handshake opens. */
  ghost predicate Admitted(s: Table, t: Table, c: Crypto, packet: Bytes, key: Key, from: Addr, now: int)
    requires c.open(packet, key).Some? && |c.open(packet, key).value.payload| >= 8
  {
    var h, sid := c.open(packet, key).value, c.handshakeSid(packet, c.secretOf(key));
    && t.peers == s.peers[sid := NewPeer(c, packet, key, from, now)]
    && t.addrs == s.addrs[from := sid]
    && t.trails == s.trails[sid := Trail(from, [])]
    && t.lost == LostTo(s.peers, s.lost, sid)
    && t.replay == s.replay[h.payload := Stamp(h.payload)]
    && t.keys == s.keys && UserOf(t, key).limit == UserOf(s, key).limit
  }

  lemma KeyAdmits(s: Table, c: Crypto, from: Addr, packet: Bytes, now: int, wall: nat, window: nat, key: Key, oldest: Bytes)
    requires Welcomed(s, c, packet, wall, window, key)
    ensures Admitted(s, TryKeys(s, c, from, packet, now, wall, window, [key], oldest).0, c, packet, key, from, now)
  {
    var h, secret := c.open(packet, key).value, c.secretOf(key);
    var sid := c.handshakeSid(packet, secret);
    assert MakeRoom(s, wall, oldest) == s;
    var r := Touched(s.(replay := s.replay[h.payload := Stamp(h.payload)]), key);
    assert !UserOf(r, key).OverLimit();
    assert TryKey(s, c, from, packet, now, wall, window, key, oldest)
           == Some(Open(r, key, secret, sid, h, from, now));
  }

  ghost predicate TokensLeft(s: Table, now: int) {
    s.lastTrial == s.lastRoam == now && 1.0 <= s.trialTokens <= TRIAL_RATE && 1.0 <= s.roamTokens <= ROAMING_RATE
  }

  function RoamPaid(s: Table): Table {
    s.(roamTokens := s.roamTokens - 1.0, scans := s.scans + 1)
  }

  function TrialPaid(s: Table): Table {
    s.(trialTokens := s.trialTokens - 1.0, trials := s.trials + 1)
  }

  lemma ShortIsUnknown(s: Table, c: Crypto, from: Addr, packet: Bytes, now: int, wall: nat, window: nat, choice: Choice)
    requires 4 <= |packet| < 12 && TokensLeft(s, now)
    ensures OnDatagram(s, c, from, packet, now, wall, window, choice)
            == OnUnknown(RoamPaid(s), c, from, packet, now, wall, window, choice)
  {
    NoSessionClaims(s.peers, c, packet, choice.sids);
    assert FastPath(s, c, from, packet) == None;
    assert s.(roamTokens := s.roamTokens - 1.0, lastRoam := now, scans := s.scans + 1) == RoamPaid(s);
  }

  lemma UnknownIsTried(s: Table, c: Crypto, from: Addr, packet: Bytes, now: int, wall: nat, window: nat, choice: Choice)
    requires 4 <= |packet| && s.lastTrial == now && 1.0 <= s.trialTokens <= TRIAL_RATE
    ensures OnUnknown(s, c, from, packet, now, wall, window, choice)
            == TryKeys(TrialPaid(s), c, from, packet, now, wall, window, choice.keys, choice.oldest)
  {
    assert s.(trialTokens := s.trialTokens - 1.0, lastTrial := now, trials := s.trials + 1) == TrialPaid(s);
    assert s.(trialTokens := s.trialTokens, lastTrial := now) == s;
  }

  lemma HandshakeConnects(s: Table, c: Crypto, from: Addr, packet: Bytes, now: int, wall: nat, window: nat, choice: Choice,
                          key: Key)
    requires Welcomed(s, c, packet, wall, window, key) && TokensLeft(s, now) && choice.keys == [key]
    ensures Admitted(s, OnDatagram(s, c, from, packet, now, wall, window, choice).0, c, packet, key, from, now)
  {
    ShortIsUnknown(s, c, from, packet, now, wall, window, choice);
    UnknownIsTried(RoamPaid(s), c, from, packet, now, wall, window, choice);
    KeyAdmits(TrialPaid(RoamPaid(s)), c, from, packet, now, wall, window, key, choice.oldest);
  }

  lemma TokensSpent(s: Table, c: Crypto, from: Addr, packet: Bytes, now: int, wall: nat, window: nat, choice: Choice,
                    key: Key)
    requires Welcomed(s, c, packet, wall, window, key) && TokensLeft(s, now) && choice.keys == [key]
    requires s.trialTokens >= 2.0 && s.roamTokens >= 2.0
    ensures TokensLeft(OnDatagram(s, c, from, packet, now, wall, window, choice).0, now)
  {
    ShortIsUnknown(s, c, from, packet, now, wall, window, choice);
    UnknownIsTried(RoamPaid(s), c, from, packet, now, wall, window, choice);
  }

  lemma RunOneMore(s: Table, c: Crypto, es: seq<Timed>, m: Table, e: Timed, t: Table)
    requires Run(s, c, es, m) && Fair(m, e.wall, e.choice) && t == Next(m, c, e)
    ensures Run(s, c, es + [e], t)
  {
    var all := es + [e];
    assert all[..|all| - 1] == es && all[|all| - 1] == e;
  }

  /** One more handshake is let in at the end of a run. */
  lemma HandshakeRuns(start: Table, c: Crypto, es: seq<Timed>, s: Table, e: Timed, key: Key) returns (t: Table)
    requires Run(start, c, es, s) && Fair(s, e.wall, e.choice) && e.input.Packet? && e.choice.keys == [key]
    requires Welcomed(s, c, e.input.packet, e.wall, e.input.window, key) && TokensLeft(s, e.now)
    ensures Run(start, c, es + [e], t) && Admitted(s, t, c, e.input.packet, key, e.input.from, e.now)
    ensures s.trialTokens >= 2.0 && s.roamTokens >= 2.0 ==> TokensLeft(t, e.now)
  {
    t := Next(s, c, e);
    HandshakeConnects(s, c, e.input.from, e.input.packet, e.now, e.wall, e.input.window, e.choice, key);
    if s.trialTokens >= 2.0 && s.roamTokens >= 2.0 {
      TokensSpent(s, c, e.input.from, e.input.packet, e.now, e.wall, e.input.window, e.choice, key);
    }
    RunOneMore(start, c, es, s, e, t);
  }

  // ---------- Two clients, one session id ----------

  const KEY: Key := []

  function ExampleConfig(): E.Config {
    E.Config(0, 0, 1, 1, 1, MILLISECOND, MILLISECOND, 1, 1, n => 0)
  }

  /** Stamped `n`, for session 0 and `KEY`. */
  function Payload(n: nat): Bytes { U64Bytes(n) + ToBe(0, 4) }

  function Shake(n: byte): Bytes { [n, 0, 0, 0, 0, 0, 0] }

  /** Long enough for a session: read as an ACK that announces one range and holds none. */
  function Short(): Bytes { [0, 0, 0, 0, 0, 0, 0, 0, 0, 0, 0, 0] }

  /** Every packet is for session 0; a handshake opens to the payload with its own first byte's stamp. */
  function Example(): Crypto {
    Crypto((p, s) => 0, (p, s) => 0, (p, s) => Sealed(1, 0, 0, Frame(FrameKind.Ack, 0, [1]), 0), k => [], (k, w) => [],
           (p, s) => 0,
           (p, k) => Some(Handshake.Handshake(Payload(if p != [] && p[0] == 0 then 0 else 1), [], ExampleConfig(), 1200)))
  }

  lemma PayloadReads(n: nat)
    requires n <= 1
    ensures |Payload(n)| == 12 && Stamp(Payload(n)) == n && FromBe(Payload(n)[8..12]) == 0 && Payload(n)[12..] == KEY
  {
    U64RoundTrip(n);
    assert Pow256(4) > 0;
    BeRoundTrip(0, 4);
    assert Payload(n)[..8] == U64Bytes(n) && Payload(n)[8..12] == ToBe(0, 4);
  }

  function Begin(): Table { New(map[KEY := None], 0) }

  function ShakeFrom(n: byte, from: Addr, choice: Choice): Timed { Timed(Packet(from, Shake(n), 0), 0, 0, choice) }

  function First(): Timed { ShakeFrom(0, 1, Choice([], [KEY], [])) }

  lemma ExampleOpens(n: byte)
    requires n <= 1
    ensures var h := Example().open(Shake(n), KEY); h.Some? && h.value.payload == Payload(n)
    ensures !Example().IsJunk(Shake(n), KEY, 0)
  {
    assert Shake(1)[0] == 1 && Shake(0)[0] == 0;
  }

  lemma ShakeWelcome(s: Table, n: byte)
    requires n <= 1 && |s.replay| < REPLAY_CACHE_MAX && |s.peers| < MAX_SESSIONS && UserOf(s, KEY).limit == None
    requires Payload(n) !in s.replay
    ensures Welcomed(s, Example(), Shake(n), 0, 0, KEY)
  {
    PayloadReads(n);
    ExampleOpens(n);
  }

  /** The table once the first client has connected from address 1. */
  ghost predicate ConnectedOnce(t: Table) {
    && t.peers.Keys == {0} && t.peers[0].lastAddr == 1 && t.peers[0].key == KEY && t.peers[0].secret == []
    && t.peers[0].machine == E.Start(ExampleConfig(), 1200, 0)
    && t.addrs == map[1 := 0] && t.trails == map[0 := Trail(1, [])] && t.lost == []
    && t.replay == map[Payload(0) := 0] && t.keys == map[KEY := None] && UserOf(t, KEY).limit == None
    && TokensLeft(t, 0)
  }

  /** What `Admitted` says of the example's crypto. */
  lemma ExampleAdmits(s: Table, t: Table, n: byte, from: Addr)
    requires n <= 1 && Example().open(Shake(n), KEY).Some? && |Example().open(Shake(n), KEY).value.payload| >= 8
    requires Admitted(s, t, Example(), Shake(n), KEY, from, 0)
    ensures t.peers == s.peers[0 := Peer(E.Start(ExampleConfig(), 1200, 0), from, [], 0, KEY)]
    ensures t.addrs == s.addrs[from := 0] && t.trails == s.trails[0 := Trail(from, [])]
    ensures t.lost == LostTo(s.peers, s.lost, 0) && t.replay == s.replay[Payload(n) := n]
    ensures t.keys == s.keys && UserOf(t, KEY).limit == UserOf(s, KEY).limit
  {
    ExampleOpens(n);
    PayloadReads(n);
  }

  lemma BeginIsFair()
    ensures Fair(Begin(), 0, First().choice) && TokensLeft(Begin(), 0) && UserOf(Begin(), KEY).limit == None
    ensures Begin().trialTokens >= 2.0 && Begin().roamTokens >= 2.0
  {
  }

  /** One of the two clients connects at the end of a run. */
  lemma ExampleConnects(es: seq<Timed>, s: Table, n: byte, from: Addr, choice: Choice) returns (t: Table)
    requires Run(Begin(), Example(), es, s) && Fair(s, 0, choice) && choice.keys == [KEY]
    requires n <= 1 && |s.replay| < REPLAY_CACHE_MAX && |s.peers| < MAX_SESSIONS && UserOf(s, KEY).limit == None
    requires Payload(n) !in s.replay && TokensLeft(s, 0)
    ensures Run(Begin(), Example(), es + [ShakeFrom(n, from, choice)], t)
    ensures t.peers == s.peers[0 := Peer(E.Start(ExampleConfig(), 1200, 0), from, [], 0, KEY)]
    ensures t.addrs == s.addrs[from := 0] && t.trails == s.trails[0 := Trail(from, [])]
    ensures t.lost == LostTo(s.peers, s.lost, 0) && t.replay == s.replay[Payload(n) := n]
    ensures t.keys == s.keys && UserOf(t, KEY).limit == UserOf(s, KEY).limit
    ensures s.trialTokens >= 2.0 && s.roamTokens >= 2.0 ==> TokensLeft(t, 0)
  {
    ShakeWelcome(s, n);
    t := HandshakeRuns(Begin(), Example(), es, s, ShakeFrom(n, from, choice), KEY);
    ExampleAdmits(s, t, n, from);
  }

  lemma FirstFacts(s: Table, t: Table)
    requires s == Begin() && TokensLeft(t, 0)
    requires t.peers == s.peers[0 := Peer(E.Start(ExampleConfig(), 1200, 0), 1, [], 0, KEY)]
    requires t.addrs == s.addrs[1 := 0] && t.trails == s.trails[0 := Trail(1, [])]
    requires t.lost == LostTo(s.peers, s.lost, 0) && t.replay == s.replay[Payload(0) := 0]
    requires t.keys == s.keys && UserOf(t, KEY).limit == UserOf(s, KEY).limit
    ensures ConnectedOnce(t)
  {
    BeginIsFair();
    assert t.peers.Keys == {0} && 0 in t.peers && t.peers[0].lastAddr == 1;
  }

  lemma NothingYet(s: Table, c: Crypto)
    ensures Run(s, c, [], s)
  {
  }

  lemma FirstConnects() returns (t: Table)
    ensures Run(Begin(), Example(), [First()], t) && ConnectedOnce(t)
  {
    BeginIsFair();
    NothingYet(Begin(), Example());
    t := ExampleConnects([], Begin(), 0, 1, Choice([], [KEY], []));
    assert [] + [First()] == [First()];
    FirstFacts(Begin(), t);
  }

  /** The choices of a table that has one session and one remembered handshake. */
  lemma ChoicesFair(t: Table)
    requires ConnectedOnce(t)
    ensures Fair(t, 0, Choice([0], [KEY], Payload(0)))
  {
  }

  lemma SecondIsFresh(s: Table)
    requires ConnectedOnce(s)
    ensures Payload(1) !in s.replay && |s.replay| < REPLAY_CACHE_MAX && |s.peers| < MAX_SESSIONS
  {
    PayloadReads(0);
    PayloadReads(1);
    assert |s.peers| == |s.peers.Keys|;
  }

  /** What a takeover from address `from` leaves. */
  lemma TakenOver(s: Table, t: Table, p: Peer)
    requires ConnectedOnce(s) && p.lastAddr != 1
    requires t.peers == s.peers[0 := p] && t.addrs == s.addrs[p.lastAddr := 0] && t.lost == LostTo(s.peers, s.lost, 0)
    ensures t.lost == [KEY] && !AddressesAgree(t)
  {
    assert 1 in t.addrs && t.addrs[1] == 0;
  }

  /**
   A second handshake that names a live id, from address 2, takes the session over: the
   first client's count is not released, and its address leads to a session that is
   elsewhere.
   */
  lemma OverwriteLeavesTablesWrong() returns (es: seq<Timed>, t: Table)
    ensures Run(Begin(), Example(), es, t)
    ensures t.lost == [KEY] && !CountsAgree(t) && !AddressesAgree(t)
  {
    var s := FirstConnects();
    ChoicesFair(s);
    SecondIsFresh(s);
    var choice := Choice([0], [KEY], Payload(0));
    t := ExampleConnects([First()], s, 1, 2, choice);
    TakenOver(s, t, Peer(E.Start(ExampleConfig(), 1200, 0), 2, [], 0, KEY));
    es := [First()] + [ShakeFrom(1, 2, choice)];
    TablesAgreeUnlessOverwritten(map[KEY := None], 0, Example(), es, t);
  }

  // ---------- A truncated ACK ----------

  lemma StrayIsKnown(s: Table, c: Crypto, sid: nat, from: Addr, packet: Bytes, now: int, wall: nat, window: nat,
                     choice: Choice)
    requires 4 <= |packet| && TokensLeft(s, now) && FastPath(s, c, from, packet) == None
    requires ScanPeers(s.peers, c, packet, choice.sids) == Some(sid)
    ensures OnDatagram(s, c, from, packet, now, wall, window, choice) == OnKnown(RoamPaid(s), c, sid, from, packet, now)
  {
    assert s.(roamTokens := s.roamTokens - 1.0, lastRoam := now, scans := s.scans + 1) == RoamPaid(s);
  }

  /** From address 2 comes a datagram the session claims. */
  lemma ShortIsKnown(s: Table, choice: Choice)
    requires ConnectedOnce(s) && choice.sids == [0]
    ensures OnDatagram(s, Example(), 2, Short(), 0, 0, 0, choice) == OnKnown(RoamPaid(s), Example(), 0, 2, Short(), 0)
  {
    StrayIsKnown(s, Example(), 0, 2, Short(), 0, 0, 0, choice);
  }

  /** It opens as an ACK that announces a range it does not hold, under the first nonce of all. */
  lemma ShortIsTruncated(s: Table)
    requires ConnectedOnce(s)
    ensures var p, d := s.peers[0], Example().Unmask(Short(), s.peers[0].secret);
            && d == Datagram(0, 0, Sealed(1, 0, 0, Frame(FrameKind.Ack, 0, [1]), 0))
            && SetsRecord(p, s.trails[0], d, 0) && TruncatedAck(HeardAs(p.machine, d, 0).value)
  {
    var m := s.peers[0].machine;
    assert m.reorder == map[] && E.RecoverStalledGap(m, 0) == (m, []);
  }

  lemma ShortLeavesSession(s: Table) returns (t: Table)
    requires ConnectedOnce(s) && Tracked(s)
    ensures t == OnKnown(RoamPaid(s), Example(), 0, 2, Short(), 0).0
    ensures 0 in t.peers && t.peers[0].lastAddr == 1 && t.peers[0].machine.highestAuthenticated == Some(0)
  {
    t := OnKnown(RoamPaid(s), Example(), 0, 2, Short(), 0).0;
    SameTracks(s, RoamPaid(s));
    assert UserOf(s, KEY) == UserOf(RoamPaid(s), KEY) && !Barred(RoamPaid(s), KEY);
    ShortIsTruncated(s);
    MovesIff(RoamPaid(s), Example(), 0, 2, Short(), 0);
  }

  /**
   A truncated ACK from address 2 is the first datagram of its session to authenticate:
   its nonce becomes the highest, and the session stays at address 1.
   */
  lemma TruncatedAckStrandsSession() returns (es: seq<Timed>, t: Table)
    ensures Run(Begin(), Example(), es, t)
    ensures es != [] && es[|es| - 1].input.Packet? && es[|es| - 1].input.from == 2
    ensures 0 in t.peers && t.peers[0].lastAddr == 1 && t.peers[0].machine.highestAuthenticated == Some(0)
  {
    var s := FirstConnects();
    SessionsStayHome(map[KEY := None], 0, Example(), [First()], s);
    var e := Timed(Packet(2, Short(), 0), 0, 0, Choice([0], [KEY], Payload(0)));
    ChoicesFair(s);
    ShortIsKnown(s, e.choice);
    t := ShortLeavesSession(s);
    RunOneMore(Begin(), Example(), [First()], s, e, t);
    es := [First()] + [e];
  }
}
