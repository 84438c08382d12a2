/**
 The server's gates. While the wall clock does not go back, a handshake payload
 opens a second session only if a full cache had evicted it, and that happens only
 with 50 000 handshakes inside the drift window; and the two token buckets bound
 how many session scans and key trials any run can cause.
 */
module SessionReplay {
  import opened Basics
  import opened Wire
  import opened Sessions
  import opened SessionTracking
  import E = Endpoint

  /** Neither the replay cache nor a bucket is touched. */
  ghost predicate Aside(s: Table, t: Table) {
    && t.replay == s.replay && t.admitted == s.admitted && t.forced == s.forced
    && t.roamTokens == s.roamTokens && t.lastRoam == s.lastRoam && t.scans == s.scans
    && t.trialTokens == s.trialTokens && t.lastTrial == s.lastTrial && t.trials == s.trials
  }

  lemma SettleAside(s: Table, sid: nat, from: Addr, d: Datagram, size: nat, n: E.Endpoint, result: E.Outcome, now: int)
    requires sid in s.peers
    ensures Aside(s, Settle(s, sid, from, d, size, n, result, now).0)
  {
    assert Aside(s, Fed(s, sid, from, d, size, n, result.Ok?));
  }

  lemma KnownAside(s: Table, c: Crypto, sid: nat, from: Addr, packet: Bytes, now: int)
    requires sid in s.peers
    ensures Aside(s, OnKnown(s, c, sid, from, packet, now).0)
  {
    var p := s.peers[sid];
    if !Barred(s, p.key) {
      var d := c.Unmask(packet, p.secret);
      var (n, result) := E.OnEvent(p.machine, E.Inbound(d), now);
      SettleAside(Touched(s, p.key), sid, from, d, |packet|, n, result, now);
    }
  }

  lemma {:induction false} DropAllAside(s: Table, sids: seq<nat>)
    ensures Aside(s, DropAll(s, sids))
  {
    if sids != [] { DropAllAside(s, sids[..|sids| - 1]); }
  }

  lemma SentAside(s: Table, sid: nat, n: E.Endpoint, result: E.Outcome)
    requires sid in s.peers
    ensures Aside(s, Sent(s, sid, n, result).0)
  {
  }

  lemma OutboundAside(s: Table, sid: nat, stream: nat, payload: Bytes, now: int)
    ensures Aside(s, OnOutbound(s, sid, stream, payload, now).0)
  {
    if sid in s.peers {
      var (n, result) := E.OnEvent(s.peers[sid].machine, E.Outbound(stream, payload), now);
      SentAside(s, sid, n, result);
    }
  }

  lemma ClockAside(s: Table, now: int, wall: nat, choice: Choice)
    ensures Aside(s.(replay := Recent(s.replay, wall)), OnTick(s, now, wall, choice).0)
  {
    var q := s.(replay := Recent(s.replay, wall));
    TouchAllTracks(q, choice.sids);
    var r := TouchAll(q, choice.sids);
    DropAllAside(r, ExpiredOf(q, choice.sids, now));
  }

  // ---------- The replay cache ----------

  ghost predicate SameCache(s: Table, t: Table) {
    t.replay == s.replay && t.admitted == s.admitted && t.forced == s.forced
  }

  /** `p` passed every check of a handshake and is remembered, and perhaps admitted. */
  ghost predicate Remembers(s: Table, r: Table, t: Table, p: Bytes, wall: nat) {
    && |p| >= 8 && p !in s.replay && Drift(wall, Stamp(p)) <= DRIFT_LIMIT
    && t.replay == r.replay[p := Stamp(p)] && t.forced == r.forced
    && (t.admitted == s.admitted || t.admitted == s.admitted + [p])
  }

  /** All a datagram can do to the cache. */
  ghost predicate CacheStep(s: Table, t: Table, wall: nat, oldest: Bytes) {
    || SameCache(s, t)
    || SameCache(MakeRoom(s, wall, oldest), t)
    || exists p :: Remembers(s, MakeRoom(s, wall, oldest), t, p, wall)
  }

  lemma OpenCache(s: Table, key: Key, secret: Secret, sid: nat, h: Handshake, from: Addr, now: int)
    ensures var t := Open(s, key, secret, sid, h, from, now).0;
            && t.replay == s.replay && t.forced == s.forced
            && (t.admitted == s.admitted || t.admitted == s.admitted + [h.payload])
  {
  }

  lemma AdmitCache(s: Table, key: Key, secret: Secret, sid: nat, h: Handshake, from: Addr, now: int, wall: nat, oldest: Bytes)
    requires Fresh(s, h.payload, key, sid, wall)
    ensures CacheStep(s, Admit(s, key, secret, sid, h, from, now, wall, oldest).0, wall, oldest)
  {
    var r := MakeRoom(s, wall, oldest);
    if |r.peers| < MAX_SESSIONS {
      var u := Touched(r.(replay := r.replay[h.payload := Stamp(h.payload)]), key);
      OpenCache(u, key, secret, sid, h, from, now);
      assert Remembers(s, r, Open(u, key, secret, sid, h, from, now).0, h.payload, wall);
    }
  }

  lemma TryKeyCache(s: Table, c: Crypto, from: Addr, packet: Bytes, now: int, wall: nat, window: nat, key: Key, oldest: Bytes)
    requires |packet| >= 4
    ensures var r := TryKey(s, c, from, packet, now, wall, window, key, oldest);
            r.Some? ==> CacheStep(s, r.value.0, wall, oldest)
  {
    var secret := c.secretOf(key);
    if c.open(packet, key).Some? && Fresh(s, c.open(packet, key).value.payload, key, c.handshakeSid(packet, secret), wall) {
      AdmitCache(s, key, secret, c.handshakeSid(packet, secret), c.open(packet, key).value, from, now, wall, oldest);
    }
  }

  lemma {:induction false} TryKeysCache(s: Table, c: Crypto, from: Addr, packet: Bytes, now: int, wall: nat, window: nat,
                                        keys: seq<Key>, oldest: Bytes)
    requires |packet| >= 4
    ensures CacheStep(s, TryKeys(s, c, from, packet, now, wall, window, keys, oldest).0, wall, oldest)
  {
    if keys != [] {
      TryKeyCache(s, c, from, packet, now, wall, window, keys[0], oldest);
      TryKeysCache(s, c, from, packet, now, wall, window, keys[1..], oldest);
    }
  }

  lemma UnknownCache(s: Table, c: Crypto, from: Addr, packet: Bytes, now: int, wall: nat, window: nat, choice: Choice)
    requires |packet| >= 4
    ensures CacheStep(s, OnUnknown(s, c, from, packet, now, wall, window, choice).0, wall, choice.oldest)
  {
    var tokens := Refilled(s.trialTokens, s.lastTrial, now, TRIAL_RATE);
    var r := s.(trialTokens := tokens - 1.0, lastTrial := now, trials := s.trials + 1);
    TryKeysCache(r, c, from, packet, now, wall, window, choice.keys, choice.oldest);
    SameCacheStep(s, r, TryKeys(r, c, from, packet, now, wall, window, choice.keys, choice.oldest).0, wall, choice.oldest);
  }

  lemma SameRoom(s: Table, r: Table, wall: nat, oldest: Bytes)
    requires SameCache(s, r)
    ensures SameCache(MakeRoom(s, wall, oldest), MakeRoom(r, wall, oldest))
  {
  }

  lemma SameCacheStep(s: Table, r: Table, t: Table, wall: nat, oldest: Bytes)
    requires SameCache(s, r) && CacheStep(r, t, wall, oldest)
    ensures CacheStep(s, t, wall, oldest)
  {
    var a, b := MakeRoom(s, wall, oldest), MakeRoom(r, wall, oldest);
    SameRoom(s, r, wall, oldest);
    if !SameCache(r, t) && !SameCache(b, t) {
      var p :| Remembers(r, b, t, p, wall);
      assert Remembers(s, a, t, p, wall);
    }
  }

  lemma DatagramCache(s: Table, c: Crypto, from: Addr, packet: Bytes, now: int, wall: nat, window: nat, choice: Choice)
    ensures CacheStep(s, OnDatagram(s, c, from, packet, now, wall, window, choice).0, wall, choice.oldest)
  {
    if |packet| >= 4 {
      var hit := FastPath(s, c, from, packet);
      if hit.Some? {
        KnownAside(s, c, hit.value, from, packet, now);
      } else {
        StrayCache(s, c, from, packet, now, wall, window, choice);
      }
    }
  }

  lemma StrayCache(s: Table, c: Crypto, from: Addr, packet: Bytes, now: int, wall: nat, window: nat, choice: Choice)
    requires |packet| >= 4
    ensures CacheStep(s, OnStray(s, c, from, packet, now, wall, window, choice).0, wall, choice.oldest)
  {
    var tokens := Refilled(s.roamTokens, s.lastRoam, now, ROAMING_RATE);
    var t := OnStray(s, c, from, packet, now, wall, window, choice).0;
    if tokens < 1.0 {
      var r := s.(roamTokens := tokens, lastRoam := now);
      UnknownCache(r, c, from, packet, now, wall, window, choice);
      SameCacheStep(s, r, t, wall, choice.oldest);
    } else {
      var r := s.(roamTokens := tokens - 1.0, lastRoam := now, scans := s.scans + 1);
      AskCache(r, c, from, packet, now, wall, window, choice);
      SameCacheStep(s, r, t, wall, choice.oldest);
    }
  }

  lemma AskCache(s: Table, c: Crypto, from: Addr, packet: Bytes, now: int, wall: nat, window: nat, choice: Choice)
    requires |packet| >= 4
    ensures CacheStep(s, AskSessions(s, c, from, packet, now, wall, window, choice).0, wall, choice.oldest)
  {
    UnknownCache(s, c, from, packet, now, wall, window, choice);
    var found := ScanPeers(s.peers, c, packet, choice.sids);
    if found.Some? { KnownAside(s, c, found.value, from, packet, now); }
  }

  /** A payload is forced out of the cache only when it is full of unexpired ones, none older. */
  lemma ForcedOnlyWhenFull(s: Table, c: Crypto, e: Timed, p: Bytes)
    requires Fair(s, e.wall, e.choice)
    requires p in Next(s, c, e).forced && p !in s.forced
    ensures var kept := Recent(s.replay, e.wall);
            |kept| >= REPLAY_CACHE_MAX && IsOldest(kept, p)
  {
    NextCache(s, c, e);
    ForcedByStep(s, Next(s, c, e), e.wall, e.choice.oldest, p);
  }

  lemma ForcedByStep(s: Table, t: Table, wall: nat, oldest: Bytes, p: Bytes)
    requires InputStep(s, t, wall, oldest) && GoodVictim(s.replay, wall, oldest)
    requires p in t.forced && p !in s.forced
    ensures |Recent(s.replay, wall)| >= REPLAY_CACHE_MAX && IsOldest(Recent(s.replay, wall), p)
  {
    assert t.forced == s.forced || t.forced == MakeRoom(s, wall, oldest).forced;
    var kept := Recent(s.replay, wall);
    assert |kept| >= REPLAY_CACHE_MAX ==> kept != map[];
  }

  /** A tick purges the cache; anything else does at most what a datagram can. */
  ghost predicate InputStep(s: Table, t: Table, wall: nat, oldest: Bytes) {
    CacheStep(s, t, wall, oldest) || SameCache(s.(replay := Recent(s.replay, wall)), t)
  }

  lemma ClockCache(s: Table, now: int, wall: nat, choice: Choice)
    ensures InputStep(s, OnTick(s, now, wall, choice).0, wall, choice.oldest)
  {
    ClockAside(s, now, wall, choice);
  }

  lemma OutboundCache(s: Table, sid: nat, stream: nat, payload: Bytes, now: int, wall: nat, oldest: Bytes)
    ensures InputStep(s, OnOutbound(s, sid, stream, payload, now).0, wall, oldest)
  {
    OutboundAside(s, sid, stream, payload, now);
  }

  lemma ManagementCache(s: Table, sid: nat, key: Key, limit: Option<nat>, keys: map<Key, Option<nat>>, wall: nat, oldest: Bytes)
    ensures InputStep(s, DropSession(s, sid), wall, oldest) && InputStep(s, SetUserLimit(s, key, limit), wall, oldest)
    ensures InputStep(s, s.(keys := keys), wall, oldest)
  {
    assert SameCache(s, DropSession(s, sid)) && SameCache(s, SetUserLimit(s, key, limit)) && SameCache(s, s.(keys := keys));
  }

  lemma NextCache(s: Table, c: Crypto, e: Timed)
    ensures InputStep(s, Next(s, c, e), e.wall, e.choice.oldest)
  {
    match e.input
    case Packet(from, packet, window) => DatagramCache(s, c, from, packet, e.now, e.wall, window, e.choice);
    case Clock => ClockCache(s, e.now, e.wall, e.choice);
    case Send(sid, stream, payload) => OutboundCache(s, sid, stream, payload, e.now, e.wall, e.choice.oldest);
    case Drop(sid) => ManagementCache(s, sid, [], None, map[], e.wall, e.choice.oldest);
    case Limit(key, limit) => ManagementCache(s, 0, key, limit, map[], e.wall, e.choice.oldest);
    case Rekey(keys) => ManagementCache(s, 0, [], None, keys, e.wall, e.choice.oldest);
  }

  // ---------- No payload twice ----------

  /** Presenting `p` again after `wall` cannot open a session, or it was forced out. */
  ghost predicate Spent(s: Table, p: Bytes, wall: nat)
    requires |p| >= 8
  {
    p in s.forced || p in s.replay || Stamp(p) + DRIFT_LIMIT < wall
  }

  ghost predicate Guarded(s: Table, wall: nat) {
    && (forall p :: p in s.replay ==> |p| >= 8 && s.replay[p] == Stamp(p) && Stamp(p) <= wall + DRIFT_LIMIT)
    && (forall i :: 0 <= i < |s.admitted| ==> |s.admitted[i]| >= 8 && Spent(s, s.admitted[i], wall))
    && (forall i, j :: 0 <= i < j < |s.admitted| && s.admitted[i] == s.admitted[j] ==> s.admitted[i] in s.forced)
  }

  lemma Purged(s: Table, wall: nat, later: nat)
    requires Guarded(s, wall) && wall <= later
    ensures Guarded(s.(replay := Recent(s.replay, later)), later)
  {
  }

  lemma RoomGuarded(s: Table, wall: nat, later: nat, oldest: Bytes)
    requires Guarded(s, wall) && wall <= later
    ensures Guarded(MakeRoom(s, later, oldest), later)
  {
    Purged(s, wall, later);
  }

  lemma RememberGuarded(s: Table, r: Table, t: Table, p: Bytes, wall: nat)
    requires Guarded(r, wall) && Remembers(s, r, t, p, wall) && r.admitted == s.admitted && p !in r.replay
    ensures Guarded(t, wall)
  {
    forall i | 0 <= i < |t.admitted|
      ensures |t.admitted[i]| >= 8 && Spent(t, t.admitted[i], wall)
    {
      if i < |s.admitted| {
        assert t.admitted[i] == r.admitted[i];
        assert Spent(r, r.admitted[i], wall);
      } else {
        assert t.admitted[i] == p;
      }
    }
    forall i, j | 0 <= i < j < |t.admitted| && t.admitted[i] == t.admitted[j]
      ensures t.admitted[i] in t.forced
    {
      assert t.admitted[i] == r.admitted[i];
      if j == |s.admitted| {
        assert Spent(r, p, wall);
      } else {
        assert t.admitted[j] == r.admitted[j];
      }
    }
  }

  lemma SameGuarded(s: Table, t: Table, wall: nat, later: nat)
    requires Guarded(s, wall) && wall <= later && SameCache(s, t)
    ensures Guarded(t, later)
  {
    forall i | 0 <= i < |t.admitted|
      ensures |t.admitted[i]| >= 8 && Spent(t, t.admitted[i], later)
    {
      assert Spent(s, s.admitted[i], wall);
    }
  }

  lemma StepGuarded(s: Table, t: Table, wall: nat, later: nat, oldest: Bytes)
    requires Guarded(s, wall) && wall <= later && CacheStep(s, t, later, oldest)
    ensures Guarded(t, later)
  {
    if SameCache(s, t) {
      SameGuarded(s, t, wall, later);
    } else {
      var r := MakeRoom(s, later, oldest);
      RoomGuarded(s, wall, later, oldest);
      if SameCache(r, t) {
        SameGuarded(r, t, later, later);
      } else {
        var p :| Remembers(s, r, t, p, later);
        RememberGuarded(s, r, t, p, later);
      }
    }
  }

  lemma InputGuarded(s: Table, t: Table, wall: nat, later: nat, oldest: Bytes)
    requires Guarded(s, wall) && wall <= later && InputStep(s, t, later, oldest)
    ensures Guarded(t, later)
  {
    if CacheStep(s, t, later, oldest) {
      StepGuarded(s, t, wall, later, oldest);
    } else {
      Purged(s, wall, later);
      SameGuarded(s.(replay := Recent(s.replay, later)), t, later, later);
    }
  }

  /** Neither clock goes back along the run. */
  ghost predicate Forward(es: seq<Timed>) {
    forall i, j :: 0 <= i < j < |es| ==> es[i].wall <= es[j].wall && es[i].now <= es[j].now
  }

  function LastWall(es: seq<Timed>): nat {
    if es == [] then 0 else es[|es| - 1].wall
  }

  lemma {:induction false} CacheGuards(keys: map<Key, Option<nat>>, start: int, c: Crypto, es: seq<Timed>, t: Table)
    requires Run(New(keys, start), c, es, t) && Forward(es)
    ensures Guarded(t, LastWall(es))
  {
    if es != [] {
      var before, e := es[..|es| - 1], es[|es| - 1];
      var m :| Run(New(keys, start), c, before, m) && Fair(m, e.wall, e.choice) && t == Next(m, c, e);
      CacheGuards(keys, start, c, before, m);
      NextCache(m, c, e);
      InputGuarded(m, t, LastWall(before), e.wall, e.choice.oldest);
    }
  }

  /**
   Over every run with a forward clock, a payload that opened two sessions had been
   forced out of a full cache; with no forced eviction, every session was opened by
   its own handshake.
   */
  lemma NoHandshakeTwice(keys: map<Key, Option<nat>>, start: int, c: Crypto, es: seq<Timed>, t: Table)
    requires Run(New(keys, start), c, es, t) && Forward(es)
    ensures forall i, j :: 0 <= i < j < |t.admitted| && t.admitted[i] == t.admitted[j] ==> t.admitted[i] in t.forced
    ensures t.forced == {} ==> forall i, j :: 0 <= i < j < |t.admitted| ==> t.admitted[i] != t.admitted[j]
  {
    CacheGuards(keys, start, c, es, t);
  }

  // ---------- The token buckets ----------

  /** A bucket that has paid for `spent` so far, refilled at `rate` up to `rate`. */
  predicate Paid(tokens: real, spent: nat, rate: real, since: int, start: int) {
    && 0.0 <= tokens <= rate && since >= start
    && spent as real + tokens <= rate + Seconds(Since(since, start)) * rate
  }

  lemma Distributes(a: real, b: real, rate: real)
    requires a >= 0.0 && b >= 0.0 && rate >= 0.0
    ensures (a + b) * rate == a * rate + b * rate && b * rate >= 0.0
  {
  }

  lemma SinceAdds(start: int, since: int, now: int)
    requires start <= since <= now
    ensures Seconds(Since(now, start)) == Seconds(Since(since, start)) + Seconds(Since(now, since))
  {
  }

  lemma CapKeepsAccount(tokens: real, spent: real, rate: real, paid: real, earned: real)
    requires 0.0 <= tokens <= rate && earned >= 0.0 && spent + tokens <= rate + paid
    ensures 0.0 <= MinReal(tokens + earned, rate) <= rate
    ensures spent + MinReal(tokens + earned, rate) <= rate + (paid + earned)
  {
  }

  lemma RefillPays(tokens: real, spent: nat, rate: real, since: int, start: int, now: int)
    requires Paid(tokens, spent, rate, since, start) && now >= since && rate >= 0.0
    ensures Paid(Refilled(tokens, since, now, rate), spent, rate, now, start)
  {
    var a, b := Seconds(Since(since, start)), Seconds(Since(now, since));
    SinceAdds(start, since, now);
    Distributes(a, b, rate);
    CapKeepsAccount(tokens, spent as real, rate, a * rate, b * rate);
  }

  ghost predicate Metered(s: Table, start: int) {
    && Paid(s.roamTokens, s.scans, ROAMING_RATE, s.lastRoam, start)
    && Paid(s.trialTokens, s.trials, TRIAL_RATE, s.lastTrial, start)
  }

  ghost predicate SameGates(s: Table, t: Table) {
    && t.roamTokens == s.roamTokens && t.lastRoam == s.lastRoam && t.scans == s.scans
    && t.trialTokens == s.trialTokens && t.lastTrial == s.lastTrial && t.trials == s.trials
  }

  lemma {:induction false} TryKeysGates(s: Table, c: Crypto, from: Addr, packet: Bytes, now: int, wall: nat, window: nat,
                                        keys: seq<Key>, oldest: Bytes)
    requires |packet| >= 4
    ensures SameGates(s, TryKeys(s, c, from, packet, now, wall, window, keys, oldest).0)
  {
    if keys != [] {
      TryKeysGates(s, c, from, packet, now, wall, window, keys[1..], oldest);
      var key := keys[0];
      var secret := c.secretOf(key);
      if c.open(packet, key).Some? && |c.open(packet, key).value.payload| >= 12 {
        AdmitGates(s, key, secret, c.handshakeSid(packet, secret), c.open(packet, key).value, from, now, wall, oldest);
      }
    }
  }

  lemma AdmitGates(s: Table, key: Key, secret: Secret, sid: nat, h: Handshake, from: Addr, now: int, wall: nat, oldest: Bytes)
    requires |h.payload| >= 12
    ensures SameGates(s, Admit(s, key, secret, sid, h, from, now, wall, oldest).0)
  {
  }

  /** Both buckets have paid for what was done, and were last looked at by `now`. */
  ghost predicate Gated(s: Table, start: int, now: int) {
    Metered(s, start) && s.lastRoam <= now && s.lastTrial <= now
  }

  lemma AsideGates(s: Table, t: Table, start: int, now: int)
    requires Gated(s, start, now) && SameGates(s, t)
    ensures Gated(t, start, now)
  {
  }

  lemma UnknownGates(s: Table, c: Crypto, from: Addr, packet: Bytes, now: int, wall: nat, window: nat, choice: Choice,
                     start: int)
    requires Gated(s, start, now) && |packet| >= 4
    ensures var t := OnUnknown(s, c, from, packet, now, wall, window, choice).0; Gated(t, start, now)
  {
    RefillPays(s.trialTokens, s.trials, TRIAL_RATE, s.lastTrial, start, now);
    var tokens := Refilled(s.trialTokens, s.lastTrial, now, TRIAL_RATE);
    TryKeysGates(s.(trialTokens := tokens - 1.0, lastTrial := now, trials := s.trials + 1), c, from, packet, now, wall,
                 window, choice.keys, choice.oldest);
  }

  lemma AskGates(s: Table, c: Crypto, from: Addr, packet: Bytes, now: int, wall: nat, window: nat, choice: Choice, start: int)
    requires Gated(s, start, now) && |packet| >= 4
    ensures var t := AskSessions(s, c, from, packet, now, wall, window, choice).0; Gated(t, start, now)
  {
    UnknownGates(s, c, from, packet, now, wall, window, choice, start);
    var found := ScanPeers(s.peers, c, packet, choice.sids);
    if found.Some? { KnownAside(s, c, found.value, from, packet, now); }
  }

  lemma StrayGates(s: Table, c: Crypto, from: Addr, packet: Bytes, now: int, wall: nat, window: nat, choice: Choice, start: int)
    requires Gated(s, start, now) && |packet| >= 4
    ensures var t := OnStray(s, c, from, packet, now, wall, window, choice).0; Gated(t, start, now)
  {
    RefillPays(s.roamTokens, s.scans, ROAMING_RATE, s.lastRoam, start, now);
    var tokens := Refilled(s.roamTokens, s.lastRoam, now, ROAMING_RATE);
    if tokens < 1.0 {
      UnknownGates(s.(roamTokens := tokens, lastRoam := now), c, from, packet, now, wall, window, choice, start);
    } else {
      AskGates(s.(roamTokens := tokens - 1.0, lastRoam := now, scans := s.scans + 1), c, from, packet, now, wall, window,
               choice, start);
    }
  }

  lemma DatagramGates(s: Table, c: Crypto, from: Addr, packet: Bytes, now: int, wall: nat, window: nat, choice: Choice,
                      start: int)
    requires Gated(s, start, now)
    ensures var t := OnDatagram(s, c, from, packet, now, wall, window, choice).0; Gated(t, start, now)
  {
    if |packet| >= 4 {
      var hit := FastPath(s, c, from, packet);
      if hit.Some? {
        KnownAside(s, c, hit.value, from, packet, now);
      } else {
        StrayGates(s, c, from, packet, now, wall, window, choice, start);
      }
    }
  }

  lemma ClockGates(s: Table, now: int, wall: nat, choice: Choice, start: int)
    requires Gated(s, start, now)
    ensures Gated(OnTick(s, now, wall, choice).0, start, now)
  {
    ClockAside(s, now, wall, choice);
    AsideGates(s, OnTick(s, now, wall, choice).0, start, now);
  }

  lemma OutboundGates(s: Table, sid: nat, stream: nat, payload: Bytes, now: int, start: int)
    requires Gated(s, start, now)
    ensures Gated(OnOutbound(s, sid, stream, payload, now).0, start, now)
  {
    OutboundAside(s, sid, stream, payload, now);
    AsideGates(s, OnOutbound(s, sid, stream, payload, now).0, start, now);
  }

  lemma ManagementGates(s: Table, sid: nat, key: Key, limit: Option<nat>, keys: map<Key, Option<nat>>, start: int, now: int)
    requires Gated(s, start, now)
    ensures Gated(DropSession(s, sid), start, now) && Gated(SetUserLimit(s, key, limit), start, now)
    ensures Gated(s.(keys := keys), start, now)
  {
    AsideGates(s, DropSession(s, sid), start, now);
    AsideGates(s, SetUserLimit(s, key, limit), start, now);
    AsideGates(s, s.(keys := keys), start, now);
  }

  lemma NextGates(s: Table, c: Crypto, e: Timed, start: int)
    requires Gated(s, start, e.now)
    ensures Gated(Next(s, c, e), start, e.now)
  {
    match e.input
    case Packet(from, packet, window) => DatagramGates(s, c, from, packet, e.now, e.wall, window, e.choice, start);
    case Clock => ClockGates(s, e.now, e.wall, e.choice, start);
    case Send(sid, stream, payload) => OutboundGates(s, sid, stream, payload, e.now, start);
    case Drop(sid) => ManagementGates(s, sid, [], None, map[], start, e.now);
    case Limit(key, limit) => ManagementGates(s, 0, key, limit, map[], start, e.now);
    case Rekey(keys) => ManagementGates(s, 0, [], None, keys, start, e.now);
  }

  function LastNow(es: seq<Timed>, start: int): int {
    if es == [] then start else es[|es| - 1].now
  }

  lemma {:induction false} GatesMeter(keys: map<Key, Option<nat>>, start: int, c: Crypto, es: seq<Timed>, t: Table)
    requires Run(New(keys, start), c, es, t) && Forward(es)
    requires forall i :: 0 <= i < |es| ==> start <= es[i].now
    ensures Gated(t, start, LastNow(es, start))
  {
    if es != [] {
      var before, e := es[..|es| - 1], es[|es| - 1];
      var m :| Run(New(keys, start), c, before, m) && Fair(m, e.wall, e.choice) && t == Next(m, c, e);
      GatesMeter(keys, start, c, before, m);
      NextGates(m, c, e, start);
    }
  }

  /** Whatever arrives, work on datagrams of no known session is at most the burst plus the rate over the whole run. */
  lemma WorkIsBounded(keys: map<Key, Option<nat>>, start: int, c: Crypto, es: seq<Timed>, t: Table)
    requires Run(New(keys, start), c, es, t) && Forward(es)
    requires forall i :: 0 <= i < |es| ==> start <= es[i].now
    ensures var elapsed := Seconds(Since(LastNow(es, start), start));
            t.scans as real <= 50.0 + elapsed * 50.0 && t.trials as real <= 100.0 + elapsed * 100.0
  {
    GatesMeter(keys, start, c, es, t);
  }
}
