/**
 What the server hands on. A datagram makes its session move as one side of two
 endpoints does: the payloads returned are those the side is handed, the responses
 those it transmits. Over runs, what was returned for a session is what its client
 submitted, as far as it was released, and what it sealed is what it was given to send.
 */
module SessionDelivery {
  import opened Basics
  import opened Wire
  import opened EndpointInvariants
  import opened EndpointEvents
  import opened EndpointDelivery
  import opened Submission
  import opened TwoEndpoints
  import opened Sessions
  import opened SessionMachines
  import SessionTracking
  import E = Endpoint

  // ---------- One datagram ----------

  lemma {:induction false} OutgoingIsSent(a: E.Action, now: int)
    ensures AsSent(Outgoing(a), now) == Sends(a, now)
    decreases a, 0
  {
    if a.Multiple? { AllOutgoingIsSent(a.list, now); }
  }

  lemma {:induction false} AllOutgoingIsSent(list: seq<E.Action>, now: int)
    ensures AsSent(AllOutgoing(list), now) == AllSends(list, now)
    decreases list, 1
  {
    if list != [] {
      var front, last := list[..|list| - 1], list[|list| - 1];
      AllOutgoingIsSent(front, now);
      OutgoingIsSent(last, now);
      AsSentConcat(AllOutgoing(front), Outgoing(last), now);
    }
  }

  function AsSent(ds: seq<Datagram>, now: int): (txs: seq<Tx>)
    ensures |txs| == |ds|
  {
    seq(|ds|, i requires 0 <= i < |ds| => Tx(ds[i], now))
  }

  lemma AsSentConcat(a: seq<Datagram>, b: seq<Datagram>, now: int)
    ensures AsSent(a + b, now) == AsSent(a, now) + AsSent(b, now)
  {
  }

  /** The responses are answers, and carry what went onto the wire, in order. */
  ghost predicate Answers(responses: seq<Response>, txs: seq<Tx>) {
    |responses| == |txs| && forall i :: 0 <= i < |txs| ==> responses[i] == Reply(txs[i].d)
  }

  /**
   `x` has become `x'`, and the caller was told exactly so: nothing was handed over or
   transmitted unless the outcome says it, and the outcome says all of it.
   */
  ghost predicate Told(x: Side, x': Side, out: Outcome) {
    match out
    case Accepted(responses, deliveries, _) =>
      && x'.handed == x.handed + deliveries && x.wire <= x'.wire && Answers(responses, x'.wire[|x.wire|..])
    case _ => x'.handed == x.handed && x'.wire == x.wire
  }

  lemma SettleTells(s: Table, x: Side, sid: nat, from: Addr, d: Datagram, size: nat, now: int)
    requires sid in s.peers && x.ep == s.peers[sid].machine
    ensures var x' := Moved(x, Occurs(E.Inbound(d)), now);
            var (n, result) := E.OnEvent(x.ep, E.Inbound(d), now);
            var (t, out) := Settle(s, sid, from, d, size, n, result, now);
            sid in t.peers && t.peers[sid].machine == x'.ep && Told(x, x', out)
  {
    var (n, result) := E.OnEvent(x.ep, E.Inbound(d), now);
    SessionTracking.SettleShape(s, sid, from, d, size, n, result, now);
    if result.Ok? {
      OutgoingIsSent(result.action, now);
      var news := Moved(x, Occurs(E.Inbound(d)), now).wire[|x.wire|..];
      assert news == AsSent(Outgoing(result.action), now);
    } else {
      assert x.wire + [] == x.wire && x.handed + [] == x.handed;
    }
  }

  /** A datagram for a live session whose key is good is one move of that session's side, and the caller is told. */
  lemma KnownTells(s: Table, c: Crypto, x: Side, sid: nat, from: Addr, packet: Bytes, now: int)
    requires sid in s.peers && x.ep == s.peers[sid].machine && !Barred(s, s.peers[sid].key)
    ensures var x' := Moved(x, Occurs(E.Inbound(c.Unmask(packet, s.peers[sid].secret))), now);
            var (t, out) := OnKnown(s, c, sid, from, packet, now);
            sid in t.peers && t.peers[sid].machine == x'.ep && Told(x, x', out)
  {
    SettleTells(Touched(s, s.peers[sid].key), x, sid, from, c.Unmask(packet, s.peers[sid].secret), |packet|, now);
  }

  /** The session a datagram is routed to moves as a side does, and the outcome tells the move exactly. */
  lemma DatagramTells(s: Table, c: Crypto, x: Side, sid: nat, from: Addr, packet: Bytes, now: int, wall: nat, window: nat,
                      choice: Choice)
    requires sid in s.peers && x.ep == s.peers[sid].machine && !Barred(s, s.peers[sid].key)
    requires SessionTracking.Route(s, c, from, packet, now, choice) == Some(sid)
    ensures var x' := Moved(x, Occurs(E.Inbound(c.Unmask(packet, s.peers[sid].secret))), now);
            var (t, out) := OnDatagram(s, c, from, packet, now, wall, window, choice);
            sid in t.peers && t.peers[sid].machine == x'.ep && Told(x, x', out)
  {
    var r := SessionTracking.RouteDecides(s, c, from, packet, now, wall, window, choice, sid);
    KnownTells(r, c, x, sid, from, packet, now);
  }

  // ---------- What each step does to one session ----------

  ghost predicate Newborn(m: E.Endpoint, now: int) {
    exists cfg, mtu :: m == E.Start(cfg, mtu, now)
  }

  /** Session `sid` of `t` is as in `s`, or has just been opened. */
  ghost predicate SameOrNew(s: Table, t: Table, sid: nat, now: int) {
    sid in t.peers ==> (sid in s.peers && t.peers[sid] == s.peers[sid]) || Newborn(t.peers[sid].machine, now)
  }

  lemma AdmitBears(s: Table, key: Key, secret: Secret, id: nat, h: Handshake, from: Addr, now: int, wall: nat, oldest: Bytes,
                   sid: nat)
    requires |h.payload| >= 12
    ensures SameOrNew(s, Admit(s, key, secret, id, h, from, now, wall, oldest).0, sid, now)
  {
    AdmitShape(s, key, secret, id, h, from, now, wall, oldest);
  }

  lemma TryKeyBears(s: Table, c: Crypto, from: Addr, packet: Bytes, now: int, wall: nat, window: nat, key: Key, oldest: Bytes,
                    sid: nat)
    requires |packet| >= 4
    ensures var r := TryKey(s, c, from, packet, now, wall, window, key, oldest); r.Some? ==> SameOrNew(s, r.value.0, sid, now)
  {
    var secret, h := c.secretOf(key), c.open(packet, key);
    if h.Some? && |h.value.payload| >= 12 {
      AdmitBears(s, key, secret, c.handshakeSid(packet, secret), h.value, from, now, wall, oldest, sid);
    }
  }

  lemma {:induction false} TryKeysBear(s: Table, c: Crypto, from: Addr, packet: Bytes, now: int, wall: nat, window: nat,
                                       keys: seq<Key>, oldest: Bytes, sid: nat)
    requires |packet| >= 4
    ensures SameOrNew(s, TryKeys(s, c, from, packet, now, wall, window, keys, oldest).0, sid, now)
  {
    if keys != [] {
      TryKeyBears(s, c, from, packet, now, wall, window, keys[0], oldest, sid);
      TryKeysBear(s, c, from, packet, now, wall, window, keys[1..], oldest, sid);
    }
  }

  lemma UnknownBears(s: Table, c: Crypto, from: Addr, packet: Bytes, now: int, wall: nat, window: nat, choice: Choice, sid: nat)
    requires |packet| >= 4
    ensures SameOrNew(s, OnUnknown(s, c, from, packet, now, wall, window, choice).0, sid, now)
  {
    var tokens := Refilled(s.trialTokens, s.lastTrial, now, TRIAL_RATE);
    TryKeysBear(s.(trialTokens := tokens - 1.0, lastTrial := now, trials := s.trials + 1), c, from, packet, now, wall, window,
                choice.keys, choice.oldest, sid);
  }

  lemma KnownKeepsOthers(s: Table, c: Crypto, other: nat, from: Addr, packet: Bytes, now: int, sid: nat)
    requires other in s.peers && other != sid
    ensures SameOrNew(s, OnKnown(s, c, other, from, packet, now).0, sid, now)
  {
    var p := s.peers[other];
    if !Barred(s, p.key) {
      var d := c.Unmask(packet, p.secret);
      var (n, result) := E.OnEvent(p.machine, E.Inbound(d), now);
      SessionTracking.SettleShape(Touched(s, p.key), other, from, d, |packet|, n, result, now);
    }
  }

  lemma AskBears(s: Table, c: Crypto, from: Addr, packet: Bytes, now: int, wall: nat, window: nat, choice: Choice, sid: nat)
    requires |packet| >= 4 && ScanPeers(s.peers, c, packet, choice.sids) != Some(sid)
    ensures SameOrNew(s, AskSessions(s, c, from, packet, now, wall, window, choice).0, sid, now)
  {
    UnknownBears(s, c, from, packet, now, wall, window, choice, sid);
    var found := ScanPeers(s.peers, c, packet, choice.sids);
    if found.Some? { KnownKeepsOthers(s, c, found.value, from, packet, now, sid); }
  }

  /** A datagram routed elsewhere leaves the session alone, unless it opens it. */
  lemma ElsewhereBears(s: Table, c: Crypto, from: Addr, packet: Bytes, now: int, wall: nat, window: nat, choice: Choice,
                       sid: nat)
    requires SessionTracking.Route(s, c, from, packet, now, choice) != Some(sid)
    ensures SameOrNew(s, OnDatagram(s, c, from, packet, now, wall, window, choice).0, sid, now)
  {
    if |packet| >= 4 {
      var fast := FastPath(s, c, from, packet);
      if fast.Some? {
        KnownKeepsOthers(s, c, fast.value, from, packet, now, sid);
      } else {
        StrayBears(s, c, from, packet, now, wall, window, choice, sid);
      }
    }
  }

  lemma StrayBears(s: Table, c: Crypto, from: Addr, packet: Bytes, now: int, wall: nat, window: nat, choice: Choice, sid: nat)
    requires |packet| >= 4 && FastPath(s, c, from, packet).None?
    requires SessionTracking.Route(s, c, from, packet, now, choice) != Some(sid)
    ensures SameOrNew(s, OnStray(s, c, from, packet, now, wall, window, choice).0, sid, now)
  {
    SessionTracking.StrayIs(s, c, from, packet, now, wall, window, choice);
    if SessionTracking.Dry(s, now) {
      UnknownBears(SessionTracking.Waiting(s, now), c, from, packet, now, wall, window, choice, sid);
    } else {
      AskBears(SessionTracking.Asking(s, now), c, from, packet, now, wall, window, choice, sid);
    }
  }

  lemma ClockTicks(s: Table, now: int, wall: nat, choice: Choice, sid: nat)
    ensures var t := OnTick(s, now, wall, choice).0;
            sid in t.peers ==> sid in s.peers && t.peers[sid].machine == E.OnEvent(s.peers[sid].machine, E.Tick, now).0
  {
    var q := s.(replay := Recent(s.replay, wall));
    SessionTracking.TouchAllTracks(q, choice.sids);
    DropAllPart(TouchAll(q, choice.sids), ExpiredOf(q, choice.sids, now));
  }

  // ---------- The account of a session ----------

  /** What the callers of the table were given for a session, and what they gave it to send. */
  datatype Ledger = Ledger(handed: seq<Delivery>, sent: seq<Delivery>)

  /** This step opens session `sid`. */
  ghost predicate Opens(m: Table, c: Crypto, e: Timed, sid: nat) {
    && e.input.Packet? && SessionTracking.Route(m, c, e.input.from, e.input.packet, e.now, e.choice) != Some(sid)
    && sid in Sessions.Next(m, c, e).peers && (sid in m.peers ==> Sessions.Next(m, c, e).peers[sid] != m.peers[sid])
  }

  /** What the outcome of one step adds to session `sid`'s account. */
  function Entered(m: Table, c: Crypto, e: Timed, sid: nat): Ledger {
    match e.input
    case Packet(from, packet, window) =>
      var out := OnDatagram(m, c, from, packet, e.now, e.wall, window, e.choice).1;
      if SessionTracking.Route(m, c, from, packet, e.now, e.choice) == Some(sid) && out.Accepted? then Ledger(out.deliveries, [])
      else Ledger([], [])
    case Send(id, stream, payload) =>
      if id == sid && OnOutbound(m, sid, stream, payload, e.now).1.Some? then Ledger([], [Delivery(stream, payload)])
      else Ledger([], [])
    case _ => Ledger([], [])
  }

  ghost function TableAfter(s: Table, c: Crypto, es: seq<Timed>): Table {
    if es == [] then s else Sessions.Next(TableAfter(s, c, es[..|es| - 1]), c, es[|es| - 1])
  }

  /** The account of a session since it was last opened. */
  ghost function Account(s: Table, c: Crypto, es: seq<Timed>, sid: nat): Ledger {
    if es == [] then Ledger([], [])
    else
      var front, e := es[..|es| - 1], es[|es| - 1];
      var m := TableAfter(s, c, front);
      if Opens(m, c, e, sid) then Ledger([], [])
      else
        var before, now := Account(s, c, front, sid), Entered(m, c, e, sid);
        Ledger(before.handed + now.handed, before.sent + now.sent)
  }

  /** Since it was last opened, whatever opened at session `sid` was one of its client's frames. */
  ghost predicate Hears(s: Table, c: Crypto, es: seq<Timed>, sid: nat, frames: seq<Frame>) {
    es != [] ==>
      var front, e := es[..|es| - 1], es[|es| - 1];
      var m := TableAfter(s, c, front);
      Opens(m, c, e, sid)
      || (Hears(s, c, front, sid, frames)
          && (e.input.Packet? && sid in m.peers
              && SessionTracking.Route(m, c, e.input.from, e.input.packet, e.now, e.choice) == Some(sid)
              ==> Genuine(m.peers[sid].machine, c.Unmask(e.input.packet, m.peers[sid].secret), frames)))
  }

  /** The session's machine and its account agree. */
  ghost predicate Settled(m: E.Endpoint, l: Ledger, frames: seq<Frame>) {
    && Mirrors(m, frames) && |m.fates| == m.expected
    && l.handed == Extract(frames, m.fates) && l.sent == DataPayloads(m.sealed)
  }

  lemma NewbornSettled(m: E.Endpoint, now: int, frames: seq<Frame>)
    requires Newborn(m, now)
    ensures Settled(m, Ledger([], []), frames)
  {
  }

  lemma ArrivalSettles(m: E.Endpoint, d: Datagram, now: int, l: Ledger, frames: seq<Frame>)
    requires Inv(m) && Headroom(m) && Settled(m, l, frames) && Genuine(m, d, frames)
    ensures var (n, result) := E.OnEvent(m, E.Inbound(d), now);
            Settled(n, Ledger(l.handed + Handed(result), l.sent + []), frames)
  {
    EventDelivers(m, E.Inbound(d), now, frames);
    EventSeals(m, E.Inbound(d), now);
  }

  /** An event that brings nothing in. */
  lemma OwnEventSettles(m: E.Endpoint, e: E.Event, now: int, l: Ledger, frames: seq<Frame>)
    requires Inv(m) && Headroom(m) && Settled(m, l, frames) && !e.Inbound?
    ensures Settled(E.OnEvent(m, e, now).0, Ledger(l.handed + [], l.sent + Submitted(m, e)), frames)
  {
    AnyEventStep(m, e, now);
    EventSeals(m, e, now);
    assert l.handed + [] == l.handed;
  }

  lemma SameSettles(m: E.Endpoint, l: Ledger, frames: seq<Frame>)
    requires Settled(m, l, frames)
    ensures Settled(m, Ledger(l.handed + [], l.sent + []), frames)
  {
    assert l.handed + [] == l.handed && l.sent + [] == l.sent;
  }

  // ---------- Every step keeps the accounts ----------

  lemma PacketSettles(m: Table, c: Crypto, e: Timed, sid: nat, l: Ledger, frames: seq<Frame>)
    requires e.input.Packet? && SessionTracking.Route(m, c, e.input.from, e.input.packet, e.now, e.choice) == Some(sid)
    requires sid in m.peers && Inv(m.peers[sid].machine) && Headroom(m.peers[sid].machine)
    requires Settled(m.peers[sid].machine, l, frames)
    requires Genuine(m.peers[sid].machine, c.Unmask(e.input.packet, m.peers[sid].secret), frames)
    ensures var t, more := Sessions.Next(m, c, e), Entered(m, c, e, sid);
            sid in t.peers ==> Settled(t.peers[sid].machine, Ledger(l.handed + more.handed, l.sent + more.sent), frames)
  {
    var from, packet, p := e.input.from, e.input.packet, m.peers[sid];
    var d := c.Unmask(packet, p.secret);
    if Barred(m, p.key) {
      BarredIsDropped(m, c, e, sid);
    } else {
      var x := Side(p.machine, [], [], []);
      DatagramTells(m, c, x, sid, from, packet, e.now, e.wall, e.input.window, e.choice);
      var result := E.OnEvent(p.machine, E.Inbound(d), e.now).1;
      assert [] + Handed(result) == Handed(result);
      ArrivalSettles(p.machine, d, e.now, l, frames);
      ToldIsEntered(x, Moved(x, Occurs(E.Inbound(d)), e.now),
                    OnDatagram(m, c, from, packet, e.now, e.wall, e.input.window, e.choice).1);
    }
  }

  lemma ToldIsEntered(x: Side, x': Side, out: Outcome)
    requires Told(x, x', out) && x.handed == []
    ensures x'.handed == if out.Accepted? then out.deliveries else []
  {
  }

  lemma BarredIsDropped(m: Table, c: Crypto, e: Timed, sid: nat)
    requires e.input.Packet? && SessionTracking.Route(m, c, e.input.from, e.input.packet, e.now, e.choice) == Some(sid)
    requires sid in m.peers && Barred(m, m.peers[sid].key)
    ensures sid !in Sessions.Next(m, c, e).peers
  {
    var r := SessionTracking.RouteDecides(m, c, e.input.from, e.input.packet, e.now, e.wall, e.input.window, e.choice, sid);
  }

  lemma OutboundIsTaken(m: E.Endpoint, stream: nat, payload: Bytes, now: int)
    ensures var result := E.OnEvent(m, E.Outbound(stream, payload), now).1;
            result.Ok? && (result.action.SendDatagram? <==> Submitted(m, E.Outbound(stream, payload)) != [])
  {
  }

  /** A payload is sealed for the session it is for, and the caller gets a datagram exactly when it was taken. */
  lemma SendMoves(m: Table, id: nat, stream: nat, payload: Bytes, now: int)
    ensures var (t, sent) := OnOutbound(m, id, stream, payload, now);
            && t.peers.Keys == m.peers.Keys && (forall sid :: sid in m.peers && sid != id ==> t.peers[sid] == m.peers[sid])
            && (id in m.peers ==>
                 var e := E.Outbound(stream, payload);
                 && t.peers[id].machine == E.OnEvent(m.peers[id].machine, e, now).0
                 && Submitted(m.peers[id].machine, e) == if sent.Some? then [Delivery(stream, payload)] else [])
  {
    if id in m.peers {
      OutboundIsTaken(m.peers[id].machine, stream, payload, now);
      var (n, result) := E.OnEvent(m.peers[id].machine, E.Outbound(stream, payload), now);
      SentShape(m, id, n, result);
    }
  }

  lemma SendSettles(m: Table, c: Crypto, e: Timed, sid: nat, l: Ledger, frames: seq<Frame>)
    requires e.input.Send? && sid in m.peers && Inv(m.peers[sid].machine) && Headroom(m.peers[sid].machine)
    requires Settled(m.peers[sid].machine, l, frames)
    ensures var t, more := Sessions.Next(m, c, e), Entered(m, c, e, sid);
            sid in t.peers ==> Settled(t.peers[sid].machine, Ledger(l.handed + more.handed, l.sent + more.sent), frames)
  {
    var machine := m.peers[sid].machine;
    SendMoves(m, e.input.sid, e.input.stream, e.input.payload, e.now);
    if e.input.sid == sid {
      OwnEventSettles(machine, E.Outbound(e.input.stream, e.input.payload), e.now, l, frames);
    } else {
      SameSettles(machine, l, frames);
    }
  }

  lemma ClockSettles(m: Table, c: Crypto, e: Timed, sid: nat, l: Ledger, frames: seq<Frame>)
    requires e.input.Clock? && sid in m.peers && Inv(m.peers[sid].machine) && Headroom(m.peers[sid].machine)
    requires Settled(m.peers[sid].machine, l, frames)
    ensures var t, more := Sessions.Next(m, c, e), Entered(m, c, e, sid);
            sid in t.peers ==> Settled(t.peers[sid].machine, Ledger(l.handed + more.handed, l.sent + more.sent), frames)
  {
    ClockTicks(m, e.now, e.wall, e.choice, sid);
    OwnEventSettles(m.peers[sid].machine, E.Tick, e.now, l, frames);
  }

  /** A step that is no datagram of the session's own and does not open it. */
  lemma OtherSettles(m: Table, c: Crypto, e: Timed, sid: nat, l: Ledger, frames: seq<Frame>)
    requires sid in m.peers && Inv(m.peers[sid].machine) && Headroom(m.peers[sid].machine)
    requires Settled(m.peers[sid].machine, l, frames) && !Opens(m, c, e, sid)
    requires e.input.Packet? ==> SessionTracking.Route(m, c, e.input.from, e.input.packet, e.now, e.choice) != Some(sid)
    ensures var t, more := Sessions.Next(m, c, e), Entered(m, c, e, sid);
            sid in t.peers ==> Settled(t.peers[sid].machine, Ledger(l.handed + more.handed, l.sent + more.sent), frames)
  {
    SameSettles(m.peers[sid].machine, l, frames);
    if e.input.Send? {
      SendSettles(m, c, e, sid, l, frames);
    } else if e.input.Clock? {
      ClockSettles(m, c, e, sid, l, frames);
    }
  }

  lemma OnlyPacketsOpen(m: Table, c: Crypto, e: Timed, sid: nat)
    requires sid !in m.peers && sid in Sessions.Next(m, c, e).peers
    ensures Opens(m, c, e, sid)
  {
    match e.input
    case Packet(from, packet, window) =>
    case Clock => ClockTicks(m, e.now, e.wall, e.choice, sid);
    case Send(id, stream, payload) => SendMoves(m, id, stream, payload, e.now);
    case Drop(id) => DropAdmitsNone(m, id);
    case Limit(key, limit) =>
    case Rekey(keys) =>
  }

  lemma DropAdmitsNone(m: Table, id: nat)
    ensures DropSession(m, id).peers.Keys <= m.peers.Keys
  {
  }

  lemma OpenedSettles(m: Table, c: Crypto, e: Timed, sid: nat, frames: seq<Frame>)
    requires Opens(m, c, e, sid)
    ensures Settled(Sessions.Next(m, c, e).peers[sid].machine, Ledger([], []), frames)
  {
    ElsewhereBears(m, c, e.input.from, e.input.packet, e.now, e.wall, e.input.window, e.choice, sid);
    NewbornSettled(Sessions.Next(m, c, e).peers[sid].machine, e.now, frames);
  }

  lemma RoomyFront(s: Table, c: Crypto, es: seq<Timed>, t: Table)
    requires RoomyRun(s, c, es, t)
    ensures t == TableAfter(s, c, es)
    ensures es != [] ==> var m := TableAfter(s, c, es[..|es| - 1]); RoomyRun(s, c, es[..|es| - 1], m) && AllRoomy(m.peers)
  {
    if es != [] {
      var e := es[|es| - 1];
      var m :| RoomyRun(s, c, es[..|es| - 1], m) && AllRoomy(m.peers) && Fair(m, e.wall, e.choice)
               && t == Sessions.Next(m, c, e);
      RoomyFront(s, c, es[..|es| - 1], m);
    }
  }

  /**
   In every reachable table: while what opens at a session is its client's frames, the
   payloads returned for it since it was opened are exactly those of the frames its
   machine has released, and its own Data frames are exactly what was accepted to send.
   */
  lemma {:induction false} AccountsSettle(keys: map<Key, Option<nat>>, start: int, c: Crypto, es: seq<Timed>, t: Table, sid: nat,
                                          frames: seq<Frame>)
    requires c.Valid() && RoomyRun(New(keys, start), c, es, t) && sid in t.peers && Hears(New(keys, start), c, es, sid, frames)
    ensures Settled(t.peers[sid].machine, Account(New(keys, start), c, es, sid), frames)
  {
    var s := New(keys, start);
    RoomyFront(s, c, es, t);
    if es != [] {
      var front, e := es[..|es| - 1], es[|es| - 1];
      var m := TableAfter(s, c, front);
      if Opens(m, c, e, sid) {
        OpenedSettles(m, c, e, sid, frames);
      } else {
        if sid !in m.peers { OnlyPacketsOpen(m, c, e, sid); }
        MachinesStaySound(keys, start, c, front, m);
        AccountsSettle(keys, start, c, front, m, sid, frames);
        StepSettles(m, c, e, sid, Account(s, c, front, sid), frames);
      }
    }
  }

  lemma StepSettles(m: Table, c: Crypto, e: Timed, sid: nat, l: Ledger, frames: seq<Frame>)
    requires sid in m.peers && Inv(m.peers[sid].machine) && Headroom(m.peers[sid].machine)
    requires Settled(m.peers[sid].machine, l, frames) && !Opens(m, c, e, sid)
    requires e.input.Packet? && SessionTracking.Route(m, c, e.input.from, e.input.packet, e.now, e.choice) == Some(sid)
             ==> Genuine(m.peers[sid].machine, c.Unmask(e.input.packet, m.peers[sid].secret), frames)
    ensures var t, more := Sessions.Next(m, c, e), Entered(m, c, e, sid);
            sid in t.peers ==> Settled(t.peers[sid].machine, Ledger(l.handed + more.handed, l.sent + more.sent), frames)
  {
    if e.input.Packet? && SessionTracking.Route(m, c, e.input.from, e.input.packet, e.now, e.choice) == Some(sid) {
      PacketSettles(m, c, e, sid, l, frames);
    } else {
      OtherSettles(m, c, e, sid, l, frames);
    }
  }

  /**
   So the server hands on an increasing selection of what the client's application
   submitted, `DataPayloads(frames)`, and its first payloads when nothing was given up.
   */
  lemma ServerHandsOnWhatWasSent(keys: map<Key, Option<nat>>, start: int, c: Crypto, es: seq<Timed>, t: Table, sid: nat,
                                 frames: seq<Frame>)
    returns (at: seq<nat>)
    requires c.Valid() && RoomyRun(New(keys, start), c, es, t) && sid in t.peers && Hears(New(keys, start), c, es, sid, frames)
    ensures var handed := Account(New(keys, start), c, es, sid).handed;
            && Selects(handed, DataPayloads(frames), at)
            && (AllReleased(t.peers[sid].machine.fates) ==> handed <= DataPayloads(frames))
  {
    AccountsSettle(keys, start, c, es, t, sid, frames);
    var fates := t.peers[sid].machine.fates;
    at := SentSelects(frames, fates);
    if AllReleased(fates) {
      ReleasedIsPrefix(frames, fates);
      PrefixPayloads(frames, |fates|);
    }
  }
}
