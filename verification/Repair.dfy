/**
 Progress. A gap whose frame the sender still holds can always be closed in one
 exchange: a tick, the datagram it resends, the NACK that answers it, and the frame
 that answers the NACK. Frames that carry no data are not resent by a tick, and one
 that is lost while nothing else is under way stays lost.
 */
module Repair {
  import opened Basics
  import opened Wire
  import opened Congestion
  import opened Endpoint
  import opened EndpointInvariants
  import opened EndpointSteps
  import opened EndpointEvents
  import opened EndpointDelivery
  import opened TwoEndpoints
  import opened Retransmission
  import opened Answers
  import CongestionProofs

  // ---------- The exchange ----------

  /** `x` makes the move `m` and becomes `x'`, as in a run. */
  ghost predicate Acts(x: Side, y: Side, m: Move, now: int, x': Side) {
    Allowed(x, y, m) && x' == Moved(x, m, now)
  }

  /** Nonces are far enough from 2^64 for the whole exchange. */
  ghost predicate Ample(s: Endpoint) {
    s.sendNonce + 8 <= U64_MAX && s.expected + 2 * s.cfg.maxReorder + 8 <= U64_MAX
  }

  /**
   `y` waits for a frame `x` still holds; the oldest frame `x` may resend carries data,
   is not worn out and has been silent for eight seconds; `y` may send a NACK, and `x`
   is not a whole window behind it.
   */
  ghost predicate Closable(x: Endpoint, y: Endpoint, i: nat, now: int) {
    && x.state == Established && y.state == Established && Ample(x) && Ample(y)
    && y.expected in Nonces(x.history)
    && Oldest(x.history, i) && y.expected <= x.history[i].nonce < |x.sealed| && x.sealed[x.history[i].nonce].kind == Data
    && x.history[i].retries <= Grace(x.cfg) && Since(now, x.history[i].lastSent) >= MAX_EFFECTIVE_RTO
    && (x.ackPending ==> |x.history| < x.cfg.maxSentHistory)
    && Since(now, y.lastNackSent) >= NackCooldown(y.cc)
    && y.sendNonce <= x.expected + x.cfg.maxReorder
  }

  lemma PairIsSymmetric(x: Side, y: Side)
    requires PairInv(x, y)
    ensures PairInv(y, x)
  {
  }

  /** `d` was put on the wire when `x` became `x'`. */
  ghost predicate Transmitted(x: Side, x': Side, d: Datagram) {
    exists k :: |x.wire| <= k < |x'.wire| && x'.wire[k].d == d
  }

  lemma NewOnWire(x: Side, x': Side, txs: seq<Tx>, d: Datagram)
    requires x'.wire == x.wire + txs && Sent(txs, d)
    ensures Transmitted(x, x', d)
  {
    var k :| 0 <= k < |txs| && txs[k].d == d;
    assert x'.wire[|x.wire| + k].d == d;
  }

  lemma TransmittedOnWire(x: Side, x': Side, d: Datagram)
    requires Transmitted(x, x', d) && d.Datagram?
    ensures OnWire(x'.wire, d.body)
  {
  }

  /** A frame `x` sealed reaches its peer as itself. */
  lemma SealedCarries(x: Endpoint, y: Endpoint, n: nat, f: Frame)
    requires Linked(x.cfg, y.cfg)
    ensures Carries(y, Seal(x.cfg, n, f), f)
  {
  }

  lemma LivesThroughTick(s: Endpoint, i: nat, n: nat, now: int)
    requires Ordered(s.history) && Oldest(s.history, i) && s.history[i].retries <= Grace(s.cfg)
    requires n in Nonces(s.history) && n <= s.history[i].nonce && (s.ackPending ==> |s.history| < s.cfg.maxSentHistory)
    ensures n in Nonces(HandleTick(s, now).0.history)
  {
    var j :| 0 <= j < |s.history| && s.history[j].nonce == n;
    assert j <= i;
    assert s.history[j] in s.history;
    TickHolds(s, s.history[j], now);
  }

  lemma TickWire(x: Side, i: nat, now: int)
    requires x.ep.state == Established && Oldest(x.ep.history, i) && x.ep.history[i].retries <= Grace(x.ep.cfg)
    requires Since(now, x.ep.history[i].lastSent) >= MAX_EFFECTIVE_RTO
    requires x.ep.ackPending ==> |x.ep.history| < x.ep.cfg.maxSentHistory
    ensures Transmitted(x, Moved(x, Occurs(Tick), now), x.ep.history[i].bytes)
  {
    TickSendsOldest(x.ep, i, now);
    NewOnWire(x, Moved(x, Occurs(Tick), now), Sends(HandleTick(x.ep, now).1.action, now), x.ep.history[i].bytes);
  }

  lemma TickMoved(x: Side, now: int)
    requires x.ep.state == Established
    ensures Moved(x, Occurs(Tick), now).ep == HandleTick(x.ep, now).0
  {
  }

  /** First: `x` ticks, and its oldest frame goes out again. */
  lemma TickMove(x: Side, y: Side, i: nat, now: int) returns (x1: Side)
    requires PairInv(x, y) && Closable(x.ep, y.ep, i, now)
    ensures Acts(x, y, Occurs(Tick), now, x1) && PairInv(x1, y)
    ensures Transmitted(x, x1, x.ep.history[i].bytes)
    ensures x1.ep.state == Established && x1.ep.cfg == x.ep.cfg && x1.ep.expected == x.ep.expected && Headroom(x1.ep)
    ensures x.ep.sealed <= x1.ep.sealed && y.ep.expected in Nonces(x1.ep.history) && x1.ep.reorder == x.ep.reorder
  {
    x1 := Moved(x, Occurs(Tick), now);
    MoveKeepsPair(x, y, Occurs(Tick), now);
    MoveGrows(x, y, Occurs(Tick), now);
    TickWire(x, i, now);
    TickMoved(x, now);
    TickKeepsPlace(x.ep, now);
    LivesThroughTick(x.ep, i, y.ep.expected, now);
  }

  /** Then `y` takes it: the gap closes, or the request for the missing frame goes out. */
  lemma DataMove(y: Side, x1: Side, m: nat, now: int) returns (y1: Side, d: Datagram)
    requires PairInv(y, x1) && y.ep.state == Established && Headroom(y.ep) && m < |x1.ep.sealed|
    requires x1.ep.sealed[m].kind == Data && m >= y.ep.expected && Since(now, y.ep.lastNackSent) >= NackCooldown(y.ep.cc)
    requires OnWire(x1.wire, Seal(x1.ep.cfg, m, x1.ep.sealed[m]).body)
    ensures d == Seal(x1.ep.cfg, m, x1.ep.sealed[m]) && Acts(y, x1, Occurs(Inbound(d)), now, y1) && PairInv(y1, x1)
    ensures y1.ep.expected > y.ep.expected
            || (y1.ep.expected == y.ep.expected && y1.ep.state == Established && y1.ep.cfg == y.ep.cfg
                && y1.ep.sendNonce <= y.ep.sendNonce + 2 && Transmitted(y, y1, Request(y.ep)))
  {
    d := Seal(x1.ep.cfg, m, x1.ep.sealed[m]);
    var e := Inbound(d);
    SealedCarries(x1.ep, y.ep, m, x1.ep.sealed[m]);
    BeyondAnswered(y.ep, d, x1.ep.sealed[m], now);
    y1 := Moved(y, Occurs(e), now);
    MoveKeepsPair(y, x1, Occurs(e), now);
    MoveGrows(y, x1, Occurs(e), now);
    var (t, out) := OnEvent(y.ep, e, now);
    if Asked(y.ep, t, out, now) { NewOnWire(y, y1, Sends(out.action, now), Request(y.ep)); }
  }

  /** Then `x` answers the request with the frame it names. */
  lemma NackMove(x1: Side, y1: Side, y: Endpoint, now: int) returns (x2: Side)
    requires PairInv(x1, y1) && x1.ep.state == Established && Headroom(x1.ep) && y.cfg == y1.ep.cfg
    requires OnWire(y1.wire, Request(y).body) && Mirrors(x1.ep, y.sealed) && |y.sealed| == y.sendNonce < U64_MAX
    requires y.sendNonce <= x1.ep.expected + x1.ep.cfg.maxReorder
    requires y.expected in Nonces(x1.ep.history) && y.expected <= U64_MAX && y.expected < |x1.ep.sealed|
    ensures Acts(x1, y1, Occurs(Inbound(Request(y))), now, x2) && PairInv(x2, y1)
    ensures Transmitted(x1, x2, Seal(x1.ep.cfg, y.expected, x1.ep.sealed[y.expected]))
  {
    var d, e := Request(y), Inbound(Request(y));
    x2 := Moved(x1, Occurs(e), now);
    MoveKeepsPair(x1, y1, Occurs(e), now);
    RequestAnswered(x1.ep, y, now);
    var (t, out) := OnEvent(x1.ep, e, now);
    NewOnWire(x1, x2, Sends(out.action, now), Seal(x1.ep.cfg, y.expected, x1.ep.sealed[y.expected]));
  }

  lemma RequestAnswered(s: Endpoint, y: Endpoint, now: int)
    requires Inv(s) && Headroom(s) && s.state == Established && Linked(y.cfg, s.cfg)
    requires Mirrors(s, y.sealed) && |y.sealed| == y.sendNonce < U64_MAX && y.sendNonce <= s.expected + s.cfg.maxReorder
    requires y.expected in Nonces(s.history) && y.expected <= U64_MAX && y.expected < |s.sealed|
    ensures var out := OnEvent(s, Inbound(Request(y)), now).1;
            out.Ok? && Sent(Sends(out.action, now), Seal(s.cfg, y.expected, s.sealed[y.expected]))
  {
    var (r, recovered) := RecoverStalledGap(s, now);
    RecoverStep(s, now);
    RecoveredWithin(s, now);
    RecoverDelivers(s, now, y.sealed);
    SealedCarries(y, r, y.sendNonce, NackFrame(y.expected));
    NackFrameAnswered(r, Request(y), y.expected, now);
    var out := HandleFrame(r, Request(y), now).1;
    SpliceMeaning(recovered, out.action, now);
    SentConcat(AllSends(recovered, now), Sends(out.action, now), Seal(s.cfg, y.expected, s.sealed[y.expected]));
  }

  /** Last, `y` takes the missing frame. */
  lemma LastMove(y1: Side, x2: Side, now: int) returns (y2: Side)
    requires PairInv(y1, x2) && y1.ep.state == Established && Headroom(y1.ep) && y1.ep.expected < |x2.ep.sealed|
    requires OnWire(x2.wire, Seal(x2.ep.cfg, y1.ep.expected, x2.ep.sealed[y1.ep.expected]).body)
    ensures Acts(y1, x2, Occurs(Inbound(Seal(x2.ep.cfg, y1.ep.expected, x2.ep.sealed[y1.ep.expected]))), now, y2)
    ensures y2.ep.expected > y1.ep.expected
  {
    var n := y1.ep.expected;
    var f := x2.ep.sealed[n];
    y2 := Moved(y1, Occurs(Inbound(Seal(x2.ep.cfg, n, f))), now);
    SealedCarries(x2.ep, y1.ep, n, f);
    if f.kind == Ack { assert TrueAck(x2.ep, f.payload); }
    ExpectedAdvances(y1.ep, Seal(x2.ep.cfg, n, f), f, now);
  }

  /** `y` is still where it was, and `x`, which holds the missing frame, can be asked for it. */
  ghost predicate Askable(x1: Side, y1: Side, y: Endpoint) {
    && PairInv(x1, y1) && x1.ep.state == Established && Headroom(x1.ep) && y.cfg == y1.ep.cfg
    && OnWire(y1.wire, Request(y).body) && Mirrors(x1.ep, y.sealed) && |y.sealed| == y.sendNonce < U64_MAX
    && y.sendNonce <= x1.ep.expected + x1.ep.cfg.maxReorder
    && y.expected in Nonces(x1.ep.history) && y.expected <= U64_MAX && y.expected < |x1.ep.sealed|
    && y1.ep.state == Established && Headroom(y1.ep) && y1.ep.expected == y.expected
  }

  /** The first half: a tick, and the arrival of what it transmitted. */
  ghost predicate FirstHalf(x: Side, y: Side, now: int, x1: Side, resent: Datagram, y1: Side) {
    && Acts(x, y, Occurs(Tick), now, x1) && Transmitted(x, x1, resent)
    && Acts(y, x1, Occurs(Inbound(resent)), now, y1)
  }

  /** The frame that answers a request for nonce `n`. */
  function Answer(x: Endpoint, n: nat): Datagram
    requires n < |x.sealed|
  {
    Seal(x.cfg, n, x.sealed[n])
  }

  /** The second half: the request that arrival provoked, and the answer the request provokes. */
  ghost predicate SecondHalf(x1: Side, y: Side, y1: Side, now: int, x2: Side, y2: Side) {
    && Transmitted(y, y1, Request(y.ep)) && Acts(x1, y1, Occurs(Inbound(Request(y.ep))), now, x2)
    && y.ep.expected < |x2.ep.sealed|
    && Transmitted(x1, x2, Answer(x2.ep, y.ep.expected))
    && Acts(y1, x2, Occurs(Inbound(Answer(x2.ep, y.ep.expected))), now, y2)
  }

  lemma NowAskable(x: Side, y: Side, x1: Side, y1: Side, i: nat, now: int)
    requires PairInv(x, y) && Closable(x.ep, y.ep, i, now) && PairInv(x1, y1)
    requires x1.ep.state == Established && x1.ep.cfg == x.ep.cfg && x1.ep.expected == x.ep.expected && Headroom(x1.ep)
    requires x.ep.sealed <= x1.ep.sealed && y.ep.expected in Nonces(x1.ep.history) && x1.ep.reorder == x.ep.reorder
    requires y1.ep.expected == y.ep.expected && y1.ep.state == Established && y1.ep.cfg == y.ep.cfg
    requires y1.ep.sendNonce <= y.ep.sendNonce + 2 && Transmitted(y, y1, Request(y.ep))
    ensures Askable(x1, y1, y.ep)
  {
    TransmittedOnWire(y, y1, Request(y.ep));
  }

  lemma HalfWay(x: Side, y: Side, i: nat, now: int) returns (x1: Side, resent: Datagram, y1: Side)
    requires PairInv(x, y) && Closable(x.ep, y.ep, i, now)
    ensures FirstHalf(x, y, now, x1, resent, y1) && resent == x.ep.history[i].bytes
    ensures y1.ep.expected > y.ep.expected || (Transmitted(y, y1, Request(y.ep)) && Askable(x1, y1, y.ep))
  {
    x1 := TickMove(x, y, i, now);
    var n := x.ep.history[i].nonce;
    resent := x.ep.history[i].bytes;
    TransmittedOnWire(x, x1, resent);
    PairIsSymmetric(x1, y);
    var d;
    y1, d := DataMove(y, x1, n, now);
    if y1.ep.expected <= y.ep.expected {
      PairIsSymmetric(y1, x1);
      NowAskable(x, y, x1, y1, i, now);
    }
  }

  lemma OtherHalf(x1: Side, y: Side, y1: Side, now: int) returns (x2: Side, y2: Side)
    requires Transmitted(y, y1, Request(y.ep)) && Askable(x1, y1, y.ep)
    ensures SecondHalf(x1, y, y1, now, x2, y2) && y2.ep.expected > y.ep.expected
  {
    x2 := NackMove(x1, y1, y.ep, now);
    PairIsSymmetric(x2, y1);
    MoveGrows(x1, y1, Occurs(Inbound(Request(y.ep))), now);
    assert x2.ep.sealed[y.ep.expected] == x1.ep.sealed[y.ep.expected];
    TransmittedOnWire(x1, x2, Answer(x2.ep, y.ep.expected));
    y2 := LastMove(y1, x2, now);
  }

  /** Two sides as a world, the sender first or second. */
  function Placed(first: bool, x: Side, y: Side, now: int): World {
    if first then World(x, y, now) else World(y, x, now)
  }

  lemma SenderMoves(first: bool, x: Side, y: Side, m: Move, now: int, x': Side, before: int)
    requires Acts(x, y, m, now, x') && before <= now
    ensures Next(Placed(first, x, y, before), Placed(first, x', y, now))
  {
    var w, w' := Placed(first, x, y, before), Placed(first, x', y, now);
    assert if first then AMoves(w, m, w') else BMoves(w, m, w');
  }

  lemma ReceiverMoves(first: bool, x: Side, y: Side, m: Move, now: int, y': Side, before: int)
    requires Acts(y, x, m, now, y') && before <= now
    ensures Next(Placed(first, x, y, before), Placed(first, x, y', now))
  {
    var w, w' := Placed(first, x, y, before), Placed(first, x, y', now);
    assert if first then BMoves(w, m, w') else AMoves(w, m, w');
  }

  lemma RunGoesOn(run: seq<World>, w: World)
    requires Run(run) && Next(run[|run| - 1], w)
    ensures Run(run + [w])
  {
    var longer := run + [w];
    forall i, j | 0 <= i < j < |longer| && j == i + 1
      ensures Next(longer[i], longer[j])
    {
      if j < |run| { assert Next(run[i], run[j]); }
    }
  }

  /** The sender moves, and then the receiver. */
  function Sender(first: bool, w: World): Side { if first then w.a else w.b }
  function Receiver(first: bool, w: World): Side { if first then w.b else w.a }

  /** One half closes the gap, or both do. */
  ghost predicate Exchange(x: Side, y: Side, now: int, x1: Side, resent: Datagram, y1: Side, x2: Side, y2: Side) {
    && FirstHalf(x, y, now, x1, resent, y1)
    && (y1.ep.expected > y.ep.expected || (SecondHalf(x1, y, y1, now, x2, y2) && y2.ep.expected > y.ep.expected))
  }

  lemma PairCloses(x: Side, y: Side, i: nat, now: int)
    returns (x1: Side, resent: Datagram, y1: Side, x2: Side, y2: Side)
    requires PairInv(x, y) && Closable(x.ep, y.ep, i, now)
    ensures Exchange(x, y, now, x1, resent, y1, x2, y2) && resent == x.ep.history[i].bytes
  {
    x1, resent, y1 := HalfWay(x, y, i, now);
    x2, y2 := x1, y1;
    if y1.ep.expected <= y.ep.expected { x2, y2 := OtherHalf(x1, y, y1, now); }
  }

  /**
   No gap is stuck whose frame is still held: in whatever state a run has reached one,
   in either direction, a tick, the arrival of the frame it resends, and, if that does
   not close the gap, the arrival of the request this provokes and of the answer to the
   request, close it. Each datagram that arrives was transmitted by the move before,
   so this holds even when everything transmitted earlier is lost, and even when the
   missing frame is one that no timer resends.
   */
  lemma GapCloses(run: seq<World>, first: bool, i: nat, now: int)
    returns (x1: Side, resent: Datagram, y1: Side, x2: Side, y2: Side)
    requires Run(run)
    requires var w := run[|run| - 1]; Closable(Sender(first, w).ep, Receiver(first, w).ep, i, now)
    ensures var x, y := Sender(first, run[|run| - 1]), Receiver(first, run[|run| - 1]);
            Exchange(x, y, now, x1, resent, y1, x2, y2) && resent == x.ep.history[i].bytes
  {
    var w := run[|run| - 1];
    RunKeeps(run, |run| - 1);
    PairIsSymmetric(w.a, w.b);
    x1, resent, y1, x2, y2 := PairCloses(Sender(first, w), Receiver(first, w), i, now);
  }

  /** The moves of an exchange are moves of a run. */
  lemma ActsGoOn(run: seq<World>, first: bool, senderActs: bool, m: Move, now: int, z: Side) returns (w: World)
    requires Run(run) && run[|run| - 1].now <= now
    requires var x, y := Sender(first, run[|run| - 1]), Receiver(first, run[|run| - 1]);
             if senderActs then Acts(x, y, m, now, z) else Acts(y, x, m, now, z)
    ensures Run(run + [w]) && w.now == now
    ensures Sender(first, w) == if senderActs then z else Sender(first, run[|run| - 1])
    ensures Receiver(first, w) == if senderActs then Receiver(first, run[|run| - 1]) else z
  {
    var v := run[|run| - 1];
    var x, y := Sender(first, v), Receiver(first, v);
    w := if senderActs then Placed(first, z, y, now) else Placed(first, x, z, now);
    assert v == Placed(first, x, y, v.now);
    if senderActs { SenderMoves(first, x, y, m, now, z, v.now); } else { ReceiverMoves(first, x, y, m, now, z, v.now); }
    RunGoesOn(run, w);
  }

  // ---------- What nothing repairs ----------

  /** A frame a tick may still resend, or an ACK with something to say. */
  ghost predicate Owes(s: Endpoint) {
    (exists i :: 0 <= i < |s.history| && s.history[i].isRetransmittable && s.history[i].retries <= Grace(s.cfg))
    || (s.ackPending && BuildAckPayload(s) != [])
  }

  lemma {:induction false} NoneResent(h: seq<SentFrame>, n: nat, budget: nat, base: nat, now: int)
    requires n <= |h| && Drained(h)
    ensures ResendActions(h, n, budget, base, now) == []
  {
    if n > 0 { NoneResent(h, n - 1, budget, base, now); }
  }

  lemma NoneChanged(h: seq<SentFrame>, budget: nat, base: nat, now: int)
    requires Drained(h)
    ensures AfterResend(h, budget, base, now) == h
  {
    forall i | 0 <= i < |h|
      ensures !Chosen(h, i, budget, base, now)
    {
    }
  }

  lemma {:induction false} OnlyWornLeave(h: seq<SentFrame>, grace: nat)
    requires forall i :: 0 <= i < |h| && h[i].isRetransmittable ==> h[i].retries > grace
    ensures Drained(Where(h, Living(grace)))
  {
    if h != [] { OnlyWornLeave(h[..|h| - 1], grace); }
  }

  /** The tick's own ACK, when there is nothing to say. */
  lemma NothingToAck(s: Endpoint, now: int)
    requires !(s.ackPending && BuildAckPayload(s) != [])
    ensures var (a, ack) := BuildAckIfDue(s, now); ack == None && (a == s || a == s.(ackPending := false))
  {
  }

  /** A tick that owes nothing sends nothing and leaves nothing owed. */
  lemma OwingNothing(s: Endpoint, now: int)
    requires !Owes(s)
    ensures var (t, out) := HandleTick(s, now);
            out == Ok(Noop) && !Owes(t) && t.sealed == s.sealed && t.expected == s.expected && t.reorder == s.reorder
  {
    NothingToAck(s, now);
    var a := BuildAckIfDue(s, now).0;
    OnlyWornLeave(a.history, Grace(a.cfg));
    var h := EvictZombies(a).history;
    NoneResent(h, |h|, a.cc.RetransmitBudget(), BaseRtoMs(a), now);
    NoneChanged(h, a.cc.RetransmitBudget(), BaseRtoMs(a), now);
  }

  lemma AckSpeaks(s: Endpoint, now: int)
    requires s.ackPending && BuildAckPayload(s) != [] && Since(now, s.lastAckSent) >= s.cfg.ackDelay
    ensures HandleTick(s, now).1 != Ok(Noop)
  {
  }

  lemma {:induction false} SomeOldest(h: seq<SentFrame>, i: nat) returns (k: nat)
    requires i < |h| && h[i].isRetransmittable
    ensures Oldest(h, k) && k <= i
  {
    if j :| 0 <= j < i && h[j].isRetransmittable {
      k := SomeOldest(h, j);
    } else {
      k := i;
    }
  }

  lemma SomeResent(h: seq<SentFrame>, i: nat, budget: nat, base: nat, now: int)
    requires i < |h| && h[i].isRetransmittable && AllSilent(h, now) && budget >= 1
    ensures AllSends(ResendActions(h, |h|, budget, base, now), now) != []
  {
    var k := SomeOldest(h, i);
    NoneDue(h, k, base, now);
    ChosenIsSent(h, |h|, k, budget, base, now);
  }

  lemma FrameSpeaks(s: Endpoint, i: nat, now: int)
    requires i < |s.history| && s.history[i].isRetransmittable && s.history[i].retries <= Grace(s.cfg)
    requires !(s.ackPending && BuildAckPayload(s) != []) && AllSilent(s.history, now)
    ensures HandleTick(s, now).1 != Ok(Noop)
  {
    NothingToAck(s, now);
    var a := BuildAckIfDue(s, now).0;
    var f := s.history[i];
    WhereHolds(a.history, Living(Grace(a.cfg)), f);
    var h := EvictZombies(a).history;
    var k :| 0 <= k < |h| && h[k] == f;
    StillSilent(a.history, Living(Grace(a.cfg)), now);
    CongestionProofs.BudgetBounded(a.cc);
    SomeResent(h, k, a.cc.RetransmitBudget(), BaseRtoMs(a), now);
    ResendsShow(Retransmit(a, now).1, now);
  }

  lemma ResendsShow(resends: seq<Action>, now: int)
    requires AllSends(resends, now) != []
    ensures Collate(OptionalSend(None) + resends) != Noop
  {
    assert OptionalSend(None) + resends == resends;
    CollateMeaning(resends, now);
  }

  lemma StillSilent(h: seq<SentFrame>, p: SentFrame -> bool, now: int)
    requires AllSilent(h, now)
    ensures AllSilent(Where(h, p), now)
  {
    forall i | 0 <= i < |Where(h, p)|
      ensures Where(h, p)[i] in h
    {
      WhereMember(h, p, i);
    }
  }

  lemma OwingSpeaks(s: Endpoint) returns (now: int)
    requires Owes(s)
    ensures HandleTick(s, now).1 != Ok(Noop)
  {
    now := Max(LatestSend(s.history), s.lastAckSent + s.cfg.ackDelay) + MAX_EFFECTIVE_RTO;
    if s.ackPending && BuildAckPayload(s) != [] {
      AckSpeaks(s, now);
    } else {
      var i :| 0 <= i < |s.history| && s.history[i].isRetransmittable && s.history[i].retries <= Grace(s.cfg);
      FrameSpeaks(s, i, now);
    }
  }

  /** An endpoint's ticks will send something sooner or later if and only if it owes something. */
  lemma SpeaksIff(s: Endpoint)
    ensures (exists now :: HandleTick(s, now).1 != Ok(Noop)) <==> Owes(s)
  {
    if Owes(s) {
      var now := OwingSpeaks(s);
    } else {
      forall now
        ensures HandleTick(s, now).1 == Ok(Noop)
      {
        OwingNothing(s, now);
      }
    }
  }

  lemma {:induction false} OwesNothingLater(s: Endpoint, times: seq<int>)
    requires !Owes(s)
    ensures var t := AfterTicks(s, times); !Owes(t) && t.sealed == s.sealed && t.expected == s.expected
    decreases |times|
  {
    if times != [] {
      OwingNothing(s, times[0]);
      OwesNothingLater(HandleTick(s, times[0]).0, times[1..]);
    }
  }

  /** Every tick from now on sends nothing. */
  ghost predicate ForEverSilent(s: Endpoint) {
    forall times, now :: HandleTick(AfterTicks(s, times), now).1 == Ok(Noop)
  }

  /** And all its ticks for ever send nothing if and only if it owes nothing now. */
  lemma SilentIffNothingOwed(s: Endpoint)
    ensures ForEverSilent(s) <==> !Owes(s)
  {
    if Owes(s) {
      var now := OwingSpeaks(s);
      assert AfterTicks(s, []) == s;
      assert HandleTick(AfterTicks(s, []), now).1 != Ok(Noop);
    } else {
      forall times, now
        ensures HandleTick(AfterTicks(s, times), now).1 == Ok(Noop)
      {
        OwesNothingLater(s, times);
        OwingNothing(AfterTicks(s, times), now);
      }
    }
  }

  /** A datagram too far ahead, which need not be authentic. */
  function FarAhead(cfg: Config): Datagram {
    Datagram(cfg.sid, cfg.maxReorder + 1, Garbage(0))
  }

  lemma ForgeryIsAnswered(cfg: Config, mtu: Mtu, now: int)
    requires cfg.Valid()
    ensures var s := OnEvent(Start(cfg, mtu, now), Inbound(FarAhead(cfg)), now).0;
            s.sendNonce == 1 && 0 in Nonces(s.history) && !Owes(s)
  {
    var s := OnEvent(Start(cfg, mtu, now), Inbound(FarAhead(cfg)), now).0;
    assert s.history[0].nonce == 0;
  }

  /**
   A frame that carries no data is resent only on request. One forged datagram makes
   an endpoint spend a nonce on a NACK; if that is lost its peer waits for it while
   every tick of both sides sends nothing, although the sender still holds it.
   */
  lemma LostControlFrameStays(w: World) returns (w1: World)
    requires Init(w) && Headroom(w.a.ep)
    ensures Next(w, w1) && 0 in Nonces(w1.a.ep.history) && !Received(w1.b.ep, 0)
    ensures ForEverSilent(w1.a.ep) && ForEverSilent(w1.b.ep)
    ensures forall times :: AfterTicks(w1.b.ep, times).expected == 0
  {
    var ca: Config, cb: Config, mtuA: Mtu, mtuB: Mtu :|
      && ca.Valid() && cb.Valid() && Linked(ca, cb)
      && w.a == Side(Start(ca, mtuA, w.now), [], [], []) && w.b == Side(Start(cb, mtuB, w.now), [], [], []);
    var m := Occurs(Inbound(FarAhead(ca)));
    w1 := World(Moved(w.a, m, w.now), w.b, w.now);
    assert AMoves(w, m, w1);
    ForgeryIsAnswered(ca, mtuA, w.now);
    SilentIffNothingOwed(w1.a.ep);
    SilentIffNothingOwed(w1.b.ep);
    forall times
      ensures AfterTicks(w1.b.ep, times).expected == 0
    {
      OwesNothingLater(w1.b.ep, times);
    }
  }
}
