/**
 The endpoint as a value: the state of a `ProtocolMachine` once its handshake is
 complete, and what each event does to it.

 Four audit fields record history and are never read by an operation: the frames
 sealed so far (indexed by nonce), the nonces evicted from the send history, the
 nonces dropped because the peer acknowledged them, and what became of every
 nonce the receive sequence has moved past.
 */
module Endpoint {
  import opened Basics
  import opened Wire
  import opened Congestion

  const MAX_EFFECTIVE_RTO: nat := 8 * SECOND
  const GAP_RECOVERY_RTO_MULTIPLIER: nat := 8
  const GAP_RECOVERY_MIN: nat := 2 * SECOND
  const GAP_RECOVERY_MAX: nat := 10 * SECOND
  const PATH_CHANGE_AGE: nat := 3600 * SECOND
  const EVICTED_LOSS_BYTES: nat := 1200

  datatype ProtocolError = State | Crypto | Framing

  datatype Action =
    | SendDatagram(datagram: Datagram)
    | DeliverApp(stream: nat, payload: Bytes)
    | Multiple(list: seq<Action>)
    | Noop

  datatype Outcome = Ok(action: Action) | Err(error: ProtocolError)

  datatype OstpState = Established | Closing | Closed

  datatype Event =
    | Inbound(datagram: Datagram)
    | Outbound(stream: nat, payload: Bytes)
    | Shutdown
    | Tick

  /** One byte in the program; it saturates. */
  type RetryCount = n: nat | n <= U8_MAX

  datatype SentFrame = SentFrame(nonce: nat, bytes: Datagram, lastSent: int, retries: RetryCount, isRetransmittable: bool)

  /** What became of a nonce the receive sequence moved past. */
  datatype Fate =
    | Released // handed over in order
    | Skipped  // given up by gap recovery
    | Dropped  // released by recovery in a call that then failed

  /** Limits after construction has raised each to at least one, and the padding drawn for each nonce. */
  datatype Config = Config(
    sid: nat, sendKey: nat, recvKey: nat,
    maxReorder: nat, maxReorderBuffer: nat, ackDelay: nat, rto: nat, maxRetries: nat, maxSentHistory: nat,
    padding: nat -> nat)
  {
    ghost predicate Valid() {
      && sendKey != recvKey
      && maxReorder >= 1 && maxReorderBuffer >= 1 && ackDelay >= MILLISECOND && rto >= MILLISECOND
      && 1 <= maxRetries <= U8_MAX && maxSentHistory >= 1
    }
  }

  datatype Endpoint = Endpoint(
    cfg: Config,
    state: OstpState,
    sendNonce: nat,
    expected: nat,
    reorder: map<nat, Action>,
    history: seq<SentFrame>,
    ackPending: bool,
    lastAckSent: int,
    lastNackSent: int,
    lastRecvAdvance: int,
    highestAuthenticated: Option<nat>,
    authenticatedCount: nat,
    cc: Controller,
    // audit
    sealed: seq<Frame>,
    evicted: set<nat>,
    acked: set<nat>,
    fates: seq<Fate>)

  // ---------- Sequences of actions ----------

  function Collate(actions: seq<Action>): Action {
    if actions == [] then Noop else if |actions| == 1 then actions[0] else Multiple(actions)
  }

  function OptionalSend(d: Option<Datagram>): seq<Action> {
    if d.Some? then [SendDatagram(d.value)] else []
  }

  // ---------- Sorted keys of the reorder buffer ----------

  predicate IsLeast(x: nat, s: set<nat>) {
    x in s && forall y :: y in s ==> x <= y
  }

  lemma LeastExists(s: set<nat>)
    requires s != {}
    ensures exists x :: IsLeast(x, s)
  {
    var y :| y in s;
    var rest := s - {y};
    assert s == rest + {y};
    if rest != {} {
      LeastExists(rest);
      var x :| IsLeast(x, rest);
      assert IsLeast(if x < y then x else y, s);
    } else {
      assert IsLeast(y, s);
    }
  }

  function Least(s: set<nat>): (x: nat)
    requires s != {}
    ensures IsLeast(x, s)
  {
    LeastExists(s);
    var x :| IsLeast(x, s);
    x
  }

  function Sorted(s: set<nat>): (keys: seq<nat>)
    ensures Ascending(keys)
    ensures forall x :: x in keys <==> x in s
    ensures |keys| == |s|
  {
    if s == {} then []
    else
      var x := Least(s);
      var rest := Sorted(s - {x});
      assert forall i :: 0 <= i < |rest| ==> rest[i] in s - {x};
      [x] + rest
  }

  // ---------- Sealing and the send history ----------

  /** The datagram that carries `f` under nonce `n`. */
  function Seal(cfg: Config, n: nat, f: Frame): Datagram {
    Datagram(cfg.sid, n, Sealed(cfg.sendKey, n, cfg.sid, f, cfg.padding(n)))
  }

  function Nonces(h: seq<SentFrame>): set<nat> {
    set i | 0 <= i < |h| :: h[i].nonce
  }

  /** How many of the oldest frames exceed the cap. */
  function Overflow(h: seq<SentFrame>, cap: nat): (k: nat)
    ensures k <= |h|
  {
    if |h| > cap then |h| - cap else 0
  }

  function PushSentFrame(s: Endpoint, f: SentFrame, now: int): Endpoint {
    var h := s.history + [f];
    var k := Overflow(h, s.cfg.maxSentHistory);
    s.(cc := if f.isRetransmittable then s.cc.OnSend(f.bytes.Size(), now) else s.cc,
       history := h[k..],
       evicted := s.evicted + Nonces(h[..k]))
  }

  function Build(s: Endpoint, f: Frame, tracked: bool, now: int): (Endpoint, Datagram) {
    var d := Seal(s.cfg, s.sendNonce, f);
    (PushSentFrame(s.(sendNonce := s.sendNonce + 1, sealed := s.sealed + [f]),
                   SentFrame(s.sendNonce, d, now, 0, tracked), now), d)
  }

  // ---------- Acknowledgements ----------

  function BuildAckPayload(s: Endpoint): Bytes {
    AckPayload(s.expected, Sorted(s.reorder.Keys))
  }

  function ForceBuildAck(s: Endpoint, now: int): (Endpoint, Option<Datagram>) {
    var payload := BuildAckPayload(s);
    if payload == [] then (s.(ackPending := false), None)
    else
      var (t, d) := Build(s, Frame(Ack, 0, payload), false, now);
      (t.(ackPending := false, lastAckSent := now), Some(d))
  }

  function BuildAckIfDue(s: Endpoint, now: int): (Endpoint, Option<Datagram>) {
    if !s.ackPending || Since(now, s.lastAckSent) < s.cfg.ackDelay then (s, None)
    else ForceBuildAck(s, now)
  }

  /** The frames of `h` that satisfy `p`, oldest first. */
  function Where(h: seq<SentFrame>, p: SentFrame -> bool): seq<SentFrame> {
    if h == [] then []
    else
      var f := h[|h| - 1];
      Where(h[..|h| - 1], p) + if p(f) then [f] else []
  }

  function Named(ranges: seq<Range>): SentFrame -> bool {
    (f: SentFrame) => InRanges(f.nonce, ranges)
  }

  function NotNamed(ranges: seq<Range>): SentFrame -> bool {
    (f: SentFrame) => !InRanges(f.nonce, ranges)
  }

  function TotalSize(h: seq<SentFrame>): nat {
    if h == [] then 0 else TotalSize(h[..|h| - 1]) + h[|h| - 1].bytes.Size()
  }

  /** The smallest sample among frames never retransmitted. */
  function RttSample(h: seq<SentFrame>, now: int): Option<nat> {
    if h == [] then None
    else
      var f := h[|h| - 1];
      var front := RttSample(h[..|h| - 1], now);
      if f.retries != 0 then front
      else Some(if front.Some? then Min(front.value, Since(now, f.lastSent)) else Since(now, f.lastSent))
  }

  function DropAckedFrames(s: Endpoint, ranges: seq<Range>, now: int): Endpoint {
    var covered := Where(s.history, Named(ranges));
    var bytes, sample := TotalSize(covered), RttSample(covered, now);
    s.(history := Where(s.history, NotNamed(ranges)),
       acked := s.acked + Nonces(covered),
       cc := if bytes == 0 then s.cc
             else if sample.Some? then s.cc.OnAck(bytes, sample.value, now)
             else s.cc.OnAckNoRtt(bytes, now))
  }

  // ---------- Retransmission ----------

  function SaturatingInc(retries: RetryCount): RetryCount { Min(retries + 1, U8_MAX) }

  /** The newest frame with this nonce. */
  function FindSent(h: seq<SentFrame>, nonce: nat): (i: Option<nat>)
    ensures i.Some? ==> i.value < |h| && h[i.value].nonce == nonce
    ensures i.None? ==> forall j :: 0 <= j < |h| ==> h[j].nonce != nonce
  {
    if h == [] then None
    else if h[|h| - 1].nonce == nonce then Some(|h| - 1)
    else FindSent(h[..|h| - 1], nonce)
  }

  function Resent(f: SentFrame, now: int): SentFrame {
    f.(lastSent := now, retries := SaturatingInc(f.retries))
  }

  function LookupSentFrame(s: Endpoint, nonce: nat, now: int): (Endpoint, Option<Datagram>) {
    match FindSent(s.history, nonce)
    case None => (s, None)
    case Some(i) => (s.(history := s.history[i := Resent(s.history[i], now)]), Some(s.history[i].bytes))
  }

  /** A NACK for a frame still held resends it at once; either way it counts as a loss. */
  function OnNack(s: Endpoint, payload: Bytes, now: int): (Endpoint, seq<Action>)
    requires |payload| >= 8
  {
    var (t, found) := LookupSentFrame(s, FromBe(payload[..8]), now);
    match found
    case Some(d) => (t.(cc := t.cc.OnLoss(d.Size(), now)), [SendDatagram(d)])
    case None => (t.(cc := t.cc.OnLoss(EVICTED_LOSS_BYTES, now)), [])
  }

  /** `n` doubled `times` times. */
  function Doubled(n: nat, times: nat): nat {
    if times == 0 then n else 2 * Doubled(n, times - 1)
  }

  function BaseMs(cc: Controller, cfg: Config): nat {
    Max(Max(cc.Rto(), cfg.rto) / MILLISECOND, 1)
  }

  function BaseRtoMs(s: Endpoint): nat { BaseMs(s.cc, s.cfg) }

  /** Doubled per retry up to 64 times, and never over eight seconds. */
  function EffectiveRto(baseMs: nat, retries: nat): nat {
    Min(Doubled(baseMs, Min(retries, 6)) * MILLISECOND, MAX_EFFECTIVE_RTO)
  }

  predicate Due(f: SentFrame, baseMs: nat, now: int) {
    f.isRetransmittable && Since(now, f.lastSent) >= EffectiveRto(baseMs, f.retries)
  }

  function DueCount(h: seq<SentFrame>, baseMs: nat, now: int): (k: nat)
    ensures k <= |h|
  {
    if h == [] then 0 else DueCount(h[..|h| - 1], baseMs, now) + if Due(h[|h| - 1], baseMs, now) then 1 else 0
  }

  /** Whether frame `i` is among the first `budget` due frames. */
  predicate Chosen(h: seq<SentFrame>, i: nat, budget: nat, baseMs: nat, now: int)
    requires i < |h|
  {
    Due(h[i], baseMs, now) && DueCount(h[..i], baseMs, now) < budget
  }

  function AfterResend(h: seq<SentFrame>, budget: nat, baseMs: nat, now: int): (r: seq<SentFrame>)
    ensures |r| == |h|
  {
    seq(|h|, i requires 0 <= i < |h| => if Chosen(h, i, budget, baseMs, now) then Resent(h[i], now) else h[i])
  }

  /** The chosen frames of the first `n`, in send order. */
  function ResendActions(h: seq<SentFrame>, n: nat, budget: nat, baseMs: nat, now: int): seq<Action>
    requires n <= |h|
  {
    if n == 0 then []
    else
      ResendActions(h, n - 1, budget, baseMs, now)
      + if Chosen(h, n - 1, budget, baseMs, now) then [SendDatagram(h[n - 1].bytes)] else []
  }

  function Grace(cfg: Config): nat { Min(cfg.maxRetries + 2, U8_MAX) }

  function Zombie(grace: nat): SentFrame -> bool {
    (f: SentFrame) => f.isRetransmittable && f.retries > grace
  }

  function Living(grace: nat): SentFrame -> bool {
    (f: SentFrame) => !f.isRetransmittable || f.retries <= grace
  }

  /** Retransmittable frames past their last retry are given up. */
  function EvictZombies(s: Endpoint): Endpoint {
    s.(history := Where(s.history, Living(Grace(s.cfg))),
       evicted := s.evicted + Nonces(Where(s.history, Zombie(Grace(s.cfg)))))
  }

  /** Zombies leave, then the first frames due go out again, as many as the budget allows. */
  function Retransmit(s: Endpoint, now: int): (Endpoint, seq<Action>) {
    var base, budget := BaseRtoMs(s), s.cc.RetransmitBudget();
    var m := EvictZombies(s);
    (m.(history := AfterResend(m.history, budget, base, now)), ResendActions(m.history, |m.history|, budget, base, now))
  }

  function HandleTick(s: Endpoint, now: int): (Endpoint, Outcome) {
    var (a, ack) := BuildAckIfDue(s, now);
    var (t, resends) := Retransmit(a, now);
    (t, Ok(Collate(OptionalSend(ack) + resends)))
  }

  // ---------- The receive sequence ----------

  function KeysFrom(m: map<nat, Action>, n: nat): set<nat> {
    set k | k in m && k >= n
  }

  /** Where a run of consecutive buffered nonces starting at `n` ends. */
  function DrainEnd(m: map<nat, Action>, n: nat): (e: nat)
    ensures n <= e && e !in m
    ensures forall k :: n <= k < e ==> k in m
    decreases |KeysFrom(m, n)|
  {
    if n in m then
      assert KeysFrom(m, n) == KeysFrom(m, n + 1) + {n};
      DrainEnd(m, n + 1)
    else n
  }

  function Between(m: map<nat, Action>, from: nat, end: nat): (acts: seq<Action>)
    requires from <= end && forall k :: from <= k < end ==> k in m
    ensures |acts| == end - from
  {
    seq(end - from, i requires 0 <= i < end - from => m[from + i])
  }

  function Without(m: map<nat, Action>, from: nat, end: nat): map<nat, Action> {
    map k | k in m && !(from <= k < end) :: m[k]
  }

  function Repeat(f: Fate, n: nat): (r: seq<Fate>)
    ensures |r| == n && forall i :: 0 <= i < n ==> r[i] == f
  {
    seq(n, _ => f)
  }

  /** Moves past `[expected, resume)`, then releases what is buffered from `resume` on. */
  function ReleaseFrom(s: Endpoint, resume: nat, now: int): (Endpoint, seq<Action>)
  {
    var e := DrainEnd(s.reorder, resume);
    (s.(expected := e,
        reorder := Without(s.reorder, resume, e),
        lastRecvAdvance := now,
        fates := s.fates + Repeat(Skipped, Monus(resume, s.expected)) + Repeat(Released, e - resume)),
     Between(s.reorder, resume, e))
  }

  function RecoveryTimeout(cc: Controller): nat {
    Clamp(cc.Rto() * GAP_RECOVERY_RTO_MULTIPLIER, GAP_RECOVERY_MIN, GAP_RECOVERY_MAX)
  }

  predicate Stalled(s: Endpoint, now: int) {
    s.reorder != map[] && Since(now, s.lastRecvAdvance) >= RecoveryTimeout(s.cc)
  }

  function RecoverStalledGap(s: Endpoint, now: int): (Endpoint, seq<Action>) {
    if !Stalled(s, now) then (s, [])
    else
      assert s.reorder.Keys != {};
      var (t, acts) := ReleaseFrom(s, Least(s.reorder.Keys), now);
      (t.(ackPending := true), acts)
  }

  // ---------- Inbound datagrams ----------

  function ActionOf(f: Frame): Action {
    if f.kind == Data then DeliverApp(f.stream, f.payload) else Noop
  }

  function HighestOf(h: Option<nat>, nonce: nat): Option<nat> {
    if h.None? || h.value < nonce then Some(nonce) else h
  }

  /** Decryption's bookkeeping, then what NACK and ACK frames do at once. `None` when an ACK does not parse. */
  function OnAuthenticated(s: Endpoint, nonce: nat, f: Frame, now: int): (Endpoint, Option<seq<Action>>) {
    var a := s.(authenticatedCount := s.authenticatedCount + 1,
                highestAuthenticated := HighestOf(s.highestAuthenticated, nonce));
    if f.kind == Nack && |f.payload| >= 8 then
      var (t, sends) := OnNack(a, f.payload, now);
      (t, Some(sends))
    else if f.kind == Ack then
      match ParseAck(f.payload)
      case None => (a, None)
      case Some(ranges) => (DropAckedFrames(a, ranges, now), Some([]))
    else (a, Some([]))
  }

  function AfterKind(s: Endpoint, kind: FrameKind): Endpoint {
    s.(state := if kind == Close then Closed else s.state,
       ackPending := s.ackPending || kind == Data || kind == Close || kind == KeepAlive)
  }

  function NackCooldown(cc: Controller): nat {
    Max(cc.Rto() / 2, 10 * MILLISECOND)
  }

  function NackFrame(expected: nat): Frame {
    Frame(Nack, 0, U64Bytes(expected))
  }

  /** An in-order frame releases itself and everything consecutive behind it. */
  function AcceptInOrder(s: Endpoint, action: Action, now: int): (Endpoint, seq<Action>) {
    var (t, acts) := ReleaseFrom(s.(expected := s.expected + 1, fates := s.fates + [Released]), s.expected + 1, now);
    (t, [action] + acts)
  }

  function Inserted(s: Endpoint, nonce: nat, action: Action): Endpoint {
    if |s.reorder| < s.cfg.maxReorderBuffer then s.(reorder := s.reorder[nonce := action]) else s
  }

  function NackIfDue(s: Endpoint, now: int): (Endpoint, seq<Action>) {
    if Since(now, s.lastNackSent) < NackCooldown(s.cc) then (s, [])
    else
      var (t, d) := Build(s.(lastNackSent := now), NackFrame(s.expected), false, now);
      (t, [SendDatagram(d)])
  }

  /** A frame beyond a gap is buffered if there is room, and the gap is reported at a limited rate. */
  function BufferBeyondGap(s: Endpoint, nonce: nat, action: Action, now: int): (Endpoint, seq<Action>) {
    NackIfDue(Inserted(s, nonce, action), now)
  }

  /** Everything after the frame's own kind has been dealt with. */
  function Sequence(s: Endpoint, nonce: nat, action: Action, sends: seq<Action>, now: int): (Endpoint, Outcome) {
    if nonce == s.expected then
      var (t, acts) := AcceptInOrder(s, action, now);
      var (u, ack) := BuildAckIfDue(t, now);
      (u, Ok(Collate(sends + OptionalSend(ack) + acts)))
    else
      var (t, nacks) := BufferBeyondGap(s, nonce, action, now);
      var (u, ack) := BuildAckIfDue(t, now);
      (u, Ok(Collate(sends + nacks + OptionalSend(ack))))
  }

  function HandleFrame(s: Endpoint, d: Datagram, now: int): (Endpoint, Outcome) {
    match d
    case Runt => (s, Err(Framing))
    case Headless(_) => (s, Err(Framing))
    case Datagram(_, nonce, body) =>
      if nonce < s.expected then
        var (t, ack) := ForceBuildAck(s, now);
        (t, Ok(Collate(OptionalSend(ack))))
      else if nonce > s.expected + s.cfg.maxReorder then
        var (t, nack) := Build(s, NackFrame(s.expected), false, now);
        (t, Ok(SendDatagram(nack)))
      else
        match Decrypt(s.cfg.recvKey, nonce, s.cfg.sid, body)
        case None => (s, Err(Crypto))
        case Some(f) =>
          var (t, sends) := OnAuthenticated(s, nonce, f, now);
          match sends
          case None => (t, Err(Framing))
          case Some(sends) => Sequence(AfterKind(t, f.kind), nonce, ActionOf(f), sends, now)
  }

  /** What recovery released is lost if the call then fails. */
  function Forfeit(before: seq<Fate>, after: seq<Fate>): (r: seq<Fate>)
    ensures |r| == |after|
  {
    seq(|after|, i requires 0 <= i < |after| => if i >= |before| && after[i] == Released then Dropped else after[i])
  }

  function Splice(recovered: seq<Action>, result: Action): Action {
    if recovered == [] then result
    else Collate(recovered + match result case Noop => [] case Multiple(list) => list case single => [single])
  }

  function HandleData(s: Endpoint, d: Datagram, now: int): (Endpoint, Outcome) {
    var (r, recovered) := RecoverStalledGap(s, now);
    var (t, result) := HandleFrame(r, d, now);
    match result
    case Err(e) => (t.(fates := Forfeit(s.fates, t.fates)), Err(e))
    case Ok(a) => (t, Ok(Splice(recovered, a)))
  }

  function HandleInbound(s: Endpoint, d: Datagram, now: int): (Endpoint, Outcome) {
    if d.Runt? then (s, Err(Framing))
    else if d.sid != s.cfg.sid then (s, Err(State))
    else if s.state == Established then HandleData(s, d, now)
    else (s, Ok(Noop))
  }

  function OnEvent(s: Endpoint, e: Event, now: int): (Endpoint, Outcome) {
    match s.state
    case Closed => (s, Ok(Noop))
    case Established =>
      (match e
       case Inbound(d) => HandleInbound(s, d, now)
       case Outbound(stream, payload) =>
         var (t, d) := Build(s, Frame(Data, stream, payload), true, now);
         (t, Ok(SendDatagram(d)))
       case Shutdown =>
         var (t, d) := Build(s.(state := Closing), Frame(Close, 0, []), true, now);
         (t, Ok(SendDatagram(d)))
       case Tick => HandleTick(s, now))
    case Closing =>
      (match e
       case Inbound(d) => HandleInbound(s, d, now)
       case Outbound(_, _) => (s, Ok(Noop))
       case Shutdown => (s.(state := Closed), Ok(Noop))
       case Tick => HandleTick(s, now))
  }

  function Aged(h: seq<SentFrame>, due: int): (r: seq<SentFrame>)
    ensures |r| == |h|
  {
    seq(|h|, i requires 0 <= i < |h| => if h[i].isRetransmittable then h[i].(lastSent := due, retries := 1) else h[i])
  }

  function OnPathChange(s: Endpoint, now: int): Endpoint {
    var due := now - PATH_CHANGE_AGE;
    s.(cc := s.cc.ResetPath(now), history := Aged(s.history, due), lastNackSent := due, lastAckSent := due,
       ackPending := true)
  }

  /** A session whose handshake has just completed. */
  function Start(cfg: Config, mtu: Mtu, now: int): Endpoint {
    Endpoint(cfg, Established, 0, 0, map[], [], false, now, now - SECOND, now, None, 0, Fresh(mtu, now), [], {}, {}, [])
  }
}
