/**
 Two endpoints over a network that may lose, duplicate, reorder, delay, reflect
 and forge. A run is any interleaving of their events; a datagram that arrives is
 arbitrary, except that a ciphertext under a session key was put on the wire by
 the endpoint holding that key.
 */
module TwoEndpoints {
  import opened Basics
  import opened Wire
  import opened Congestion
  import opened Endpoint
  import opened EndpointInvariants
  import EndpointSteps
  import opened EndpointEvents
  import opened EndpointDelivery
  import opened Submission

  /** One end of the session, what it transmitted, and what its application was handed and has submitted. */
  datatype Side = Side(ep: Endpoint, wire: seq<Tx>, handed: seq<Delivery>, sent: seq<Delivery>)

  datatype World = World(a: Side, b: Side, now: int)

  datatype Move = Occurs(event: Event) | PathChanges

  ghost predicate OnWire(wire: seq<Tx>, body: Ciphertext) {
    exists i :: 0 <= i < |wire| && wire[i].d.Datagram? && wire[i].d.body == body
  }

  ghost predicate CanArrive(x: Side, y: Side, d: Datagram) {
    d.Datagram? && d.body.Sealed? && (d.body.key == x.ep.cfg.sendKey || d.body.key == y.ep.cfg.sendKey) ==>
      OnWire(x.wire, d.body) || OnWire(y.wire, d.body)
  }

  ghost predicate Allowed(x: Side, y: Side, m: Move) {
    && Headroom(x.ep)
    && (m.Occurs? && m.event.Inbound? ==> CanArrive(x, y, m.event.datagram))
  }

  ghost function Moved(x: Side, m: Move, now: int): Side {
    match m
    case PathChanges => x.(ep := OnPathChange(x.ep, now))
    case Occurs(e) =>
      var (t, result) := OnEvent(x.ep, e, now);
      Side(t, x.wire + (if result.Ok? then Sends(result.action, now) else []), x.handed + Handed(result),
           x.sent + Submitted(x.ep, e))
  }

  ghost predicate AMoves(w: World, m: Move, w': World) {
    Allowed(w.a, w.b, m) && w' == World(Moved(w.a, m, w'.now), w.b, w'.now)
  }

  ghost predicate BMoves(w: World, m: Move, w': World) {
    Allowed(w.b, w.a, m) && w' == World(w.a, Moved(w.b, m, w'.now), w'.now)
  }

  ghost predicate Next(w: World, w': World) {
    w.now <= w'.now && exists m :: AMoves(w, m, w') || BMoves(w, m, w')
  }

  ghost predicate Linked(x: Config, y: Config) {
    x.sid == y.sid && x.sendKey == y.recvKey && x.recvKey == y.sendKey
  }

  ghost predicate Init(w: World) {
    exists ca: Config, cb: Config, mtuA: Mtu, mtuB: Mtu ::
      && ca.Valid() && cb.Valid() && Linked(ca, cb)
      && w.a == Side(Start(ca, mtuA, w.now), [], [], []) && w.b == Side(Start(cb, mtuB, w.now), [], [], [])
  }

  ghost predicate Run(run: seq<World>) {
    run != [] && Init(run[0]) && forall i, j :: 0 <= i < j < |run| && j == i + 1 ==> Next(run[i], run[j])
  }

  // ---------- The invariant of a pair ----------

  /** Only what `x` sealed is on its wire, and frames never retransmitted went out exactly once. */
  ghost predicate WireOk(x: Side) {
    && (forall i :: 0 <= i < |x.wire| ==> IsSealed(x.ep, x.wire[i].d))
    && (forall i :: 0 <= i < |x.ep.history| && x.ep.history[i].retries == 0 ==>
         Times(x.wire, x.ep.history[i].bytes) == [x.ep.history[i].lastSent])
  }

  /** What holds from `x` as sender to `y` as receiver. */
  ghost predicate OneWay(x: Side, y: Side) {
    && Mirrors(y.ep, x.ep.sealed)
    && |y.ep.fates| == y.ep.expected
    && y.handed == Extract(x.ep.sealed, y.ep.fates)
    && (forall n: nat :: n in x.ep.acked ==> Received(y.ep, n))
  }

  ghost predicate PairInv(x: Side, y: Side) {
    && Inv(x.ep) && Inv(y.ep) && Linked(x.ep.cfg, y.ep.cfg)
    && WireOk(x) && WireOk(y) && OneWay(x, y) && OneWay(y, x)
  }

  // ---------- One move keeps it ----------

  /** A ciphertext on `x`'s wire is one `x` sealed, under its own key and nonce. */
  lemma WireIsOwn(x: Side, body: Ciphertext)
    requires WireOk(x) && OnWire(x.wire, body)
    ensures body.Sealed? && body.key == x.ep.cfg.sendKey
    ensures body.nonce < |x.ep.sealed| && body.frame == x.ep.sealed[body.nonce]
  {
    var i :| 0 <= i < |x.wire| && x.wire[i].d.Datagram? && x.wire[i].d.body == body;
    assert IsSealed(x.ep, x.wire[i].d);
  }

  lemma ArrivalsAreGenuine(x: Side, y: Side, d: Datagram)
    requires PairInv(x, y) && CanArrive(x, y, d)
    ensures Genuine(x.ep, d, y.ep.sealed)
  {
    if d.Datagram? && Decrypt(x.ep.cfg.recvKey, d.nonce, x.ep.cfg.sid, d.body).Some? {
      if OnWire(x.wire, d.body) {
        WireIsOwn(x, d.body);
        assert false;
      }
      WireIsOwn(y, d.body);
    }
  }

  lemma WireStaysOk(x: Side, t: Endpoint, txs: seq<Tx>)
    requires Inv(x.ep) && WireOk(x) && Step(x.ep, t, txs)
    ensures WireOk(Side(t, x.wire + txs, x.handed, x.sent))
  {
    var wire := x.wire + txs;
    forall i | 0 <= i < |wire|
      ensures IsSealed(t, wire[i].d)
    {
      if i < |x.wire| {
        StillSealed(x.ep, t, x.wire[i].d);
      } else {
        assert wire[i] == txs[i - |x.wire|];
      }
    }
    forall i | 0 <= i < |t.history| && t.history[i].retries == 0
      ensures Times(wire, t.history[i].bytes) == [t.history[i].lastSent]
    {
      var f := t.history[i];
      TimesConcat(x.wire, txs, f.bytes);
      if f.nonce < x.ep.sendNonce {
        var j :| 0 <= j < |x.ep.history| && x.ep.history[j] == f;
      } else {
        forall k | 0 <= k < |x.wire|
          ensures x.wire[k].d != f.bytes
        {
          assert IsSealed(x.ep, x.wire[k].d);
        }
        NeverSent(x.wire, f.bytes);
      }
    }
  }

  /** The other side loses nothing when `x` evolves. */
  lemma GrowthKeepsOneWay(x: Side, y: Side, x': Side)
    requires PairInv(x, y) && Inv(x'.ep) && Grows(x.ep, x'.ep)
    requires forall n: nat :: n in x'.ep.acked ==> n in x.ep.acked || Received(y.ep, n)
    ensures OneWay(x', y)
  {
    ExtractOfLonger(x.ep.sealed, x'.ep.sealed, y.ep.fates);
  }

  /** An ACK that opens at `x` names only what `y` has received. */
  lemma AcksAreTrue(x: Side, y: Side, d: Datagram, n: nat)
    requires PairInv(x, y) && Genuine(x.ep, d, y.ep.sealed) && AckedBy(x.ep, d, n)
    ensures Received(y.ep, n)
  {
    assert TrueAck(y.ep, y.ep.sealed[d.nonce].payload);
  }

  lemma MoveKeepsPair(x: Side, y: Side, m: Move, now: int)
    requires PairInv(x, y) && Allowed(x, y, m)
    ensures PairInv(Moved(x, m, now), y)
  {
    var x' := Moved(x, m, now);
    match m
    case PathChanges =>
      EndpointSteps.PathChangeStep(x.ep, now);
      WireStaysOk(x, x'.ep, []);
      assert x.wire + [] == x.wire;
      GrowthKeepsOneWay(x, y, x');
    case Occurs(e) =>
      var (t, result) := OnEvent(x.ep, e, now);
      AnyEventStep(x.ep, e, now);
      WireStaysOk(x, t, if result.Ok? then Sends(result.action, now) else []);
      if e.Inbound? {
        ArrivalsAreGenuine(x, y, e.datagram);
        forall n: nat | n in t.acked
          ensures n in x.ep.acked || Received(y.ep, n)
        {
          if n !in x.ep.acked { AcksAreTrue(x, y, e.datagram, n); }
        }
      }
      EventDelivers(x.ep, e, now, y.ep.sealed);
      GrowthKeepsOneWay(x, y, x');
  }

  lemma InitHolds(w: World)
    requires Init(w)
    ensures PairInv(w.a, w.b)
  {
  }

  lemma NextKeeps(w: World, w': World)
    requires PairInv(w.a, w.b) && Next(w, w')
    ensures PairInv(w'.a, w'.b)
  {
    var m :| AMoves(w, m, w') || BMoves(w, m, w');
    if AMoves(w, m, w') {
      MoveKeepsPair(w.a, w.b, m, w'.now);
    } else {
      MoveKeepsPair(w.b, w.a, m, w'.now);
    }
  }

  lemma {:induction false} RunKeeps(run: seq<World>, i: nat)
    requires Run(run) && i < |run|
    ensures PairInv(run[i].a, run[i].b)
  {
    if i == 0 {
      InitHolds(run[0]);
    } else {
      RunKeeps(run, i - 1);
      NextKeeps(run[i - 1], run[i]);
    }
  }

  // ---------- Safety over whole runs ----------

  /** Only Outbound events put Data under nonces: what is sealed is what the application submitted. */
  ghost predicate SealsWhatIsSent(x: Side) {
    DataPayloads(x.ep.sealed) == x.sent
  }

  lemma MoveSealsSent(x: Side, m: Move, now: int)
    requires SealsWhatIsSent(x)
    ensures SealsWhatIsSent(Moved(x, m, now))
  {
    match m
    case PathChanges =>
    case Occurs(e) =>
      EventSeals(x.ep, e, now);
      assert DataPayloads(x.ep.sealed) + Submitted(x.ep, e) == x.sent + Submitted(x.ep, e);
  }

  lemma NextSealsSent(w: World, w': World)
    requires Next(w, w') && SealsWhatIsSent(w.a) && SealsWhatIsSent(w.b)
    ensures SealsWhatIsSent(w'.a) && SealsWhatIsSent(w'.b)
  {
    var m :| AMoves(w, m, w') || BMoves(w, m, w');
    if AMoves(w, m, w') {
      MoveSealsSent(w.a, m, w'.now);
    } else {
      MoveSealsSent(w.b, m, w'.now);
    }
  }

  /** In every reachable state the Data frames of each side are its application's payloads, in order. */
  lemma {:induction false} SealedIsSent(run: seq<World>, i: nat)
    requires Run(run) && i < |run|
    ensures SealsWhatIsSent(run[i].a) && SealsWhatIsSent(run[i].b)
  {
    if i > 0 {
      var k: nat := i - 1;
      SealedIsSent(run, k);
      NextSealsSent(run[k], run[i]);
    }
  }

  /** Each delivery is the Data payload of its nonce, released, and the nonces increase. */
  ghost predicate Carried(frames: seq<Frame>, fates: seq<Fate>, handed: seq<Delivery>, ns: seq<nat>)
    requires |fates| <= |frames|
  {
    && Ascending(ns) && |ns| == |handed|
    && forall i :: 0 <= i < |ns| ==>
         && ns[i] < |fates| && fates[ns[i]] == Released && frames[ns[i]].kind == Data
         && handed[i] == Delivery(frames[ns[i]].stream, frames[ns[i]].payload)
  }

  /**
   `y` was handed an increasing selection of what `x`'s application submitted: each
   delivery is the Data payload of its nonce, every nonce passed has one fate, and if
   no gap was ever given up the deliveries are what was submitted first.
   */
  ghost predicate DeliveredSafely(x: Side, y: Side) {
    && |y.ep.fates| == y.ep.expected <= |x.ep.sealed|
    && (exists ns: seq<nat> :: Carried(x.ep.sealed, y.ep.fates, y.handed, ns))
    && y.handed == Extract(x.ep.sealed, y.ep.fates)
    && (exists at :: Selects(y.handed, x.sent, at))
    && (AllReleased(y.ep.fates) ==> y.handed == DataPayloads(x.ep.sealed[..y.ep.expected]) <= x.sent)
  }

  lemma SentSelects(frames: seq<Frame>, fates: seq<Fate>) returns (at: seq<nat>)
    requires |fates| <= |frames|
    ensures Selects(Extract(frames, fates), DataPayloads(frames), at)
  {
    PrefixPayloads(frames, |fates|);
    at := ExtractSelects(frames, fates);
  }

  lemma PairDeliversSafely(x: Side, y: Side)
    requires PairInv(x, y) && SealsWhatIsSent(x)
    ensures DeliveredSafely(x, y)
  {
    DeliveriesIncrease(x.ep.sealed, y.ep.fates);
    assert Carried(x.ep.sealed, y.ep.fates, y.handed, ExtractNonces(x.ep.sealed, y.ep.fates));
    var at := SentSelects(x.ep.sealed, y.ep.fates);
    PrefixPayloads(x.ep.sealed, y.ep.expected);
    if AllReleased(y.ep.fates) { ReleasedIsPrefix(x.ep.sealed, y.ep.fates); }
  }

  lemma SafeDelivery(run: seq<World>, i: nat)
    requires Run(run) && i < |run|
    ensures DeliveredSafely(run[i].a, run[i].b) && DeliveredSafely(run[i].b, run[i].a)
  {
    RunKeeps(run, i);
    SealedIsSent(run, i);
    PairDeliversSafely(run[i].a, run[i].b);
    PairDeliversSafely(run[i].b, run[i].a);
  }

  /** A nonce that left the history without being evicted has reached the peer. */
  ghost predicate NothingLostSilently(x: Side, y: Side) {
    forall n: nat :: n < x.ep.sendNonce ==> n in Nonces(x.ep.history) || n in x.ep.evicted || Received(y.ep, n)
  }

  lemma NoSilentLoss(run: seq<World>, i: nat)
    requires Run(run) && i < |run|
    ensures NothingLostSilently(run[i].a, run[i].b) && NothingLostSilently(run[i].b, run[i].a)
  {
    RunKeeps(run, i);
  }

  ghost predicate WorldGrows(w: World, w': World) {
    Grows(w.a.ep, w'.a.ep) && Grows(w.b.ep, w'.b.ep)
  }

  lemma MoveGrows(x: Side, y: Side, m: Move, now: int)
    requires PairInv(x, y) && Allowed(x, y, m)
    ensures Grows(x.ep, Moved(x, m, now).ep)
  {
    match m
    case PathChanges => EndpointSteps.PathChangeStep(x.ep, now);
    case Occurs(e) => AnyEventStep(x.ep, e, now);
  }

  lemma NextGrows(w: World, w': World)
    requires PairInv(w.a, w.b) && Next(w, w')
    ensures WorldGrows(w, w')
  {
    var m :| AMoves(w, m, w') || BMoves(w, m, w');
    if AMoves(w, m, w') {
      MoveGrows(w.a, w.b, m, w'.now);
    } else {
      MoveGrows(w.b, w.a, m, w'.now);
    }
  }

  lemma GrowsOnce(u: World, v: World, w: World)
    requires WorldGrows(u, v) && WorldGrows(v, w)
    ensures WorldGrows(u, w)
  {
    GrowsTransitive(u.a.ep, v.a.ep, w.a.ep);
    GrowsTransitive(u.b.ep, v.b.ep, w.b.ep);
  }

  lemma GrowsSame(w: World)
    ensures WorldGrows(w, w)
  {
  }

  lemma StepGrows(run: seq<World>, k: nat, j: nat)
    requires Run(run) && j == k + 1 < |run|
    ensures WorldGrows(run[k], run[j])
  {
    RunKeeps(run, k);
    NextGrows(run[k], run[j]);
  }

  /** Nothing received is ever forgotten and no fate is ever revised. */
  lemma {:induction false} RunGrows(run: seq<World>, i: nat, j: nat)
    requires Run(run) && i <= j < |run|
    ensures WorldGrows(run[i], run[j])
    decreases j
  {
    if i == j {
      GrowsSame(run[i]);
    } else {
      var k: nat := j - 1;
      RunGrows(run, i, k);
      StepGrows(run, k, j);
      GrowsOnce(run[i], run[k], run[j]);
    }
  }

  /** Every ACK sealed by time `i` is true at every later time `j`, whenever it arrives. */
  lemma AcksStayTrue(run: seq<World>, i: nat, j: nat, n: nat)
    requires Run(run) && i <= j < |run|
    requires n < |run[i].b.ep.sealed| && run[i].b.ep.sealed[n].kind == Ack
    ensures TrueAck(run[j].b.ep, run[i].b.ep.sealed[n].payload)
  {
    RunGrows(run, i, j);
    RunKeeps(run, j);
    assert run[j].b.ep.sealed[n] == run[i].b.ep.sealed[n];
  }

  /**
   Nonces in the history increase and are below the next one, and two datagrams
   that left one endpoint under one nonce are the same bytes.
   */
  ghost predicate NonceDiscipline(x: Side) {
    && Ordered(x.ep.history)
    && (forall i :: 0 <= i < |x.ep.history| ==> x.ep.history[i].nonce < x.ep.sendNonce)
    && (forall j, k | 0 <= j < |x.wire| && 0 <= k < |x.wire| && x.wire[j].d.Datagram? && x.wire[k].d.Datagram? ::
          x.wire[j].d.nonce == x.wire[k].d.nonce ==> x.wire[j].d == x.wire[k].d)
  }

  lemma PairIsDisciplined(x: Side, y: Side)
    requires PairInv(x, y)
    ensures NonceDiscipline(x)
  {
    forall j, k | 0 <= j < |x.wire| && 0 <= k < |x.wire| && x.wire[j].d.Datagram? && x.wire[k].d.Datagram?
                  && x.wire[j].d.nonce == x.wire[k].d.nonce
      ensures x.wire[j].d == x.wire[k].d
    {
      assert IsSealed(x.ep, x.wire[j].d) && IsSealed(x.ep, x.wire[k].d);
    }
  }

  /** No nonce ever seals two plaintexts, and resends are byte-identical. */
  lemma NonceSealsOnce(run: seq<World>, i: nat)
    requires Run(run) && i < |run|
    ensures NonceDiscipline(run[i].a) && NonceDiscipline(run[i].b)
  {
    RunKeeps(run, i);
    PairIsDisciplined(run[i].a, run[i].b);
    PairIsDisciplined(run[i].b, run[i].a);
  }

  /** `rtt` is the time since the only transmission of a frame named by the ACK. */
  ghost predicate Unambiguous(x: Side, ranges: seq<Range>, now: int, rtt: nat) {
    exists i :: 0 <= i < |x.ep.history| && Sampled(x, x.ep.history[i], ranges, now, rtt)
  }

  ghost predicate Sampled(x: Side, f: SentFrame, ranges: seq<Range>, now: int, rtt: nat) {
    InRanges(f.nonce, ranges) && |Times(x.wire, f.bytes)| == 1 && rtt == Since(now, Times(x.wire, f.bytes)[0])
  }

  lemma {:induction false} SampleSource(h: seq<SentFrame>, now: int) returns (i: nat)
    requires RttSample(h, now).Some?
    ensures i < |h| && h[i].retries == 0 && RttSample(h, now).value == Since(now, h[i].lastSent)
  {
    var k := |h| - 1;
    var front := RttSample(h[..k], now);
    if h[k].retries == 0 && (front.None? || front.value >= Since(now, h[k].lastSent)) {
      i := k;
    } else {
      i := SampleSource(h[..k], now);
    }
  }

  lemma PairSamples(x: Side, y: Side, ranges: seq<Range>, now: int)
    requires PairInv(x, y) && RttSample(Where(x.ep.history, Named(ranges)), now).Some?
    ensures Unambiguous(x, ranges, now, RttSample(Where(x.ep.history, Named(ranges)), now).value)
  {
    var covered := Where(x.ep.history, Named(ranges));
    var k := SampleSource(covered, now);
    EndpointSteps.WhereKept(x.ep.history, Named(ranges));
    var f := covered[k];
    var j :| 0 <= j < |x.ep.history| && x.ep.history[j] == f;
    assert Times(x.wire, f.bytes) == [f.lastSent];
    assert Sampled(x, x.ep.history[j], ranges, now, RttSample(covered, now).value);
  }

  /** Every sample `x` could take now, from any ACK, is unambiguous. */
  ghost predicate SamplesUnambiguous(x: Side) {
    forall ranges, now :: RttSample(Where(x.ep.history, Named(ranges)), now).Some? ==>
      Unambiguous(x, ranges, now, RttSample(Where(x.ep.history, Named(ranges)), now).value)
  }

  /** Karn's rule over whole runs, path changes included (section 3 of RFC 6298). */
  lemma KarnsRule(run: seq<World>, i: nat)
    requires Run(run) && i < |run|
    ensures SamplesUnambiguous(run[i].a) && SamplesUnambiguous(run[i].b)
  {
    RunKeeps(run, i);
    var a, b := run[i].a, run[i].b;
    forall ranges, now | RttSample(Where(a.ep.history, Named(ranges)), now).Some?
      ensures Unambiguous(a, ranges, now, RttSample(Where(a.ep.history, Named(ranges)), now).value)
    {
      PairSamples(a, b, ranges, now);
    }
    forall ranges, now | RttSample(Where(b.ep.history, Named(ranges)), now).Some?
      ensures Unambiguous(b, ranges, now, RttSample(Where(b.ep.history, Named(ranges)), now).value)
    {
      PairSamples(b, a, ranges, now);
    }
  }

  /** `d` can arrive at `x` and authenticates there. */
  ghost predicate Authentic(x: Side, y: Side, d: Datagram, now: int) {
    && CanArrive(x, y, d) && x.ep.state == Established && d.Datagram? && d.sid == x.ep.cfg.sid
    && Opened(RecoverStalledGap(x.ep, now).0, d).Some?
  }

  lemma PairNeverFails(x: Side, y: Side, d: Datagram, now: int)
    requires PairInv(x, y) && Authentic(x, y, d, now)
    ensures OnEvent(x.ep, Inbound(d), now).1.Ok?
  {
    OpenedFailsIff(x.ep, d, now);
    ArrivalsAreGenuine(x, y, d);
    EndpointSteps.RecoverStep(x.ep, now);
    var f := Opened(RecoverStalledGap(x.ep, now).0, d).value;
    assert f == y.ep.sealed[d.nonce];
    if f.kind == Ack { assert TrueAck(y.ep, f.payload); }
  }

  /** Between two endpoints no authentic datagram fails the call: neither ever seals a truncated ACK. */
  lemma AuthenticNeverFails(run: seq<World>, i: nat, d: Datagram, now: int)
    requires Run(run) && i < |run|
    ensures Authentic(run[i].a, run[i].b, d, now) ==> OnEvent(run[i].a.ep, Inbound(d), now).1.Ok?
    ensures Authentic(run[i].b, run[i].a, d, now) ==> OnEvent(run[i].b.ep, Inbound(d), now).1.Ok?
  {
    RunKeeps(run, i);
    if Authentic(run[i].a, run[i].b, d, now) { PairNeverFails(run[i].a, run[i].b, d, now); }
    if Authentic(run[i].b, run[i].a, d, now) { PairNeverFails(run[i].b, run[i].a, d, now); }
  }

  /** A move at which neither endpoint's gap recovery acts. */
  ghost predicate NextWithoutRecovery(w: World, w': World) {
    exists m ::
      || (AMoves(w, m, w') && (m.Occurs? ==> !Recovers(w.a.ep, m.event, w'.now)))
      || (BMoves(w, m, w') && (m.Occurs? ==> !Recovers(w.b.ep, m.event, w'.now)))
  }

  ghost predicate NeverRecovers(run: seq<World>) {
    forall i, j :: 0 <= i < j < |run| && j == i + 1 ==> NextWithoutRecovery(run[i], run[j])
  }

  lemma NextReleases(w: World, w': World)
    requires PairInv(w.a, w.b) && NextWithoutRecovery(w, w') && AllReleased(w.a.ep.fates) && AllReleased(w.b.ep.fates)
    ensures AllReleased(w'.a.ep.fates) && AllReleased(w'.b.ep.fates)
  {
    var m :| || (AMoves(w, m, w') && (m.Occurs? ==> !Recovers(w.a.ep, m.event, w'.now)))
             || (BMoves(w, m, w') && (m.Occurs? ==> !Recovers(w.b.ep, m.event, w'.now)));
    if AMoves(w, m, w') && (m.Occurs? ==> !Recovers(w.a.ep, m.event, w'.now)) {
      if m.Occurs? { NothingLostWithoutRecovery(w.a.ep, m.event, w'.now); }
    } else {
      if m.Occurs? { NothingLostWithoutRecovery(w.b.ep, m.event, w'.now); }
    }
  }

  lemma {:induction false} NothingSkipped(run: seq<World>, i: nat)
    requires Run(run) && NeverRecovers(run) && i < |run|
    ensures AllReleased(run[i].a.ep.fates) && AllReleased(run[i].b.ep.fates)
  {
    if i > 0 {
      var k: nat := i - 1;
      NothingSkipped(run, k);
      RunKeeps(run, k);
      NextReleases(run[k], run[i]);
    }
  }

  /** `y` was handed exactly the first payloads `x`'s application submitted; all of them once no nonce is awaited. */
  ghost predicate DeliveredInFull(x: Side, y: Side) {
    && y.ep.expected <= |x.ep.sealed| && y.handed == DataPayloads(x.ep.sealed[..y.ep.expected])
    && y.handed <= x.sent && (y.ep.expected == x.ep.sendNonce ==> y.handed == x.sent)
  }

  lemma PairDeliversInFull(x: Side, y: Side)
    requires PairInv(x, y) && SealsWhatIsSent(x) && DeliveredSafely(x, y) && AllReleased(y.ep.fates)
    ensures DeliveredInFull(x, y)
  {
    if y.ep.expected == x.ep.sendNonce { assert x.ep.sealed[..y.ep.expected] == x.ep.sealed; }
  }

  /** With no recovery step each application has exactly what the other side's submitted, in order. */
  lemma WithoutRecoveryExactPrefix(run: seq<World>, i: nat)
    requires Run(run) && NeverRecovers(run) && i < |run|
    ensures DeliveredInFull(run[i].a, run[i].b) && DeliveredInFull(run[i].b, run[i].a)
  {
    NothingSkipped(run, i);
    SafeDelivery(run, i);
    RunKeeps(run, i);
    SealedIsSent(run, i);
    PairDeliversInFull(run[i].a, run[i].b);
    PairDeliversInFull(run[i].b, run[i].a);
  }
}
