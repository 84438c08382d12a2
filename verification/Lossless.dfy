/**
 Liveness. From some point on everything transmitted arrives, in order, and both sides
 tick. A round is two ticks and three deliveries. Whatever was lost before, a gap whose
 frame the sender still holds is closed within two rounds while the sender has a frame
 at or beyond it to resend.
 */
module Lossless {
  import opened Basics
  import opened Wire
  import opened Endpoint
  import opened EndpointInvariants
  import opened EndpointSteps
  import opened EndpointDelivery
  import opened TwoEndpoints
  import opened Retransmission
  import opened Answers
  import opened Repair
  import CongestionProofs

  // ---------- Everything transmitted arrives ----------

  /** `x` after these datagrams have arrived at it, in order. */
  ghost function Fed(x: Side, ds: seq<Datagram>, now: int): (r: Side)
    ensures x.wire <= r.wire
    decreases |ds|
  {
    if ds == [] then x else Fed(Moved(x, Occurs(Inbound(ds[0])), now), ds[1..], now)
  }

  /** What went onto the wire from the given place on. */
  function News(x: Side, from: nat): (ds: seq<Datagram>)
    requires from <= |x.wire|
    ensures |ds| == |x.wire| - from && forall i :: 0 <= i < |ds| ==> ds[i] == x.wire[from + i].d
  {
    seq(|x.wire| - from, i requires 0 <= i < |x.wire| - from => x.wire[from + i].d)
  }

  ghost function Ticks(x: Side, now: int): (r: Side)
    ensures x.wire <= r.wire
  {
    Moved(x, Occurs(Tick), now)
  }

  /** Two sides; what `x` put on its wire from `sent` on is still on its way to `y`. */
  datatype Link = Link(x: Side, y: Side, sent: nat)

  ghost predicate Proper(l: Link) { l.sent <= |l.x.wire| }

  /** Both sides tick, and `y` takes what is on its way and what `x`'s tick adds. */
  ghost function Reached(l: Link, now: int): (y: Side)
    requires Proper(l)
    ensures l.y.wire <= y.wire
  {
    var ds := News(Ticks(l.x, now), l.sent);
    Fed(Ticks(l.y, now), ds, now)
  }

  /** `x` takes what `y` transmitted meanwhile. */
  ghost function Replied(l: Link, now: int): (x: Side)
    requires Proper(l)
    ensures Ticks(l.x, now).wire <= x.wire
  {
    var ds := News(Reached(l, now), |l.y.wire|);
    Fed(Ticks(l.x, now), ds, now)
  }

  /** `y` takes what `x` transmitted in reply. */
  ghost function Resolved(l: Link, now: int): (y: Side)
    requires Proper(l)
    ensures Reached(l, now).wire <= y.wire
  {
    var ds := News(Replied(l, now), |Ticks(l.x, now).wire|);
    Fed(Reached(l, now), ds, now)
  }

  /** And `x` takes the rest; what it now transmits is on its way when the next round starts. */
  ghost function Round(l: Link, now: int): (r: Link)
    requires Proper(l)
    ensures Proper(r)
  {
    var ds := News(Resolved(l, now), |Reached(l, now).wire|);
    var x := Replied(l, now);
    Link(Fed(x, ds, now), Resolved(l, now), |x.wire|)
  }

  // ---------- A healthy pair ----------

  /** No nonce goes beyond `bound`, which is far from 2^64. */
  ghost predicate Fits(s: Endpoint, bound: nat) {
    s.sendNonce <= bound && bound + 2 * s.cfg.maxReorder + 4 <= U64_MAX
  }

  /** Established on both sides, with no Close under way. */
  ghost predicate Live(x: Endpoint, y: Endpoint, bound: nat) {
    && x.state == Established && y.state == Established && NoClose(x.sealed) && NoClose(y.sealed)
    && Fits(x, bound) && Fits(y, bound)
  }

  /** As runs produce such a pair. */
  ghost predicate Open(x: Side, y: Side, bound: nat) {
    PairInv(x, y) && Live(x.ep, y.ep, bound)
  }

  lemma OpenIsSymmetric(x: Side, y: Side, bound: nat)
    requires Open(x, y, bound)
    ensures Open(y, x, bound)
  {
  }

  lemma OpenHasHeadroom(x: Side, y: Side, bound: nat)
    requires Open(x, y, bound)
    ensures Headroom(x.ep)
  {
    assert x.ep.expected <= |y.ep.sealed|;
  }

  lemma FromPeerIsHarmless(x: Side, y: Side, d: Datagram, bound: nat)
    requires Open(x, y, bound) && CanArrive(x, y, d)
    ensures Harmless(x.ep, d) && Genuine(x.ep, d, y.ep.sealed)
  {
    ArrivalsAreGenuine(x, y, d);
    if d.Datagram? {
      var f := Decrypt(x.ep.cfg.recvKey, d.nonce, x.ep.cfg.sid, d.body);
      if f.Some? && f.value.kind == Ack { assert TrueAck(y.ep, f.value.payload); }
    }
  }

  /** One tick or arrival keeps the pair open and healthy. */
  lemma StepStaysOpen(x: Side, y: Side, e: Event, now: int, bound: nat)
    requires Open(x, y, bound) && (e.Tick? || (e.Inbound? && CanArrive(x, y, e.datagram)))
    requires Moved(x, Occurs(e), now).ep.sendNonce <= bound
    ensures Open(Moved(x, Occurs(e), now), y, bound) && Grows(x.ep, Moved(x, Occurs(e), now).ep)
    ensures Follows(x.ep, Moved(x, Occurs(e), now).ep, now)
  {
    OpenHasHeadroom(x, y, bound);
    if e.Inbound? { FromPeerIsHarmless(x, y, e.datagram, bound); }
    MoveKeepsPair(x, y, Occurs(e), now);
    MoveGrows(x, y, Occurs(e), now);
    AnyEventFollows(x.ep, e, now);
    StaysOpen(x.ep, e, now);
  }

  ghost predicate Wired(y: Side, d: Datagram) {
    exists k :: 0 <= k < |y.wire| && y.wire[k].d == d
  }

  /** Everything here is on `y`'s wire. */
  ghost predicate FromWire(ds: seq<Datagram>, y: Side) {
    forall i :: 0 <= i < |ds| ==> Wired(y, ds[i])
  }

  lemma NewsFromWire(y: Side, from: nat, later: Side)
    requires from <= |y.wire| && y.wire <= later.wire
    ensures FromWire(News(y, from), later)
  {
    forall i | 0 <= i < |News(y, from)|
      ensures Wired(later, News(y, from)[i])
    {
      assert later.wire[from + i].d == News(y, from)[i];
    }
  }

  lemma WireArrives(x: Side, y: Side, d: Datagram)
    requires Wired(y, d)
    ensures CanArrive(x, y, d)
  {
  }

  lemma {:induction false} FedFollows(x: Side, ds: seq<Datagram>, now: int)
    ensures Follows(x.ep, Fed(x, ds, now).ep, now)
    decreases |ds|
  {
    if ds == [] {
      FollowsSame(x.ep, x.ep, now);
    } else {
      var m := Moved(x, Occurs(Inbound(ds[0])), now);
      AnyEventFollows(x.ep, Inbound(ds[0]), now);
      FedFollows(m, ds[1..], now);
      FollowsTransitive(x.ep, m.ep, Fed(m, ds[1..], now).ep, now);
    }
  }

  lemma FedNonce(x: Side, ds: seq<Datagram>, now: int)
    ensures x.ep.sendNonce <= Fed(x, ds, now).ep.sendNonce
  {
    FedFollows(x, ds, now);
  }

  lemma GrowsNothing(s: Endpoint)
    ensures Grows(s, s)
  {
  }

  lemma FedStep(x: Side, y: Side, ds: seq<Datagram>, now: int, bound: nat) returns (m: Side)
    requires Open(x, y, bound) && ds != [] && FromWire(ds, y) && Fed(x, ds, now).ep.sendNonce <= bound
    ensures m == Moved(x, Occurs(Inbound(ds[0])), now) && Fed(x, ds, now) == Fed(m, ds[1..], now)
    ensures Open(m, y, bound) && Grows(x.ep, m.ep) && Wired(y, ds[0]) && FromWire(ds[1..], y)
  {
    m := Moved(x, Occurs(Inbound(ds[0])), now);
    FedNonce(m, ds[1..], now);
    WireArrives(x, y, ds[0]);
    StepStaysOpen(x, y, Inbound(ds[0]), now, bound);
  }

  lemma {:induction false} FedStaysOpen(x: Side, y: Side, ds: seq<Datagram>, now: int, bound: nat)
    requires Open(x, y, bound) && FromWire(ds, y) && Fed(x, ds, now).ep.sendNonce <= bound
    ensures Open(Fed(x, ds, now), y, bound) && Grows(x.ep, Fed(x, ds, now).ep)
    decreases |ds|
  {
    if ds == [] {
      GrowsNothing(x.ep);
    } else {
      var m := FedStep(x, y, ds, now, bound);
      FedStaysOpen(m, y, ds[1..], now, bound);
      GrowsTransitive(x.ep, m.ep, Fed(x, ds, now).ep);
    }
  }

  lemma {:induction false} FedSplit(x: Side, a: seq<Datagram>, b: seq<Datagram>, now: int)
    ensures Fed(x, a + b, now) == Fed(Fed(x, a, now), b, now)
    decreases |a|
  {
    if a == [] {
      assert a + b == b;
    } else {
      assert (a + b)[0] == a[0] && (a + b)[1..] == a[1..] + b;
      FedSplit(Moved(x, Occurs(Inbound(a[0])), now), a[1..], b, now);
    }
  }

  lemma FedParts(x: Side, ds: seq<Datagram>, k: nat, now: int)
    requires k < |ds|
    ensures Fed(x, ds, now) == Fed(Fed(x, ds[..k], now), ds[k..], now) && ds[k..][1..] == ds[k + 1..]
  {
    assert ds == ds[..k] + ds[k..];
    FedSplit(x, ds[..k], ds[k..], now);
  }

  lemma PartsFromWire(ds: seq<Datagram>, y: Side, k: nat)
    requires k < |ds| && FromWire(ds, y)
    ensures FromWire(ds[..k], y) && FromWire(ds[k..], y)
  {
  }

  /** Just before and just after one of the datagrams arrives. */
  lemma FedReaches(x: Side, y: Side, ds: seq<Datagram>, k: nat, now: int, bound: nat) returns (m: Side, z: Side)
    requires Open(x, y, bound) && FromWire(ds, y) && Fed(x, ds, now).ep.sendNonce <= bound && k < |ds|
    ensures m == Fed(x, ds[..k], now) && z == Moved(m, Occurs(Inbound(ds[k])), now)
    ensures Fed(x, ds, now) == Fed(z, ds[k + 1..], now) && FromWire(ds[..k], y) && FromWire(ds[k + 1..], y)
    ensures Open(m, y, bound) && Grows(x.ep, m.ep) && Open(z, y, bound) && Grows(m.ep, z.ep) && Wired(y, ds[k])
  {
    var a, b := ds[..k], ds[k..];
    FedParts(x, ds, k, now);
    PartsFromWire(ds, y, k);
    m := Fed(x, a, now);
    FedNonce(m, b, now);
    FedStaysOpen(x, y, a, now, bound);
    z := FedStep(m, y, b, now, bound);
  }

  // ---------- A round stays healthy ----------

  /** A round that does not go beyond `bound`. */
  ghost predicate Bounded(l: Link, now: int, bound: nat) {
    Proper(l) && Round(l, now).x.ep.sendNonce <= bound && Round(l, now).y.ep.sendNonce <= bound
  }

  ghost predicate Healthy(l: Link, now: int, bound: nat) {
    Bounded(l, now, bound) && Open(l.x, l.y, bound)
  }

  lemma TickNonce(x: Side, now: int)
    ensures Follows(x.ep, Ticks(x, now).ep, now)
  {
    AnyEventFollows(x.ep, Tick, now);
  }

  lemma NoncesInRound(l: Link, now: int)
    requires Proper(l)
    ensures Ticks(l.x, now).ep.sendNonce <= Replied(l, now).ep.sendNonce <= Round(l, now).x.ep.sendNonce
    ensures Ticks(l.y, now).ep.sendNonce <= Reached(l, now).ep.sendNonce <= Round(l, now).y.ep.sendNonce
  {
    FedNonce(Ticks(l.y, now), News(Ticks(l.x, now), l.sent), now);
    FedNonce(Ticks(l.x, now), News(Reached(l, now), |l.y.wire|), now);
    FedNonce(Reached(l, now), News(Replied(l, now), |Ticks(l.x, now).wire|), now);
    FedNonce(Replied(l, now), News(Resolved(l, now), |Reached(l, now).wire|), now);
  }

  lemma BothTick(l: Link, now: int, bound: nat)
    requires Healthy(l, now, bound)
    ensures Open(Ticks(l.y, now), Ticks(l.x, now), bound)
    ensures Grows(l.x.ep, Ticks(l.x, now).ep) && Grows(l.y.ep, Ticks(l.y, now).ep)
  {
    NoncesInRound(l, now);
    StepStaysOpen(l.x, l.y, Tick, now, bound);
    OpenIsSymmetric(Ticks(l.x, now), l.y, bound);
    StepStaysOpen(l.y, Ticks(l.x, now), Tick, now, bound);
  }

  lemma ReachedOpen(l: Link, now: int, bound: nat)
    requires Healthy(l, now, bound)
    ensures FromWire(News(Ticks(l.x, now), l.sent), Ticks(l.x, now))
    ensures Open(Reached(l, now), Ticks(l.x, now), bound) && Grows(Ticks(l.y, now).ep, Reached(l, now).ep)
  {
    NoncesInRound(l, now);
    BothTick(l, now, bound);
    NewsFromWire(Ticks(l.x, now), l.sent, Ticks(l.x, now));
    FedStaysOpen(Ticks(l.y, now), Ticks(l.x, now), News(Ticks(l.x, now), l.sent), now, bound);
  }

  lemma RepliedOpen(l: Link, now: int, bound: nat)
    requires Healthy(l, now, bound)
    ensures FromWire(News(Reached(l, now), |l.y.wire|), Reached(l, now))
    ensures Open(Replied(l, now), Reached(l, now), bound) && Grows(Ticks(l.x, now).ep, Replied(l, now).ep)
  {
    NoncesInRound(l, now);
    ReachedOpen(l, now, bound);
    OpenIsSymmetric(Reached(l, now), Ticks(l.x, now), bound);
    NewsFromWire(Reached(l, now), |l.y.wire|, Reached(l, now));
    FedStaysOpen(Ticks(l.x, now), Reached(l, now), News(Reached(l, now), |l.y.wire|), now, bound);
  }

  lemma ResolvedOpen(l: Link, now: int, bound: nat)
    requires Healthy(l, now, bound)
    ensures FromWire(News(Replied(l, now), |Ticks(l.x, now).wire|), Replied(l, now))
    ensures Open(Resolved(l, now), Replied(l, now), bound) && Grows(Reached(l, now).ep, Resolved(l, now).ep)
  {
    RepliedOpen(l, now, bound);
    OpenIsSymmetric(Replied(l, now), Reached(l, now), bound);
    NewsFromWire(Replied(l, now), |Ticks(l.x, now).wire|, Replied(l, now));
    FedStaysOpen(Reached(l, now), Replied(l, now), News(Replied(l, now), |Ticks(l.x, now).wire|), now, bound);
  }

  lemma RoundOpen(l: Link, now: int, bound: nat)
    requires Healthy(l, now, bound)
    ensures Open(Round(l, now).x, Round(l, now).y, bound) && Grows(Replied(l, now).ep, Round(l, now).x.ep)
  {
    ResolvedOpen(l, now, bound);
    OpenIsSymmetric(Resolved(l, now), Replied(l, now), bound);
    NewsFromWire(Resolved(l, now), |Reached(l, now).wire|, Resolved(l, now));
    FedStaysOpen(Replied(l, now), Resolved(l, now), News(Resolved(l, now), |Reached(l, now).wire|), now, bound);
  }

  // ---------- What the receiver has put out ----------

  /** A moment in a side's past: how much was on its wire, and its next nonce. */
  datatype Mark = Mark(wire: nat, nonce: nat)

  ghost predicate Past(y: Side, from: Mark) { from.wire <= |y.wire| && from.nonce <= y.ep.sendNonce }

  /** Place `at` of the wire holds what the new nonce `q` sealed; before it and since `from` only lower nonces went out. */
  ghost predicate Issued(y: Side, from: Mark, at: nat, q: nat) {
    && from.wire <= at < |y.wire| && from.nonce <= q < |y.ep.sealed|
    && y.wire[at].d == Seal(y.ep.cfg, q, y.ep.sealed[q])
    && forall i :: from.wire <= i < at ==> y.wire[i].d.Datagram? && y.wire[i].d.nonce < q
  }

  lemma IssuedStays(y: Side, z: Side, from: Mark, at: nat, q: nat)
    requires Issued(y, from, at, q) && y.wire <= z.wire && Grows(y.ep, z.ep)
    ensures Issued(z, from, at, q) && z.ep.sealed[q] == y.ep.sealed[q]
  {
    assert forall i :: 0 <= i < |y.wire| ==> z.wire[i] == y.wire[i];
  }

  lemma SealedBelow(y: Side, x: Side, i: nat)
    requires PairInv(y, x) && i < |y.wire|
    ensures y.wire[i].d.Datagram? && y.wire[i].d.nonce < |y.ep.sealed| == y.ep.sendNonce
    ensures y.wire[i].d == Seal(y.ep.cfg, y.wire[i].d.nonce, y.ep.sealed[y.wire[i].d.nonce])
  {
    assert IsSealed(y.ep, y.wire[i].d);
  }

  lemma OnlyOldBefore(y: Side, x: Side, wire: seq<Tx>, txs: seq<Tx>, k: nat, i: nat)
    requires PairInv(y, x) && wire == y.wire + txs && k <= |txs| && Old(txs[..k], y.ep.sendNonce) && i < |y.wire| + k
    ensures wire[i].d.Datagram? && wire[i].d.nonce < y.ep.sendNonce
  {
    if i < |y.wire| {
      SealedBelow(y, x, i);
    } else {
      assert wire[i] == txs[i - |y.wire|] == txs[..k][i - |y.wire|];
    }
  }

  /** What an event puts out first of all that is new. */
  lemma IssuedNow(y: Side, x: Side, z: Side, txs: seq<Tx>, f: Frame, from: Mark) returns (at: nat)
    requires PairInv(y, x) && Grows(y.ep, z.ep) && z.wire == y.wire + txs && Past(y, from)
    requires SentFirst(txs, Seal(y.ep.cfg, y.ep.sendNonce, f), y.ep.sendNonce)
    requires y.ep.sendNonce < |z.ep.sealed| && z.ep.sealed[y.ep.sendNonce] == f
    ensures Issued(z, from, at, y.ep.sendNonce)
  {
    var k :| 0 <= k < |txs| && txs[k].d == Seal(y.ep.cfg, y.ep.sendNonce, f) && Old(txs[..k], y.ep.sendNonce);
    at := |y.wire| + k;
    forall i | from.wire <= i < at
      ensures z.wire[i].d.Datagram? && z.wire[i].d.nonce < y.ep.sendNonce
    {
      OnlyOldBefore(y, x, z.wire, txs, k, i);
    }
  }

  /** What goes out under the next nonce is what it sealed. */
  lemma SentIsSealed(y: Side, x: Side, z: Side, txs: seq<Tx>, f: Frame)
    requires PairInv(z, x) && z.wire == y.wire + txs && z.ep.cfg == y.ep.cfg
    requires SentFirst(txs, Seal(y.ep.cfg, y.ep.sendNonce, f), y.ep.sendNonce)
    ensures y.ep.sendNonce < |z.ep.sealed| && z.ep.sealed[y.ep.sendNonce] == f
  {
    var k :| 0 <= k < |txs| && txs[k].d == Seal(y.ep.cfg, y.ep.sendNonce, f);
    SealedBelow(z, x, |y.wire| + k);
    assert z.wire[|y.wire| + k] == txs[k];
  }

  /** A request for nonce `n` is among what `y` put out since. */
  ghost predicate Requested(y: Side, from: Mark, n: nat) {
    exists at: nat, q: nat :: Issued(y, from, at, q) && y.ep.sealed[q] == NackFrame(n)
  }

  lemma RequestedStays(y: Side, z: Side, from: Mark, n: nat)
    requires Requested(y, from, n) && y.wire <= z.wire && Grows(y.ep, z.ep)
    ensures Requested(z, from, n)
  {
    var at: nat, q: nat :| Issued(y, from, at, q) && y.ep.sealed[q] == NackFrame(n);
    IssuedStays(y, z, from, at, q);
  }

  /** Past the gap, or at it with the request timer as it was or a request put out. */
  ghost predicate Watching(y: Side, from: Mark, n: nat, stamp: int) {
    y.ep.expected > n || (y.ep.expected == n && (y.ep.lastNackSent == stamp || Requested(y, from, n)))
  }

  lemma AskedRequests(y: Side, x: Side, d: Datagram, from: Mark, now: int)
    requires PairInv(y, x) && PairInv(Moved(y, Occurs(Inbound(d)), now), x) && Past(y, from)
    requires Grows(y.ep, Moved(y, Occurs(Inbound(d)), now).ep)
    requires var (t, out) := OnEvent(y.ep, Inbound(d), now); Asked(y.ep, t, out, now)
    ensures Requested(Moved(y, Occurs(Inbound(d)), now), from, y.ep.expected)
  {
    var (t, out) := OnEvent(y.ep, Inbound(d), now);
    var z := Moved(y, Occurs(Inbound(d)), now);
    SentIsSealed(y, x, z, Sends(out.action, now), NackFrame(y.ep.expected));
    var at := IssuedNow(y, x, z, Sends(out.action, now), NackFrame(y.ep.expected), from);
  }

  /** What is on the wire carries what its nonce sealed. */
  lemma WiredCarries(y: Side, x: Side, d: Datagram)
    requires PairInv(y, x) && Wired(x, d)
    ensures d.Datagram? && d.nonce < |x.ep.sealed| && Carries(y.ep, d, x.ep.sealed[d.nonce])
    ensures d == Seal(x.ep.cfg, d.nonce, x.ep.sealed[d.nonce])
  {
    var k :| 0 <= k < |x.wire| && x.wire[k].d == d;
    SealedBelow(x, y, k);
  }

  lemma BeyondRequests(y: Side, x: Side, d: Datagram, from: Mark, now: int, bound: nat)
    requires Open(y, x, bound) && Wired(x, d) && Past(y, from)
    requires Open(Moved(y, Occurs(Inbound(d)), now), x, bound) && Grows(y.ep, Moved(y, Occurs(Inbound(d)), now).ep)
    requires d.Datagram? && d.nonce >= y.ep.expected && Since(now, y.ep.lastNackSent) >= MAX_EFFECTIVE_RTO
    ensures var z := Moved(y, Occurs(Inbound(d)), now); z.ep.expected > y.ep.expected || Requested(z, from, y.ep.expected)
  {
    WiredCarries(y, x, d);
    WireArrives(y, x, d);
    FromPeerIsHarmless(y, x, d, bound);
    OpenHasHeadroom(y, x, bound);
    var f := x.ep.sealed[d.nonce];
    CooldownIsShort(Heard(y.ep, d.nonce, f, now).cc);
    BeyondAnswered(y.ep, d, f, now);
    if Moved(y, Occurs(Inbound(d)), now).ep.expected <= y.ep.expected { AskedRequests(y, x, d, from, now); }
  }

  lemma WatchingStep(y: Side, x: Side, d: Datagram, from: Mark, n: nat, stamp: int, now: int, bound: nat)
    requires Open(y, x, bound) && Wired(x, d) && Past(y, from) && Watching(y, from, n, stamp)
    requires Open(Moved(y, Occurs(Inbound(d)), now), x, bound) && Grows(y.ep, Moved(y, Occurs(Inbound(d)), now).ep)
    ensures Watching(Moved(y, Occurs(Inbound(d)), now), from, n, stamp)
  {
    var z := Moved(y, Occurs(Inbound(d)), now);
    if y.ep.expected == n && z.ep.expected == n {
      if Requested(y, from, n) {
        RequestedStays(y, z, from, n);
      } else {
        WireArrives(y, x, d);
        FromPeerIsHarmless(y, x, d, bound);
        OpenHasHeadroom(y, x, bound);
        StampAsks(y.ep, d, now);
        if z.ep.lastNackSent != stamp { AskedRequests(y, x, d, from, now); }
      }
    }
  }

  /** Past the gap, or a request for its frame has been put out. */
  ghost predicate Acted(y: Side, from: Mark, n: nat) {
    y.ep.expected > n || (y.ep.expected == n && Requested(y, from, n))
  }

  lemma ActedStays(y: Side, z: Side, from: Mark, n: nat)
    requires Acted(y, from, n) && y.wire <= z.wire && Grows(y.ep, z.ep)
    ensures Acted(z, from, n)
  {
    if y.ep.expected == n && z.ep.expected == n { RequestedStays(y, z, from, n); }
  }

  lemma FedActed(y: Side, x: Side, ds: seq<Datagram>, from: Mark, n: nat, now: int, bound: nat)
    requires Open(y, x, bound) && FromWire(ds, x) && Fed(y, ds, now).ep.sendNonce <= bound && Acted(y, from, n)
    ensures Acted(Fed(y, ds, now), from, n)
  {
    FedStaysOpen(y, x, ds, now, bound);
    ActedStays(y, Fed(y, ds, now), from, n);
  }

  lemma BeyondActs(y: Side, x: Side, d: Datagram, from: Mark, n: nat, stamp: int, now: int, bound: nat)
    requires Open(y, x, bound) && Wired(x, d) && Past(y, from) && Watching(y, from, n, stamp) && !Acted(y, from, n)
    requires Open(Moved(y, Occurs(Inbound(d)), now), x, bound) && Grows(y.ep, Moved(y, Occurs(Inbound(d)), now).ep)
    requires d.Datagram? && d.nonce >= n && Since(now, stamp) >= MAX_EFFECTIVE_RTO
    ensures Acted(Moved(y, Occurs(Inbound(d)), now), from, n)
  {
    BeyondRequests(y, x, d, from, now, bound);
  }

  lemma {:induction false} FedWatches(y: Side, x: Side, ds: seq<Datagram>, from: Mark, n: nat, stamp: int, now: int,
                                      bound: nat)
    requires Open(y, x, bound) && FromWire(ds, x) && Fed(y, ds, now).ep.sendNonce <= bound
    requires Past(y, from) && Watching(y, from, n, stamp)
    ensures Watching(Fed(y, ds, now), from, n, stamp)
    decreases |ds|
  {
    if ds != [] {
      var m := FedStep(y, x, ds, now, bound);
      WatchingStep(y, x, ds[0], from, n, stamp, now, bound);
      FedWatches(m, x, ds[1..], from, n, stamp, now, bound);
    }
  }

  /** If anything at or beyond the gap arrives, the receiver has acted by the end. */
  lemma FedActs(y: Side, x: Side, ds: seq<Datagram>, k: nat, from: Mark, n: nat, stamp: int, now: int, bound: nat)
    requires Open(y, x, bound) && FromWire(ds, x) && Fed(y, ds, now).ep.sendNonce <= bound
    requires Past(y, from) && Watching(y, from, n, stamp) && Since(now, stamp) >= MAX_EFFECTIVE_RTO
    requires k < |ds| && ds[k].Datagram? && ds[k].nonce >= n
    ensures Acted(Fed(y, ds, now), from, n)
  {
    var m, z := FedReaches(y, x, ds, k, now, bound);
    FedWatches(y, x, ds[..k], from, n, stamp, now, bound);
    if Acted(m, from, n) {
      ActedStays(m, z, from, n);
    } else {
      BeyondActs(m, x, ds[k], from, n, stamp, now, bound);
    }
    FedActed(z, x, ds[k + 1..], from, n, now, bound);
  }

  // ---------- What the sender makes of it ----------

  lemma MirrorsStep(x: Side, y: Side, d: Datagram, frames: seq<Frame>, now: int, bound: nat)
    requires Open(x, y, bound) && Wired(y, d) && Mirrors(x.ep, frames) && frames <= y.ep.sealed
    requires d.Datagram? && d.nonce < |frames|
    ensures Mirrors(Moved(x, Occurs(Inbound(d)), now).ep, frames)
  {
    OpenHasHeadroom(x, y, bound);
    WiredCarries(x, y, d);
    EventDelivers(x.ep, Inbound(d), now, frames);
  }

  /** Datagrams under nonces below `q` only. */
  ghost predicate Below(ds: seq<Datagram>, q: nat) {
    forall i :: 0 <= i < |ds| ==> ds[i].Datagram? && ds[i].nonce < q
  }

  lemma {:induction false} FedMirrors(x: Side, y: Side, ds: seq<Datagram>, frames: seq<Frame>, now: int, bound: nat)
    requires Open(x, y, bound) && FromWire(ds, y) && Fed(x, ds, now).ep.sendNonce <= bound
    requires Mirrors(x.ep, frames) && frames <= y.ep.sealed && Below(ds, |frames|)
    ensures Mirrors(Fed(x, ds, now).ep, frames)
    decreases |ds|
  {
    if ds != [] {
      var m := FedStep(x, y, ds, now, bound);
      MirrorsStep(x, y, ds[0], frames, now, bound);
      FedMirrors(m, y, ds[1..], frames, now, bound);
    }
  }

  lemma BeforeIssued(y: Side, from: Mark, at: nat, q: nat)
    requires Issued(y, from, at, q)
    ensures var ds := News(y, from.wire);
            && at - from.wire < |ds| && ds[at - from.wire] == Seal(y.ep.cfg, q, y.ep.sealed[q])
            && Below(ds[..at - from.wire], q)
  {
  }

  lemma MirrorsMore(s: Endpoint, frames: seq<Frame>, j: nat, k: nat)
    requires j <= k <= |frames| && Mirrors(s, frames[..j])
    ensures Mirrors(s, frames[..k])
  {
  }

  /** When what the receiver issued arrives, the sender has not seen its nonce or any later one. */
  lemma Heeded(x: Side, y: Side, from: Mark, at: nat, q: nat, now: int, bound: nat)
    returns (m: Side, z: Side, rest: seq<Datagram>)
    requires Open(x, y, bound) && Issued(y, from, at, q) && Fed(x, News(y, from.wire), now).ep.sendNonce <= bound
    requires from.nonce <= |y.ep.sealed| && Mirrors(x.ep, y.ep.sealed[..from.nonce])
    ensures z == Moved(m, Occurs(Inbound(Seal(y.ep.cfg, q, y.ep.sealed[q]))), now)
    ensures Fed(x, News(y, from.wire), now) == Fed(z, rest, now) && FromWire(rest, y) && x.wire <= m.wire
    ensures Open(m, y, bound) && Grows(x.ep, m.ep) && Open(z, y, bound) && Grows(m.ep, z.ep)
    ensures Mirrors(m.ep, y.ep.sealed[..q])
  {
    var ds := News(y, from.wire);
    var k: nat := at - from.wire;
    BeforeIssued(y, from, at, q);
    NewsFromWire(y, from.wire, y);
    m, z := FedReaches(x, y, ds, k, now, bound);
    rest := ds[k + 1..];
    MirrorsMore(x.ep, y.ep.sealed, from.nonce, q);
    FedMirrors(x, y, ds[..k], y.ep.sealed[..q], now, bound);
  }

  /** A frame the receiver waits for is held or was evicted. */
  lemma HeldOrEvicted(x: Side, y: Side, n: nat)
    requires PairInv(x, y) && y.ep.expected == n < x.ep.sendNonce
    ensures n in Nonces(x.ep.history) || n in x.ep.evicted
  {
    assert !Received(y.ep, n);
  }

  /** A request that arrives in the window is answered, unless the frame was evicted. */
  lemma RequestHeeded(m: Side, y: Side, z: Side, q: nat, n: nat, now: int, bound: nat)
    requires Open(m, y, bound) && q < |y.ep.sealed| && y.ep.sealed[q] == NackFrame(n)
    requires z == Moved(m, Occurs(Inbound(Seal(y.ep.cfg, q, NackFrame(n)))), now)
    requires Mirrors(m.ep, y.ep.sealed[..q]) && q <= m.ep.expected + m.ep.cfg.maxReorder
    requires y.ep.expected == n < m.ep.sendNonce
    ensures n in m.ep.evicted || Transmitted(m, z, Answer(m.ep, n))
  {
    HeldOrEvicted(m, y, n);
    OpenHasHeadroom(m, y, bound);
    if n !in m.ep.evicted {
      var asked := y.ep.(sealed := y.ep.sealed[..q], sendNonce := q);
      assert Request(asked) == Seal(y.ep.cfg, q, NackFrame(n));
      RequestAnswered(m.ep, asked, now);
      var out := OnEvent(m.ep, Inbound(Request(asked)), now).1;
      NewOnWire(m, z, Sends(out.action, now), Answer(m.ep, n));
    }
  }

  lemma MissingAdvances(m: Side, x: Side, d: Datagram, now: int, bound: nat)
    requires Open(m, x, bound) && Wired(x, d) && d.Datagram? && d.nonce == m.ep.expected
    ensures Moved(m, Occurs(Inbound(d)), now).ep.expected > m.ep.expected
  {
    WiredCarries(m, x, d);
    WireArrives(m, x, d);
    FromPeerIsHarmless(m, x, d, bound);
    OpenHasHeadroom(m, x, bound);
    ExpectedAdvances(m.ep, d, x.ep.sealed[d.nonce], now);
  }

  /** The missing frame closes the gap whenever it arrives. */
  lemma AnswerCloses(y: Side, x: Side, ds: seq<Datagram>, k: nat, n: nat, now: int, bound: nat)
    requires Open(y, x, bound) && FromWire(ds, x) && Fed(y, ds, now).ep.sendNonce <= bound
    requires n < |x.ep.sealed| && k < |ds| && ds[k] == Answer(x.ep, n) && y.ep.expected >= n
    ensures Fed(y, ds, now).ep.expected > n
  {
    var m, z := FedReaches(y, x, ds, k, now, bound);
    if m.ep.expected == n { MissingAdvances(m, x, ds[k], now, bound); }
    FedStaysOpen(z, x, ds[k + 1..], now, bound);
  }

  // ---------- One round ----------

  /** Where the receiver stood when the round began. */
  function Opening(l: Link): Mark { Mark(|l.y.wire|, l.y.ep.sendNonce) }

  /** The receiver's own frames have not run a whole window ahead of what the sender has taken. */
  ghost predicate InReach(l: Link, now: int)
    requires Proper(l)
  {
    Round(l, now).y.ep.sendNonce <= l.x.ep.expected + l.x.ep.cfg.maxReorder
  }

  lemma TickMovedPlace(x: Side, now: int)
    requires x.ep.state == Established
    ensures var t := Ticks(x, now).ep;
            && t.expected == x.ep.expected && t.reorder == x.ep.reorder && t.lastNackSent == x.ep.lastNackSent
            && t.cfg == x.ep.cfg
  {
    TickKeepsPlace(x.ep, now);
    TickMoved(x, now);
  }

  /** Something at or beyond the gap arrives, and the receiver has acted. */
  lemma RoundActs(l: Link, now: int, bound: nat, k: nat)
    requires Healthy(l, now, bound) && Since(now, l.y.ep.lastNackSent) >= MAX_EFFECTIVE_RTO
    requires var ds := News(Ticks(l.x, now), l.sent); k < |ds| && ds[k].Datagram? && ds[k].nonce >= l.y.ep.expected
    ensures Acted(Reached(l, now), Opening(l), l.y.ep.expected)
  {
    NoncesInRound(l, now);
    BothTick(l, now, bound);
    ReachedOpen(l, now, bound);
    TickMovedPlace(l.y, now);
    FedActs(Ticks(l.y, now), Ticks(l.x, now), News(Ticks(l.x, now), l.sent), k, Opening(l), l.y.ep.expected,
            l.y.ep.lastNackSent, now, bound);
  }

  lemma SenderStillMirrors(l: Link, now: int, bound: nat)
    requires Healthy(l, now, bound)
    ensures l.y.ep.sealed <= Reached(l, now).ep.sealed && |l.y.ep.sealed| == l.y.ep.sendNonce
    ensures Mirrors(Ticks(l.x, now).ep, Reached(l, now).ep.sealed[..l.y.ep.sendNonce])
  {
    BothTick(l, now, bound);
    ReachedOpen(l, now, bound);
    TickMovedPlace(l.x, now);
    GrowsTransitive(l.y.ep, Ticks(l.y, now).ep, Reached(l, now).ep);
    assert Reached(l, now).ep.sealed[..l.y.ep.sendNonce] == l.y.ep.sealed;
  }

  /** What the receiver issued in this round reaches the sender, which has seen nothing under that nonce. */
  lemma RoundHeeds(l: Link, now: int, bound: nat, at: nat, q: nat) returns (m: Side, z: Side, rest: seq<Datagram>)
    requires Healthy(l, now, bound) && InReach(l, now) && Issued(Reached(l, now), Opening(l), at, q)
    ensures var y := Reached(l, now);
            && z == Moved(m, Occurs(Inbound(Seal(y.ep.cfg, q, y.ep.sealed[q]))), now)
            && Replied(l, now) == Fed(z, rest, now) && FromWire(rest, y) && Ticks(l.x, now).wire <= m.wire
            && Open(m, y, bound) && Grows(Ticks(l.x, now).ep, m.ep) && Open(z, y, bound) && Grows(m.ep, z.ep)
            && Mirrors(m.ep, y.ep.sealed[..q]) && q <= m.ep.expected + m.ep.cfg.maxReorder
  {
    NoncesInRound(l, now);
    ReachedOpen(l, now, bound);
    OpenIsSymmetric(Reached(l, now), Ticks(l.x, now), bound);
    SenderStillMirrors(l, now, bound);
    TickMovedPlace(l.x, now);
    m, z, rest := Heeded(Ticks(l.x, now), Reached(l, now), Opening(l), at, q, now, bound);
  }

  lemma AnswerStays(x: Side, m: Side, z: Side, r: Side, n: nat)
    requires x.wire <= m.wire && z.wire <= r.wire && Grows(m.ep, z.ep) && Grows(z.ep, r.ep) && n < |m.ep.sealed|
    requires n in m.ep.evicted || Transmitted(m, z, Answer(m.ep, n))
    ensures n in r.ep.evicted || (n < |r.ep.sealed| && Transmitted(x, r, Answer(r.ep, n)))
  {
    assert r.ep.sealed[n] == z.ep.sealed[n] == m.ep.sealed[n];
    if n !in m.ep.evicted {
      var k :| |m.wire| <= k < |z.wire| && z.wire[k].d == Answer(m.ep, n);
      assert r.wire[k] == z.wire[k];
    }
  }

  /** The sender has the answer out by the end of its turn, or had evicted the frame. */
  lemma RoundAnswers(l: Link, now: int, bound: nat, n: nat)
    requires Healthy(l, now, bound) && InReach(l, now) && n == l.y.ep.expected < l.x.ep.sendNonce
    requires Reached(l, now).ep.expected == n && Requested(Reached(l, now), Opening(l), n)
    ensures var x, r := Ticks(l.x, now), Replied(l, now);
            n in r.ep.evicted || (n < |r.ep.sealed| && Transmitted(x, r, Answer(r.ep, n)))
  {
    var y := Reached(l, now);
    var at: nat, q: nat :| Issued(y, Opening(l), at, q) && y.ep.sealed[q] == NackFrame(n);
    var m, z, rest := RoundHeeds(l, now, bound, at, q);
    BothTick(l, now, bound);
    NoncesInRound(l, now);
    RequestHeeded(m, y, z, q, n, now, bound);
    FedStaysOpen(z, y, rest, now, bound);
    AnswerStays(Ticks(l.x, now), m, z, Replied(l, now), n);
  }

  lemma TransmittedIsNews(x: Side, r: Side, d: Datagram) returns (k: nat)
    requires Transmitted(x, r, d) && x.wire <= r.wire
    ensures k < |News(r, |x.wire|)| && News(r, |x.wire|)[k] == d
  {
    var i :| |x.wire| <= i < |r.wire| && r.wire[i].d == d;
    k := i - |x.wire|;
  }

  /** And the answer closes the gap. */
  lemma RoundResolves(l: Link, now: int, bound: nat, n: nat)
    requires Healthy(l, now, bound) && Reached(l, now).ep.expected >= n && n < |Replied(l, now).ep.sealed|
    requires Transmitted(Ticks(l.x, now), Replied(l, now), Answer(Replied(l, now).ep, n))
    ensures Round(l, now).y.ep.expected > n
  {
    NoncesInRound(l, now);
    RepliedOpen(l, now, bound);
    ResolvedOpen(l, now, bound);
    OpenIsSymmetric(Replied(l, now), Reached(l, now), bound);
    var k := TransmittedIsNews(Ticks(l.x, now), Replied(l, now), Answer(Replied(l, now).ep, n));
    AnswerCloses(Reached(l, now), Replied(l, now), News(Replied(l, now), |Ticks(l.x, now).wire|), k, n, now, bound);
  }

  /**
   One round: if anything at or beyond the gap is on its way, or is put there by the
   sender's tick, the gap is closed by the end of it, or its frame had been evicted.
   */
  lemma RoundCloses(l: Link, now: int, bound: nat, k: nat)
    requires Healthy(l, now, bound) && InReach(l, now) && Since(now, l.y.ep.lastNackSent) >= MAX_EFFECTIVE_RTO
    requires l.y.ep.expected < l.x.ep.sendNonce
    requires var ds := News(Ticks(l.x, now), l.sent); k < |ds| && ds[k].Datagram? && ds[k].nonce >= l.y.ep.expected
    ensures Round(l, now).y.ep.expected > l.y.ep.expected || l.y.ep.expected in Round(l, now).x.ep.evicted
  {
    var n := l.y.ep.expected;
    RoundActs(l, now, bound, k);
    ResolvedOpen(l, now, bound);
    RoundOpen(l, now, bound);
    if Reached(l, now).ep.expected == n {
      RoundAnswers(l, now, bound, n);
      if n !in Replied(l, now).ep.evicted { RoundResolves(l, now, bound, n); }
    }
  }

  // ---------- What has arrived is forgotten ----------

  /** Frames still to be resent by ticks are not older than `n`. */
  ghost predicate TrackedFrom(h: seq<SentFrame>, n: nat) {
    forall i :: 0 <= i < |h| && h[i].isRetransmittable ==> h[i].nonce >= n
  }

  lemma FollowsKeepsTracked(s: Endpoint, t: Endpoint, n: nat, now: int)
    requires Follows(s, t, now) && TrackedFrom(s.history, n)
    ensures TrackedFrom(t.history, n)
  {
    forall i | 0 <= i < |t.history| && t.history[i].isRetransmittable
      ensures t.history[i].nonce >= n
    {
      assert Known(s.history, s.sendNonce, t.history[i], now);
    }
  }

  /** An ACK that names everything below `n` is among what `y` put out since. */
  ghost predicate Confirmed(y: Side, from: Mark, n: nat) {
    exists at: nat, q: nat :: Issued(y, from, at, q) && y.ep.sealed[q].kind == Ack && NamesBelow(y.ep.sealed[q].payload, n)
  }

  lemma ConfirmedStays(y: Side, z: Side, from: Mark, n: nat)
    requires Confirmed(y, from, n) && y.wire <= z.wire && Grows(y.ep, z.ep)
    ensures Confirmed(z, from, n)
  {
    var at: nat, q: nat :| Issued(y, from, at, q) && y.ep.sealed[q].kind == Ack && NamesBelow(y.ep.sealed[q].payload, n);
    IssuedStays(y, z, from, at, q);
  }

  /** A copy of something received makes the receiver issue an ACK of everything below the gap. */
  lemma CopyIsAcked(y: Side, x: Side, d: Datagram, from: Mark, now: int, bound: nat)
    requires Open(y, x, bound) && Wired(x, d) && Past(y, from) && d.Datagram? && d.nonce < y.ep.expected
    requires Open(Moved(y, Occurs(Inbound(d)), now), x, bound) && Grows(y.ep, Moved(y, Occurs(Inbound(d)), now).ep)
    ensures var z := Moved(y, Occurs(Inbound(d)), now);
            z.ep.expected > y.ep.expected || Confirmed(z, from, y.ep.expected)
  {
    var z := Moved(y, Occurs(Inbound(d)), now);
    OpenHasHeadroom(y, x, bound);
    WiredCarries(y, x, d);
    DuplicateAcked(y.ep, d, now);
    if z.ep.expected <= y.ep.expected {
      var txs := Sends(OnEvent(y.ep, Inbound(d), now).1.action, now);
      var f := Frame(Ack, 0, BuildAckPayload(y.ep));
      SentIsSealed(y, x, z, txs, f);
      var at := IssuedNow(y, x, z, txs, f, from);
    }
  }

  /** Past the gap, or an ACK of everything below it has been put out. */
  ghost predicate Told(y: Side, from: Mark, n: nat) {
    y.ep.expected > n || Confirmed(y, from, n)
  }

  lemma FedTells(y: Side, x: Side, ds: seq<Datagram>, k: nat, from: Mark, n: nat, now: int, bound: nat)
    requires Open(y, x, bound) && FromWire(ds, x) && Fed(y, ds, now).ep.sendNonce <= bound && Past(y, from)
    requires k < |ds| && ds[k].Datagram? && ds[k].nonce < n <= y.ep.expected
    ensures Told(Fed(y, ds, now), from, n)
  {
    var m, z := FedReaches(y, x, ds, k, now, bound);
    if m.ep.expected == n { CopyIsAcked(m, x, ds[k], from, now, bound); }
    FedStaysOpen(z, x, ds[k + 1..], now, bound);
    if z.ep.expected <= n { ConfirmedStays(z, Fed(y, ds, now), from, n); }
  }

  lemma RoundTells(l: Link, now: int, bound: nat, k: nat)
    requires Healthy(l, now, bound)
    requires var ds := News(Ticks(l.x, now), l.sent); k < |ds| && ds[k].Datagram? && ds[k].nonce < l.y.ep.expected
    ensures Told(Reached(l, now), Opening(l), l.y.ep.expected)
  {
    NoncesInRound(l, now);
    BothTick(l, now, bound);
    ReachedOpen(l, now, bound);
    TickMovedPlace(l.y, now);
    FedTells(Ticks(l.y, now), Ticks(l.x, now), News(Ticks(l.x, now), l.sent), k, Opening(l), l.y.ep.expected, now, bound);
  }

  /** An ACK that arrives in the window takes everything it names out of the sender's history. */
  lemma AckHeeded(m: Side, y: Side, z: Side, q: nat, n: nat, now: int, bound: nat)
    requires Open(m, y, bound) && q < |y.ep.sealed| && y.ep.sealed[q].kind == Ack && NamesBelow(y.ep.sealed[q].payload, n)
    requires z == Moved(m, Occurs(Inbound(Seal(y.ep.cfg, q, y.ep.sealed[q]))), now) && n <= m.ep.sendNonce
    requires Mirrors(m.ep, y.ep.sealed[..q]) && q <= m.ep.expected + m.ep.cfg.maxReorder
    ensures NoneBelow(z.ep.history, n)
  {
    var f := y.ep.sealed[q];
    RecoverStep(m.ep, now);
    RecoverDelivers(m.ep, now, y.ep.sealed[..q]);
    SealedCarries(y.ep, m.ep, q, f);
    AckHeard(m.ep, Seal(y.ep.cfg, q, f), f, n, now);
  }

  lemma RestFollows(z: Side, ds: seq<Datagram>, n: nat, now: int)
    requires TrackedFrom(z.ep.history, n)
    ensures TrackedFrom(Fed(z, ds, now).ep.history, n)
  {
    FedFollows(z, ds, now);
    FollowsKeepsTracked(z.ep, Fed(z, ds, now).ep, n, now);
  }

  /** If a copy arrives, no tick resends anything below the gap any more. */
  lemma RoundClears(l: Link, now: int, bound: nat, k: nat)
    requires Healthy(l, now, bound) && InReach(l, now) && l.y.ep.expected <= l.x.ep.sendNonce
    requires var ds := News(Ticks(l.x, now), l.sent); k < |ds| && ds[k].Datagram? && ds[k].nonce < l.y.ep.expected
    ensures Round(l, now).y.ep.expected > l.y.ep.expected || TrackedFrom(Round(l, now).x.ep.history, l.y.ep.expected)
  {
    var n, y := l.y.ep.expected, Reached(l, now);
    RoundTells(l, now, bound, k);
    ResolvedOpen(l, now, bound);
    if y.ep.expected <= n {
      var at: nat, q: nat :|
        Issued(y, Opening(l), at, q) && y.ep.sealed[q].kind == Ack && NamesBelow(y.ep.sealed[q].payload, n);
      var m, z, rest := RoundHeeds(l, now, bound, at, q);
      BothTick(l, now, bound);
      AckHeeded(m, y, z, q, n, now, bound);
      RestFollows(z, rest, n, now);
      RestFollows(Replied(l, now), News(Resolved(l, now), |y.wire|), n, now);
    }
  }

  // ---------- What the tick resends ----------

  /** A frame at or beyond `n` that ticks may still resend, and room for an ACK. */
  ghost predicate Pressing(s: Endpoint, n: nat) {
    && (exists i :: 0 <= i < |s.history| && Presses(s.history[i], n, Grace(s.cfg)))
    && |s.history| < s.cfg.maxSentHistory
  }

  ghost predicate Presses(f: SentFrame, n: nat, grace: nat) {
    f.isRetransmittable && f.nonce >= n && f.retries <= grace
  }

  lemma AckIsAppended(s: Endpoint, now: int)
    requires BuildAckIfDue(s, now).1.Some? && |s.history| < s.cfg.maxSentHistory
    ensures var (a, ack) := BuildAckIfDue(s, now);
            a.history == s.history + [SentFrame(s.sendNonce, ack.value, now, 0, false)] && a.cfg == s.cfg
  {
  }

  lemma NothingAppended(s: Endpoint, now: int)
    requires BuildAckIfDue(s, now).1.None?
    ensures BuildAckIfDue(s, now).0.history == s.history && BuildAckIfDue(s, now).0.cfg == s.cfg
  {
  }

  lemma AppendedTracked(h: seq<SentFrame>, f: SentFrame)
    requires Ordered(h) && !f.isRetransmittable && forall i :: 0 <= i < |h| ==> h[i].nonce < f.nonce
    ensures Ordered(h + [f])
    ensures forall i :: 0 <= i < |h + [f]| && (h + [f])[i].isRetransmittable ==> (h + [f])[i] in h
  {
  }

  lemma AckKeepsTracked(s: Endpoint, now: int)
    requires SendInv(s) && |s.history| < s.cfg.maxSentHistory
    ensures var a := BuildAckIfDue(s, now).0;
            && s.history <= a.history && Ordered(a.history) && a.cfg == s.cfg
            && forall i :: 0 <= i < |a.history| && a.history[i].isRetransmittable ==> a.history[i] in s.history
  {
    var (a, ack) := BuildAckIfDue(s, now);
    if ack.Some? {
      AckIsAppended(s, now);
      AppendedTracked(s.history, SentFrame(s.sendNonce, ack.value, now, 0, false));
    } else {
      NothingAppended(s, now);
    }
  }

  /** After the resends, nothing tracked is older than the oldest. */
  lemma OldestBounds(h: seq<SentFrame>, k: nat, budget: nat, base: nat, now: int)
    requires Ordered(h) && Oldest(h, k)
    ensures TrackedFrom(AfterResend(h, budget, base, now), h[k].nonce)
  {
    var r := AfterResend(h, budget, base, now);
    forall i | 0 <= i < |r| && r[i].isRetransmittable
      ensures r[i].nonce >= h[k].nonce
    {
      assert r[i].nonce == h[i].nonce && h[i].isRetransmittable;
      if i != k { assert k < i; }
    }
  }

  lemma OldestAfter(a: Endpoint, i: nat, now: int) returns (k: nat)
    requires Ordered(a.history) && i < |a.history| && Presses(a.history[i], 0, Grace(a.cfg)) && AllSilent(a.history, now)
    ensures var h := EvictZombies(a).history; Oldest(h, k) && Ordered(h) && AllSilent(h, now)
  {
    var p := Living(Grace(a.cfg));
    WhereKept(a.history, p);
    WhereHolds(a.history, p, a.history[i]);
    StillSilent(a.history, p, now);
    var h := EvictZombies(a).history;
    var j :| 0 <= j < |h| && h[j] == a.history[i];
    k := SomeOldest(h, j);
  }

  /** The frame goes out, and nothing tracked that is left is older. */
  lemma ResendsOldest(a: Endpoint, k: nat, now: int)
    requires var h := EvictZombies(a).history; Oldest(h, k) && Ordered(h) && AllSilent(h, now)
    ensures var h, (t, resends) := EvictZombies(a).history, Retransmit(a, now);
            Sent(AllSends(resends, now), h[k].bytes) && TrackedFrom(t.history, h[k].nonce)
  {
    var h, base, budget := EvictZombies(a).history, BaseRtoMs(a), a.cc.RetransmitBudget();
    NoneDue(h, k, base, now);
    CongestionProofs.BudgetBounded(a.cc);
    ChosenIsSent(h, |h|, k, budget, base, now);
    OldestBounds(h, k, budget, base, now);
  }

  lemma TickSends(s: Endpoint, d: Datagram, now: int)
    requires Sent(AllSends(Retransmit(BuildAckIfDue(s, now).0, now).1, now), d)
    ensures Sent(Sends(HandleTick(s, now).1.action, now), d)
  {
    var (a, ack) := BuildAckIfDue(s, now);
    var resends := Retransmit(a, now).1;
    CollateMeaning(OptionalSend(ack) + resends, now);
    AllSendsConcat(OptionalSend(ack), resends, now);
    SentConcat(AllSends(OptionalSend(ack), now), AllSends(resends, now), d);
  }

  /** A tick on silent frames resends the oldest that is not worn out, and gives the worn out up. */
  lemma TickResends(s: Endpoint, n: nat, now: int) returns (g: SentFrame)
    requires SendInv(s) && Pressing(s, n) && AllSilent(s.history, now)
    ensures g in s.history && g.isRetransmittable
    ensures Sent(Sends(HandleTick(s, now).1.action, now), g.bytes) && TrackedFrom(HandleTick(s, now).0.history, g.nonce)
  {
    var i :| 0 <= i < |s.history| && Presses(s.history[i], n, Grace(s.cfg));
    AckKeepsTracked(s, now);
    var a := BuildAckIfDue(s, now).0;
    assert a.history[i] == s.history[i];
    var k := OldestAfter(a, i, now);
    g := EvictZombies(a).history[k];
    WhereMember(a.history, Living(Grace(a.cfg)), k);
    ResendsOldest(a, k, now);
    TickSends(s, g.bytes, now);
  }

  lemma HeldIsSealed(s: Endpoint, g: SentFrame)
    requires SendInv(s) && g in s.history
    ensures g.bytes.Datagram? && g.bytes.nonce == g.nonce
  {
    var j :| 0 <= j < |s.history| && s.history[j] == g;
  }

  lemma TickNews(x: Side, sent: nat, d: Datagram, now: int) returns (k: nat)
    requires sent <= |x.wire| && x.ep.state == Established && Sent(Sends(HandleTick(x.ep, now).1.action, now), d)
    ensures var ds := News(Ticks(x, now), sent); k < |ds| && ds[k] == d
  {
    var txs := Sends(HandleTick(x.ep, now).1.action, now);
    var i :| 0 <= i < |txs| && txs[i].d == d;
    k := |x.wire| + i - sent;
    assert Ticks(x, now).wire == x.wire + txs;
  }

  /** So something arrives in the round: a copy, or a frame at or beyond the gap with nothing tracked before it. */
  lemma RoundResends(l: Link, now: int, bound: nat, n: nat) returns (k: nat)
    requires Healthy(l, now, bound) && Pressing(l.x.ep, n) && AllSilent(l.x.ep.history, now)
    ensures var ds := News(Ticks(l.x, now), l.sent);
            && k < |ds| && ds[k].Datagram? && TrackedFrom(Ticks(l.x, now).ep.history, ds[k].nonce)
            && (TrackedFrom(l.x.ep.history, n) ==> ds[k].nonce >= n)
  {
    var g := TickResends(l.x.ep, n, now);
    TickMoved(l.x, now);
    HeldIsSealed(l.x.ep, g);
    k := TickNews(l.x, l.sent, g.bytes, now);
  }

  // ---------- Two rounds ----------

  lemma {:induction false} FedStamps(y: Side, ds: seq<Datagram>, now: int)
    ensures StampedAt(y.ep, Fed(y, ds, now).ep, now)
    decreases |ds|
  {
    if ds != [] {
      EventStamps(y.ep, Inbound(ds[0]), now);
      FedStamps(Moved(y, Occurs(Inbound(ds[0])), now), ds[1..], now);
    }
  }

  lemma RoundStamps(l: Link, now: int)
    requires Proper(l)
    ensures StampedAt(l.y.ep, Round(l, now).y.ep, now)
  {
    EventStamps(l.y.ep, Tick, now);
    FedStamps(Ticks(l.y, now), News(Ticks(l.x, now), l.sent), now);
    FedStamps(Reached(l, now), News(Replied(l, now), |Ticks(l.x, now).wire|), now);
  }

  lemma RoundFollows(l: Link, now: int)
    requires Proper(l)
    ensures Follows(l.x.ep, Ticks(l.x, now).ep, now) && Follows(Ticks(l.x, now).ep, Round(l, now).x.ep, now)
  {
    var x, r := Ticks(l.x, now), Replied(l, now);
    TickNonce(l.x, now);
    FedFollows(x, News(Reached(l, now), |l.y.wire|), now);
    FedFollows(r, News(Resolved(l, now), |Reached(l, now).wire|), now);
    FollowsTransitive(x.ep, r.ep, Round(l, now).x.ep, now);
  }

  lemma FollowsKeepsSilent(s: Endpoint, t: Endpoint, now: int, later: int)
    requires Follows(s, t, now) && AllSilent(s.history, now) && now + MAX_EFFECTIVE_RTO <= later
    ensures AllSilent(t.history, later)
  {
    forall i | 0 <= i < |t.history| && t.history[i].isRetransmittable
      ensures t.history[i].lastSent + MAX_EFFECTIVE_RTO <= later
    {
      assert Known(s.history, s.sendNonce, t.history[i], now);
    }
  }

  /** After one round nothing tracked is older than the gap. */
  lemma RoundSettles(l: Link, now: int, bound: nat)
    requires Healthy(l, now, bound) && InReach(l, now) && l.y.ep.expected < l.x.ep.sendNonce
    requires Pressing(l.x.ep, l.y.ep.expected) && AllSilent(l.x.ep.history, now)
    ensures Round(l, now).y.ep.expected > l.y.ep.expected || TrackedFrom(Round(l, now).x.ep.history, l.y.ep.expected)
  {
    var n := l.y.ep.expected;
    var k := RoundResends(l, now, bound, n);
    if News(Ticks(l.x, now), l.sent)[k].nonce < n {
      RoundClears(l, now, bound, k);
    } else {
      RoundFollows(l, now);
      FollowsKeepsTracked(Ticks(l.x, now).ep, Round(l, now).x.ep, n, now);
    }
  }

  /** Eight seconds after one round the next can resend and ask again. */
  lemma NextReady(l: Link, now1: int, now2: int)
    requires Proper(l) && AllSilent(l.x.ep.history, now1)
    requires l.y.ep.lastNackSent <= now1 && now1 + MAX_EFFECTIVE_RTO <= now2
    ensures AllSilent(Round(l, now1).x.ep.history, now2) && l.x.ep.sendNonce <= Round(l, now1).x.ep.sendNonce
    ensures Since(now2, Round(l, now1).y.ep.lastNackSent) >= MAX_EFFECTIVE_RTO
  {
    RoundFollows(l, now1);
    FollowsTransitive(l.x.ep, Ticks(l.x, now1).ep, Round(l, now1).x.ep, now1);
    FollowsKeepsSilent(l.x.ep, Round(l, now1).x.ep, now1, now2);
    RoundStamps(l, now1);
  }

  /** A round with an unexhausted frame at or beyond `n` to resend, and both sides within reach of each other. */
  ghost predicate Ready(l: Link, n: nat, now: int, bound: nat) {
    Bounded(l, now, bound) && InReach(l, now) && Pressing(l.x.ep, n)
  }

  /** Two rounds far enough apart, the second only if the first has not closed the gap. */
  ghost predicate TwoRounds(l: Link, n: nat, now1: int, now2: int, bound: nat) {
    && Ready(l, n, now1, bound) && AllSilent(l.x.ep.history, now1)
    && l.y.ep.lastNackSent <= now1 && now1 + MAX_EFFECTIVE_RTO <= now2
    && (Round(l, now1).y.ep.expected <= n ==> Ready(Round(l, now1), n, now2, bound))
  }

  /** Past `n` after one round or after two, or the frame was given up. */
  ghost predicate ClosedInTwo(l: Link, n: nat, now1: int, now2: int)
    requires Proper(l)
  {
    var end := Round(Round(l, now1), now2);
    Round(l, now1).y.ep.expected > n || end.y.ep.expected > n || n in end.x.ep.evicted
  }

  lemma StillAtGap(l: Link, now: int, bound: nat)
    requires Healthy(l, now, bound)
    ensures l.y.ep.expected <= Round(l, now).y.ep.expected
  {
    BothTick(l, now, bound);
    ReachedOpen(l, now, bound);
    ResolvedOpen(l, now, bound);
  }

  lemma TwoRoundsClose(l: Link, now1: int, now2: int, bound: nat)
    requires Open(l.x, l.y, bound) && l.y.ep.expected < l.x.ep.sendNonce && TwoRounds(l, l.y.ep.expected, now1, now2, bound)
    ensures ClosedInTwo(l, l.y.ep.expected, now1, now2)
  {
    var n, l2 := l.y.ep.expected, Round(l, now1);
    if l2.y.ep.expected <= n {
      RoundSettles(l, now1, bound);
      NextReady(l, now1, now2);
      RoundOpen(l, now1, bound);
      StillAtGap(l, now1, bound);
      var k := RoundResends(l2, now2, bound, n);
      RoundCloses(l2, now2, bound, k);
    }
  }

  /**
   Whatever has been lost before, in whatever state a run has reached: if from now on
   everything transmitted arrives, and at the start of each round the sender has an
   unexhausted frame at or beyond the gap to resend, the gap is closed within two
   rounds, or its frame had been evicted. The first round may be spent on a frame the
   receiver already has.
   */
  lemma ClosesWithinTwoRounds(run: seq<World>, first: bool, sent: nat, now1: int, now2: int, bound: nat)
    requires Run(run)
    requires var x, y := Sender(first, run[|run| - 1]), Receiver(first, run[|run| - 1]);
             && Live(x.ep, y.ep, bound) && y.ep.expected < x.ep.sendNonce
             && TwoRounds(Link(x, y, sent), y.ep.expected, now1, now2, bound)
    ensures var x, y := Sender(first, run[|run| - 1]), Receiver(first, run[|run| - 1]);
            ClosedInTwo(Link(x, y, sent), y.ep.expected, now1, now2)
  {
    var w := run[|run| - 1];
    RunKeeps(run, |run| - 1);
    PairIsSymmetric(w.a, w.b);
    TwoRoundsClose(Link(Sender(first, w), Receiver(first, w), sent), now1, now2, bound);
  }

  // ---------- A round is a piece of a run ----------

  /** The side that acts, and the other, at the end of a run. */
  function Both(first: bool, senderActs: bool, run: seq<World>): (Side, Side)
    requires run != []
  {
    var x, y := Sender(first, run[|run| - 1]), Receiver(first, run[|run| - 1]);
    if senderActs then (x, y) else (y, x)
  }

  /** A run that can be continued at `now`. */
  ghost predicate RunUntil(run: seq<World>, now: int) { Run(run) && run[|run| - 1].now <= now }

  lemma MoveGoesOn(run: seq<World>, first: bool, senderActs: bool, m: Move, now: int) returns (longer: seq<World>)
    requires RunUntil(run, now) && var (x, y) := Both(first, senderActs, run); Allowed(x, y, m)
    ensures RunUntil(longer, now) && run <= longer
    ensures var (x, y) := Both(first, senderActs, run); Both(first, senderActs, longer) == (Moved(x, m, now), y)
  {
    var (x, y) := Both(first, senderActs, run);
    var w := ActsGoOn(run, first, senderActs, m, now, Moved(x, m, now));
    longer := run + [w];
  }

  lemma ArrivalGoesOn(run: seq<World>, first: bool, senderActs: bool, d: Datagram, now: int, bound: nat)
    returns (longer: seq<World>)
    requires RunUntil(run, now) && var (x, y) := Both(first, senderActs, run); Open(x, y, bound) && Wired(y, d)
    ensures RunUntil(longer, now) && run <= longer
    ensures var (x, y) := Both(first, senderActs, run);
            Both(first, senderActs, longer) == (Moved(x, Occurs(Inbound(d)), now), y)
  {
    var (x, y) := Both(first, senderActs, run);
    OpenHasHeadroom(x, y, bound);
    WireArrives(x, y, d);
    longer := MoveGoesOn(run, first, senderActs, Occurs(Inbound(d)), now);
  }

  /** Feeding one side goes on from a run; the other side does not move. */
  lemma {:induction false} FedGoesOn(run: seq<World>, first: bool, senderActs: bool, x: Side, y: Side, ds: seq<Datagram>,
                                     now: int, bound: nat)
    returns (longer: seq<World>)
    requires RunUntil(run, now) && Both(first, senderActs, run) == (x, y)
    requires Open(x, y, bound) && FromWire(ds, y) && Fed(x, ds, now).ep.sendNonce <= bound
    ensures RunUntil(longer, now) && run <= longer && Both(first, senderActs, longer) == (Fed(x, ds, now), y)
    decreases |ds|
  {
    longer := run;
    if ds != [] {
      var m := FedStep(x, y, ds, now, bound);
      longer := ArrivalGoesOn(run, first, senderActs, ds[0], now, bound);
      longer := FedGoesOn(longer, first, senderActs, m, y, ds[1..], now, bound);
    }
  }

  /** Where the sides stand after each turn of a round: both ticks, and the four deliveries. */
  ghost predicate At(run: seq<World>, first: bool, x: Side, y: Side, now: int) {
    RunUntil(run, now) && Both(first, true, run) == (x, y)
  }

  lemma TicksGoOn(run: seq<World>, first: bool, l: Link, now: int, bound: nat) returns (longer: seq<World>)
    requires Healthy(l, now, bound) && At(run, first, l.x, l.y, now)
    ensures At(longer, first, Ticks(l.x, now), Ticks(l.y, now), now) && run <= longer
  {
    OpenHasHeadroom(l.x, l.y, bound);
    OpenIsSymmetric(l.x, l.y, bound);
    OpenHasHeadroom(l.y, l.x, bound);
    longer := MoveGoesOn(run, first, true, Occurs(Tick), now);
    longer := MoveGoesOn(longer, first, false, Occurs(Tick), now);
  }

  lemma ReachedGoesOn(run: seq<World>, first: bool, l: Link, now: int, bound: nat) returns (longer: seq<World>)
    requires Healthy(l, now, bound) && At(run, first, Ticks(l.x, now), Ticks(l.y, now), now)
    ensures At(longer, first, Ticks(l.x, now), Reached(l, now), now) && run <= longer
  {
    NoncesInRound(l, now);
    BothTick(l, now, bound);
    ReachedOpen(l, now, bound);
    longer := FedGoesOn(run, first, false, Ticks(l.y, now), Ticks(l.x, now), News(Ticks(l.x, now), l.sent), now, bound);
  }

  lemma RepliedGoesOn(run: seq<World>, first: bool, l: Link, now: int, bound: nat) returns (longer: seq<World>)
    requires Healthy(l, now, bound) && At(run, first, Ticks(l.x, now), Reached(l, now), now)
    ensures At(longer, first, Replied(l, now), Reached(l, now), now) && run <= longer
  {
    NoncesInRound(l, now);
    ReachedOpen(l, now, bound);
    OpenIsSymmetric(Reached(l, now), Ticks(l.x, now), bound);
    RepliedOpen(l, now, bound);
    longer := FedGoesOn(run, first, true, Ticks(l.x, now), Reached(l, now), News(Reached(l, now), |l.y.wire|), now, bound);
  }

  lemma ResolvedGoesOn(run: seq<World>, first: bool, l: Link, now: int, bound: nat) returns (longer: seq<World>)
    requires Healthy(l, now, bound) && At(run, first, Replied(l, now), Reached(l, now), now)
    ensures At(longer, first, Replied(l, now), Resolved(l, now), now) && run <= longer
  {
    RepliedOpen(l, now, bound);
    OpenIsSymmetric(Replied(l, now), Reached(l, now), bound);
    ResolvedOpen(l, now, bound);
    longer := FedGoesOn(run, first, false, Reached(l, now), Replied(l, now),
                        News(Replied(l, now), |Ticks(l.x, now).wire|), now, bound);
  }

  lemma LastGoesOn(run: seq<World>, first: bool, l: Link, now: int, bound: nat) returns (longer: seq<World>)
    requires Healthy(l, now, bound) && At(run, first, Replied(l, now), Resolved(l, now), now)
    ensures At(longer, first, Round(l, now).x, Round(l, now).y, now) && run <= longer
  {
    ResolvedOpen(l, now, bound);
    OpenIsSymmetric(Resolved(l, now), Replied(l, now), bound);
    NewsFromWire(Resolved(l, now), |Reached(l, now).wire|, Resolved(l, now));
    longer := FedGoesOn(run, first, true, Replied(l, now), Resolved(l, now),
                        News(Resolved(l, now), |Reached(l, now).wire|), now, bound);
  }

  /** Each round is a piece of a run: ticks, and arrivals of what the other side has on its wire. */
  lemma RoundGoesOn(run: seq<World>, first: bool, l: Link, now: int, bound: nat) returns (longer: seq<World>)
    requires Healthy(l, now, bound) && At(run, first, l.x, l.y, now)
    ensures At(longer, first, Round(l, now).x, Round(l, now).y, now) && run <= longer
  {
    longer := TicksGoOn(run, first, l, now, bound);
    longer := ReachedGoesOn(longer, first, l, now, bound);
    longer := RepliedGoesOn(longer, first, l, now, bound);
    longer := ResolvedGoesOn(longer, first, l, now, bound);
    longer := LastGoesOn(longer, first, l, now, bound);
  }

  // ---------- When nothing is owed ----------

  lemma QuietTick(x: Side, now: int)
    requires !Owes(x.ep) && x.ep.state == Established
    ensures var t := Ticks(x, now);
            t.wire == x.wire && !Owes(t.ep) && t.ep.state == Established && t.ep.expected == x.ep.expected
  {
    OwingNothing(x.ep, now);
    TickMoved(x, now);
    TickKeepsPlace(x.ep, now);
  }

  /** With nothing owed and nothing on its way a round closes no gap, and leaves nothing owed or on its way. */
  lemma QuietRound(l: Link, now: int)
    requires Proper(l) && l.sent == |l.x.wire| && !Owes(l.x.ep) && !Owes(l.y.ep)
    requires l.x.ep.state == Established && l.y.ep.state == Established
    ensures var r := Round(l, now);
            && r.sent == |r.x.wire| && r.x.wire == l.x.wire && r.y.wire == l.y.wire
            && !Owes(r.x.ep) && !Owes(r.y.ep) && r.y.ep.expected == l.y.ep.expected && r.x.ep.expected == l.x.ep.expected
  {
    QuietTick(l.x, now);
    QuietTick(l.y, now);
    assert News(Ticks(l.x, now), l.sent) == [];
    assert News(Reached(l, now), |l.y.wire|) == [];
    assert News(Replied(l, now), |Ticks(l.x, now).wire|) == [];
    assert News(Resolved(l, now), |Reached(l, now).wire|) == [];
  }
}
