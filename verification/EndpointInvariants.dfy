/**
 What every operation of an endpoint keeps, whatever arrives: the send history is
 ordered and byte-faithful, every nonce used is accounted for, the reorder buffer
 stays inside its window, every ACK sealed so far is still true, and no frame
 measured for RTT has been transmitted twice.
 */
module EndpointInvariants {
  import opened Basics
  import opened Wire
  import opened Endpoint

  // ---------- What an action puts on the wire and hands to the application ----------

  datatype Tx = Tx(d: Datagram, at: int)
  datatype Delivery = Delivery(stream: nat, payload: Bytes)

  function Sends(a: Action, now: int): seq<Tx>
    decreases a, 0
  {
    match a
    case SendDatagram(d) => [Tx(d, now)]
    case Multiple(list) => AllSends(list, now)
    case _ => []
  }

  function AllSends(list: seq<Action>, now: int): seq<Tx>
    decreases list, 1
  {
    if list == [] then [] else AllSends(list[..|list| - 1], now) + Sends(list[|list| - 1], now)
  }

  function Deliveries(a: Action): seq<Delivery>
    decreases a, 0
  {
    match a
    case DeliverApp(stream, payload) => [Delivery(stream, payload)]
    case Multiple(list) => AllDeliveries(list)
    case _ => []
  }

  function AllDeliveries(list: seq<Action>): seq<Delivery>
    decreases list, 1
  {
    if list == [] then [] else AllDeliveries(list[..|list| - 1]) + Deliveries(list[|list| - 1])
  }

  lemma {:induction false} AllSendsConcat(a: seq<Action>, b: seq<Action>, now: int)
    ensures AllSends(a + b, now) == AllSends(a, now) + AllSends(b, now)
  {
    if b == [] {
      assert a + b == a;
    } else {
      assert (a + b)[..|a + b| - 1] == a + b[..|b| - 1];
      AllSendsConcat(a, b[..|b| - 1], now);
    }
  }

  lemma {:induction false} AllDeliveriesConcat(a: seq<Action>, b: seq<Action>)
    ensures AllDeliveries(a + b) == AllDeliveries(a) + AllDeliveries(b)
  {
    if b == [] {
      assert a + b == a;
    } else {
      assert (a + b)[..|a + b| - 1] == a + b[..|b| - 1];
      AllDeliveriesConcat(a, b[..|b| - 1]);
    }
  }

  lemma SingleAction(a: Action, now: int)
    ensures AllSends([a], now) == Sends(a, now) && AllDeliveries([a]) == Deliveries(a)
  {
    assert [a][..0] == [];
    assert AllSends([a], now) == AllSends([], now) + Sends(a, now);
    assert AllDeliveries([a]) == AllDeliveries([]) + Deliveries(a);
  }

  lemma CollateMeaning(actions: seq<Action>, now: int)
    ensures Sends(Collate(actions), now) == AllSends(actions, now)
    ensures Deliveries(Collate(actions)) == AllDeliveries(actions)
  {
    if |actions| == 1 {
      SingleAction(actions[0], now);
      assert actions == [actions[0]];
    }
  }

  // ---------- When a datagram was transmitted ----------

  /** The instants at which exactly these bytes went out. */
  function Times(wire: seq<Tx>, d: Datagram): seq<int> {
    if wire == [] then []
    else Times(wire[..|wire| - 1], d) + if wire[|wire| - 1].d == d then [wire[|wire| - 1].at] else []
  }

  lemma {:induction false} TimesConcat(a: seq<Tx>, b: seq<Tx>, d: Datagram)
    ensures Times(a + b, d) == Times(a, d) + Times(b, d)
  {
    if b == [] {
      assert a + b == a;
    } else {
      assert (a + b)[..|a + b| - 1] == a + b[..|b| - 1];
      TimesConcat(a, b[..|b| - 1], d);
    }
  }

  lemma {:induction false} NeverSent(wire: seq<Tx>, d: Datagram)
    requires forall i :: 0 <= i < |wire| ==> wire[i].d != d
    ensures Times(wire, d) == []
  {
    if wire != [] { NeverSent(wire[..|wire| - 1], d); }
  }

  // ---------- The invariant ----------

  ghost predicate Ordered(h: seq<SentFrame>) {
    forall i, j :: 0 <= i < j < |h| ==> h[i].nonce < h[j].nonce
  }

  /** Every frame kept is, byte for byte, what its nonce sealed. */
  ghost predicate Faithful(s: Endpoint, h: seq<SentFrame>)
    requires |s.sealed| == s.sendNonce
  {
    forall i :: 0 <= i < |h| ==>
      h[i].nonce < s.sendNonce && h[i].bytes == Seal(s.cfg, h[i].nonce, s.sealed[h[i].nonce])
  }

  ghost predicate Accounted(s: Endpoint) {
    && (forall n :: 0 <= n < s.sendNonce ==> n in Nonces(s.history) || n in s.evicted || n in s.acked)
    && (forall n :: n in s.acked || n in s.evicted ==> n < s.sendNonce)
  }

  ghost predicate SendInv(s: Endpoint) {
    && |s.sealed| == s.sendNonce
    && Ordered(s.history)
    && Faithful(s, s.history)
    && |s.history| <= s.cfg.maxSentHistory
    && Accounted(s)
  }

  ghost predicate Plain(a: Action) { a.DeliverApp? || a.Noop? }

  ghost predicate RecvInv(s: Endpoint) {
    && |s.fates| == s.expected
    && (forall k :: k in s.reorder ==> s.expected < k <= s.expected + s.cfg.maxReorder && Plain(s.reorder[k]))
    && |s.reorder| <= s.cfg.maxReorderBuffer
  }

  ghost predicate Received(s: Endpoint, n: nat) {
    n < s.expected || n in s.reorder
  }

  ghost predicate TrueAck(s: Endpoint, payload: Bytes) {
    ParseAck(payload).Some? && forall n: nat :: InRanges(n, ParseAck(payload).value) ==> Received(s, n)
  }

  ghost predicate AcksTrue(s: Endpoint) {
    forall n :: 0 <= n < |s.sealed| && s.sealed[n].kind == Ack ==> TrueAck(s, s.sealed[n].payload)
  }

  ghost predicate Inv(s: Endpoint) {
    s.cfg.Valid() && SendInv(s) && RecvInv(s) && AcksTrue(s)
  }

  /** Nonces are far enough from 2^64 that one event cannot exhaust them. */
  ghost predicate Headroom(s: Endpoint) {
    s.sendNonce + 4 <= U64_MAX && s.expected + 2 * s.cfg.maxReorder + 4 <= U64_MAX
  }

  // ---------- How an endpoint may evolve ----------

  ghost predicate Grows(s: Endpoint, t: Endpoint) {
    && t.cfg == s.cfg
    && s.sealed <= t.sealed && s.sendNonce <= t.sendNonce
    && s.evicted <= t.evicted && s.acked <= t.acked
    && s.fates <= t.fates && s.expected <= t.expected
    && forall n: nat :: Received(s, n) ==> Received(t, n)
  }

  /** `d` carries some nonce this endpoint has sealed. */
  ghost predicate IsSealed(t: Endpoint, d: Datagram) {
    exists n :: 0 <= n < |t.sealed| && d == Seal(t.cfg, n, t.sealed[n])
  }

  /**
   What was put on the wire while `s` became `t`: only sealed frames; a frame never
   retransmitted is either new, sent once at its recorded instant, or old and not
   sent at all.
   */
  ghost predicate Transmits(s: Endpoint, t: Endpoint, txs: seq<Tx>) {
    && (forall i :: 0 <= i < |txs| ==> IsSealed(t, txs[i].d))
    && (forall i :: 0 <= i < |t.history| && t.history[i].retries == 0 ==>
         var f := t.history[i];
         if f.nonce < s.sendNonce then f in s.history && Times(txs, f.bytes) == []
         else Times(txs, f.bytes) == [f.lastSent])
  }

  lemma GrowsTransitive(s: Endpoint, t: Endpoint, u: Endpoint)
    requires Grows(s, t) && Grows(t, u)
    ensures Grows(s, u)
  {
  }

  lemma StillSealed(s: Endpoint, t: Endpoint, d: Datagram)
    requires t.cfg == s.cfg && s.sealed <= t.sealed && IsSealed(s, d)
    ensures IsSealed(t, d)
  {
    var n :| 0 <= n < |s.sealed| && d == Seal(s.cfg, n, s.sealed[n]);
    assert t.sealed[n] == s.sealed[n];
  }

  lemma TransmitsTransitive(s: Endpoint, t: Endpoint, u: Endpoint, a: seq<Tx>, b: seq<Tx>)
    requires SendInv(s) && SendInv(t) && SendInv(u)
    requires Grows(s, t) && Grows(t, u) && Transmits(s, t, a) && Transmits(t, u, b)
    ensures Transmits(s, u, a + b)
  {
    forall i | 0 <= i < |a + b|
      ensures IsSealed(u, (a + b)[i].d)
    {
      if i < |a| {
        StillSealed(t, u, a[i].d);
      } else {
        assert (a + b)[i] == b[i - |a|];
      }
    }
    forall i | 0 <= i < |u.history| && u.history[i].retries == 0
      ensures var f := u.history[i];
              if f.nonce < s.sendNonce then f in s.history && Times(a + b, f.bytes) == []
              else Times(a + b, f.bytes) == [f.lastSent]
    {
      var f := u.history[i];
      TimesConcat(a, b, f.bytes);
      if f.nonce < t.sendNonce {
        var j :| 0 <= j < |t.history| && t.history[j] == f;
      } else {
        forall k | 0 <= k < |a|
          ensures a[k].d != f.bytes
        {
          assert IsSealed(t, a[k].d);
        }
        NeverSent(a, f.bytes);
      }
    }
  }

  /** An operation that touches neither the send state nor what was received. */
  ghost predicate SameSend(s: Endpoint, t: Endpoint) {
    && t.cfg == s.cfg && t.sendNonce == s.sendNonce && t.sealed == s.sealed
    && t.history == s.history && t.evicted == s.evicted && t.acked == s.acked
  }

  ghost predicate SameRecv(s: Endpoint, t: Endpoint) {
    t.cfg == s.cfg && t.expected == s.expected && t.reorder == s.reorder && t.fates == s.fates
  }

  lemma SameSendKeeps(s: Endpoint, t: Endpoint)
    requires SendInv(s) && SameSend(s, t)
    ensures SendInv(t) && Transmits(s, t, [])
  {
    forall i | 0 <= i < |t.history| && t.history[i].retries == 0
      ensures t.history[i] in s.history && Times([], t.history[i].bytes) == []
    {
      assert t.history[i] == s.history[i];
    }
  }

  lemma StillTrue(s: Endpoint, t: Endpoint, payload: Bytes)
    requires Grows(s, t) && TrueAck(s, payload)
    ensures TrueAck(t, payload)
  {
  }

  /** Everything held is the state of one step; `Step` names it once. */
  ghost predicate Step(s: Endpoint, t: Endpoint, txs: seq<Tx>) {
    Inv(t) && Grows(s, t) && Transmits(s, t, txs)
  }

  lemma StepTransitive(s: Endpoint, t: Endpoint, u: Endpoint, a: seq<Tx>, b: seq<Tx>)
    requires Inv(s) && Step(s, t, a) && Step(t, u, b)
    ensures Step(s, u, a + b)
  {
    GrowsTransitive(s, t, u);
    TransmitsTransitive(s, t, u, a, b);
  }

  lemma QuietStep(s: Endpoint, t: Endpoint)
    requires Inv(s) && SameSend(s, t) && SameRecv(s, t)
    ensures Step(s, t, [])
  {
    SameSendKeeps(s, t);
  }

  // ---------- Building a datagram ----------

  lemma BuildStep(s: Endpoint, f: Frame, tracked: bool, now: int)
    requires Inv(s)
    requires f.kind == Ack ==> TrueAck(s, f.payload)
    ensures Step(s, Build(s, f, tracked, now).0, [Tx(Build(s, f, tracked, now).1, now)])
    ensures SameRecv(s, Build(s, f, tracked, now).0)
    ensures Build(s, f, tracked, now).1 == Seal(s.cfg, s.sendNonce, f)
  {
    var (t, d) := Build(s, f, tracked, now);
    assert Grows(s, t);
    BuildSendInv(s, f, tracked, now);
    forall n | 0 <= n < |t.sealed| && t.sealed[n].kind == Ack
      ensures TrueAck(t, t.sealed[n].payload)
    {
      StillTrue(s, t, t.sealed[n].payload);
    }
    BuildTransmits(s, f, tracked, now);
  }

  lemma NoncesAppend(h: seq<SentFrame>, f: SentFrame)
    ensures Nonces(h + [f]) == Nonces(h) + {f.nonce}
  {
    SplitNonces(h + [f], |h|);
    assert (h + [f])[..|h|] == h && (h + [f])[|h|..] == [f];
    assert Nonces([f]) == {f.nonce} by {
      assert [f][0].nonce == f.nonce;
    }
  }

  lemma BuildAccounts(s: Endpoint, sent: SentFrame, k: nat)
    requires SendInv(s) && sent.nonce == s.sendNonce && k <= |s.history| + 1
    ensures var full := s.history + [sent];
            && (forall n :: 0 <= n <= s.sendNonce ==>
                 n in Nonces(full[k..]) || n in s.evicted + Nonces(full[..k]) || n in s.acked)
            && (forall n :: n in Nonces(full[..k]) ==> n <= s.sendNonce)
  {
    NoncesAppend(s.history, sent);
    SplitNonces(s.history + [sent], k);
  }

  lemma BuildSendInv(s: Endpoint, f: Frame, tracked: bool, now: int)
    requires SendInv(s)
    ensures SendInv(Build(s, f, tracked, now).0)
  {
    var (t, d) := Build(s, f, tracked, now);
    var sent := SentFrame(s.sendNonce, d, now, 0, tracked);
    var full := s.history + [sent];
    BuildAccounts(s, sent, Overflow(full, s.cfg.maxSentHistory));
    assert Ordered(full) && Faithful(t, full);
  }

  lemma SplitNonces(h: seq<SentFrame>, k: nat)
    requires k <= |h|
    ensures Nonces(h) == Nonces(h[..k]) + Nonces(h[k..])
  {
    forall n | n in Nonces(h)
      ensures n in Nonces(h[..k]) + Nonces(h[k..])
    {
      var i :| 0 <= i < |h| && h[i].nonce == n;
      if i < k { assert h[..k][i].nonce == n; } else { assert h[k..][i - k].nonce == n; }
    }
    forall n | n in Nonces(h[..k]) + Nonces(h[k..])
      ensures n in Nonces(h)
    {
      if n in Nonces(h[..k]) {
        var i :| 0 <= i < k && h[..k][i].nonce == n;
        assert h[i].nonce == n;
      } else {
        var i :| 0 <= i < |h| - k && h[k..][i].nonce == n;
        assert h[i + k].nonce == n;
      }
    }
  }

  lemma BuildTransmits(s: Endpoint, f: Frame, tracked: bool, now: int)
    requires SendInv(s)
    ensures var (t, d) := Build(s, f, tracked, now); Transmits(s, t, [Tx(d, now)])
  {
    var (t, d) := Build(s, f, tracked, now);
    var txs := [Tx(d, now)];
    assert t.sealed[s.sendNonce] == f && t.cfg == s.cfg;
    assert txs[0].d == Seal(t.cfg, s.sendNonce, t.sealed[s.sendNonce]);
    forall i | 0 <= i < |t.history| && t.history[i].retries == 0
      ensures var g := t.history[i];
              if g.nonce < s.sendNonce then g in s.history && Times(txs, g.bytes) == [] else Times(txs, g.bytes) == [g.lastSent]
    {
      var g := t.history[i];
      var full := s.history + [SentFrame(s.sendNonce, d, now, 0, tracked)];
      var j := i + Overflow(full, s.cfg.maxSentHistory);
      assert g == full[j];
      assert txs == [] + [Tx(d, now)];
      TimesConcat([], [Tx(d, now)], g.bytes);
      if j < |s.history| {
        assert g == s.history[j];
        NeverSent(txs, g.bytes);
      }
    }
  }
}
