/** Every operation of an endpoint keeps the invariant and evolves the endpoint as `Step` says. */
module EndpointSteps {
  import opened Basics
  import opened Wire
  import opened Endpoint
  import opened EndpointInvariants

  /** `h` with some frames left out, and possibly others changed in place. */
  ghost predicate Kept(h: seq<SentFrame>, kept: seq<SentFrame>) {
    Ordered(kept) && forall i :: 0 <= i < |kept| ==> kept[i] in h
  }

  /** Removing frames whose nonces stay accounted for is a step. */
  lemma RemoveStep(s: Endpoint, t: Endpoint)
    requires Inv(s) && SameRecv(s, t)
    requires t.sendNonce == s.sendNonce && t.sealed == s.sealed
    requires Kept(s.history, t.history) && |t.history| <= |s.history|
    requires s.evicted <= t.evicted && s.acked <= t.acked
    requires t.evicted <= s.evicted + Nonces(s.history) && t.acked <= s.acked + Nonces(s.history)
    requires Nonces(s.history) <= Nonces(t.history) + t.evicted + t.acked
    ensures Step(s, t, [])
  {
    forall i | 0 <= i < |t.history|
      ensures t.history[i].nonce < s.sendNonce
      ensures t.history[i].bytes == Seal(s.cfg, t.history[i].nonce, s.sealed[t.history[i].nonce])
    {
      var j :| 0 <= j < |s.history| && s.history[j] == t.history[i];
    }
    assert Accounted(t) by {
      forall n | n in Nonces(s.history)
        ensures n < s.sendNonce
      {
      }
    }
    assert Grows(s, t);
    forall n | 0 <= n < |t.sealed| && t.sealed[n].kind == Ack
      ensures TrueAck(t, t.sealed[n].payload)
    {
      StillTrue(s, t, t.sealed[n].payload);
    }
  }

  // ---------- Dropping acknowledged frames ----------

  lemma KeptAppend(h: seq<SentFrame>, kept: seq<SentFrame>, f: SentFrame)
    requires Kept(h, kept) && forall i :: 0 <= i < |h| ==> h[i].nonce < f.nonce
    ensures Kept(h + [f], kept) && Kept(h + [f], kept + [f])
  {
    assert forall i :: 0 <= i < |kept| ==> kept[i].nonce < f.nonce;
    assert forall g :: g in h ==> g in h + [f];
  }

  lemma WhereNext(h: seq<SentFrame>, p: SentFrame -> bool)
    requires h != []
    ensures var front, f := Where(h[..|h| - 1], p), h[|h| - 1]; Where(h, p) == if p(f) then front + [f] else front
  {
  }

  lemma {:induction false} WhereAll(h: seq<SentFrame>, p: SentFrame -> bool)
    ensures |Where(h, p)| <= |h| && forall i :: 0 <= i < |Where(h, p)| ==> p(Where(h, p)[i])
  {
    if h != [] {
      WhereAll(h[..|h| - 1], p);
      WhereNext(h, p);
    }
  }

  lemma {:induction false} WhereIn(h: seq<SentFrame>, p: SentFrame -> bool)
    requires Ordered(h)
    ensures Kept(h, Where(h, p))
  {
    if h != [] {
      var front, f := h[..|h| - 1], h[|h| - 1];
      WhereIn(front, p);
      KeptAppend(front, Where(front, p), f);
      WhereNext(h, p);
      assert h == front + [f];
    }
  }

  lemma WhereKept(h: seq<SentFrame>, p: SentFrame -> bool)
    requires Ordered(h)
    ensures Kept(h, Where(h, p)) && |Where(h, p)| <= |h|
    ensures forall i :: 0 <= i < |Where(h, p)| ==> p(Where(h, p)[i])
  {
    WhereIn(h, p);
    WhereAll(h, p);
  }

  lemma {:induction false} WhereSplits(h: seq<SentFrame>, p: SentFrame -> bool, q: SentFrame -> bool)
    requires forall f :: q(f) == !p(f)
    ensures Nonces(h) == Nonces(Where(h, p)) + Nonces(Where(h, q))
  {
    if h != [] {
      var front, f := h[..|h| - 1], h[|h| - 1];
      WhereSplits(front, p, q);
      assert h == front + [f];
      NoncesAppend(front, f);
      NoncesAppend(Where(front, p), f);
      NoncesAppend(Where(front, q), f);
      assert Where(front, p) + [] == Where(front, p) && Where(front, q) + [] == Where(front, q);
    }
  }

  /** A frame that satisfies `p` stays. */
  lemma {:induction false} WhereHolds(h: seq<SentFrame>, p: SentFrame -> bool, f: SentFrame)
    requires f in h && p(f)
    ensures f in Where(h, p)
  {
    if f != h[|h| - 1] { WhereHolds(h[..|h| - 1], p, f); }
  }

  /** Exactly the frames the ranges do not name are left. */
  ghost predicate OnlyNamedLeave(h: seq<SentFrame>, left: seq<SentFrame>, ranges: seq<Range>) {
    forall f :: f in left <==> f in h && !InRanges(f.nonce, ranges)
  }

  lemma NamedLeave(h: seq<SentFrame>, ranges: seq<Range>)
    requires Ordered(h)
    ensures OnlyNamedLeave(h, Where(h, NotNamed(ranges)), ranges)
  {
    WhereKept(h, NotNamed(ranges));
    forall f | f in h && !InRanges(f.nonce, ranges)
      ensures f in Where(h, NotNamed(ranges))
    {
      WhereHolds(h, NotNamed(ranges), f);
    }
  }

  lemma DropStep(s: Endpoint, ranges: seq<Range>, now: int)
    requires Inv(s)
    ensures var t := DropAckedFrames(s, ranges, now);
            && Step(s, t, []) && SameRecv(s, t)
            && OnlyNamedLeave(s.history, t.history, ranges)
            && forall n :: n in t.acked ==> n in s.acked || InRanges(n, ranges)
  {
    NamedLeave(s.history, ranges);
    WhereKept(s.history, NotNamed(ranges));
    WhereKept(s.history, Named(ranges));
    WhereSplits(s.history, Named(ranges), NotNamed(ranges));
    RemoveStep(s, DropAckedFrames(s, ranges, now));
  }

  // ---------- Resending ----------

  /** The same frames in the same places; any that differ have been retransmitted. */
  ghost predicate Restamped(h: seq<SentFrame>, r: seq<SentFrame>) {
    && |r| == |h|
    && forall i :: 0 <= i < |h| ==>
         r[i].nonce == h[i].nonce && r[i].bytes == h[i].bytes && (r[i] == h[i] || r[i].retries >= 1)
  }

  lemma RestampedNonces(h: seq<SentFrame>, r: seq<SentFrame>)
    requires Restamped(h, r)
    ensures Nonces(r) == Nonces(h)
  {
    forall n | n in Nonces(h)
      ensures n in Nonces(r)
    {
      var i :| 0 <= i < |h| && h[i].nonce == n;
      assert r[i].nonce == n;
    }
  }

  /** Restamping is a step; what it sends are held frames that now count as retransmitted. */
  lemma RestampStep(s: Endpoint, t: Endpoint, txs: seq<Tx>)
    requires Inv(s) && SameRecv(s, t)
    requires t.sendNonce == s.sendNonce && t.sealed == s.sealed && t.evicted == s.evicted && t.acked == s.acked
    requires Restamped(s.history, t.history)
    requires forall k :: 0 <= k < |txs| ==>
               exists i :: 0 <= i < |t.history| && txs[k].d == t.history[i].bytes && t.history[i].retries >= 1
    ensures Step(s, t, txs)
  {
    RestampedNonces(s.history, t.history);
    assert SendInv(t);
    assert Grows(s, t);
    forall n | 0 <= n < |t.sealed| && t.sealed[n].kind == Ack
      ensures TrueAck(t, t.sealed[n].payload)
    {
      StillTrue(s, t, t.sealed[n].payload);
    }
    forall k | 0 <= k < |txs|
      ensures IsSealed(t, txs[k].d)
    {
      var i :| 0 <= i < |t.history| && txs[k].d == t.history[i].bytes;
    }
    forall j | 0 <= j < |t.history| && t.history[j].retries == 0
      ensures t.history[j] in s.history && Times(txs, t.history[j].bytes) == []
    {
      assert t.history[j] == s.history[j];
      forall k | 0 <= k < |txs|
        ensures txs[k].d != t.history[j].bytes
      {
        var i :| 0 <= i < |t.history| && txs[k].d == t.history[i].bytes && t.history[i].retries >= 1;
        DistinctBytes(t, i, j);
      }
      NeverSent(txs, t.history[j].bytes);
    }
  }

  lemma DistinctBytes(s: Endpoint, i: nat, j: nat)
    requires SendInv(s) && i < |s.history| && j < |s.history| && i != j
    ensures s.history[i].bytes != s.history[j].bytes
  {
    if i < j { assert s.history[i].nonce < s.history[j].nonce; } else { assert s.history[j].nonce < s.history[i].nonce; }
  }

  /** The frame with nonce `n`, if any, is stamped and charged one retry; no other changes. */
  ghost predicate OneCharged(h: seq<SentFrame>, r: seq<SentFrame>, n: nat, now: int) {
    |r| == |h| && forall i :: 0 <= i < |h| ==> r[i] == if h[i].nonce == n then Resent(h[i], now) else h[i]
  }

  /** The stored bytes of nonce `n`, if it is held. */
  ghost predicate StoredBytes(h: seq<SentFrame>, n: nat, sends: seq<Action>) {
    if n in Nonces(h) then exists i :: 0 <= i < |h| && h[i].nonce == n && sends == [SendDatagram(h[i].bytes)]
    else sends == []
  }

  lemma NackCharges(s: Endpoint, payload: Bytes, now: int)
    requires Ordered(s.history) && |payload| >= 8
    ensures var (t, sends) := OnNack(s, payload, now);
            OneCharged(s.history, t.history, FromBe(payload[..8]), now) && StoredBytes(s.history, FromBe(payload[..8]), sends)
  {
    match FindSent(s.history, FromBe(payload[..8]))
    case None =>
    case Some(i) => assert s.history[i].nonce in Nonces(s.history);
  }

  lemma NackStep(s: Endpoint, payload: Bytes, now: int)
    requires Inv(s) && |payload| >= 8
    ensures var (t, sends) := OnNack(s, payload, now);
            && Step(s, t, AllSends(sends, now)) && SameRecv(s, t) && t.acked == s.acked && AllDeliveries(sends) == []
            && OneCharged(s.history, t.history, FromBe(payload[..8]), now)
            && StoredBytes(s.history, FromBe(payload[..8]), sends)
  {
    var (t, sends) := OnNack(s, payload, now);
    NackCharges(s, payload, now);
    match FindSent(s.history, FromBe(payload[..8]))
    case None => QuietStep(s, t);
    case Some(i) =>
      SingleAction(SendDatagram(s.history[i].bytes), now);
      var txs := [Tx(s.history[i].bytes, now)];
      assert AllSends(sends, now) == txs;
      assert txs[0].d == t.history[i].bytes && t.history[i].retries >= 1;
      RestampStep(s, t, txs);
  }

  /** `d` is one of the first `n` frames and is chosen for this tick. */
  ghost predicate FromChosen(h: seq<SentFrame>, n: nat, budget: nat, base: nat, now: int, d: Datagram)
    requires n <= |h|
  {
    exists i :: 0 <= i < n && Chosen(h, i, budget, base, now) && h[i].bytes == d
  }

  ghost predicate AllFromChosen(h: seq<SentFrame>, n: nat, budget: nat, base: nat, now: int, txs: seq<Tx>)
    requires n <= |h|
  {
    forall k :: 0 <= k < |txs| ==> FromChosen(h, n, budget, base, now, txs[k].d)
  }

  lemma {:induction false} ResendSends(h: seq<SentFrame>, n: nat, budget: nat, base: nat, now: int)
    requires n <= |h|
    ensures AllDeliveries(ResendActions(h, n, budget, base, now)) == []
    ensures AllFromChosen(h, n, budget, base, now, AllSends(ResendActions(h, n, budget, base, now), now))
  {
    if n > 0 {
      ResendSends(h, n - 1, budget, base, now);
      var front := ResendActions(h, n - 1, budget, base, now);
      forall d | FromChosen(h, n - 1, budget, base, now, d)
        ensures FromChosen(h, n, budget, base, now, d)
      {
        var i :| 0 <= i < n - 1 && Chosen(h, i, budget, base, now) && h[i].bytes == d;
      }
      if Chosen(h, n - 1, budget, base, now) {
        var a := SendDatagram(h[n - 1].bytes);
        AllSendsConcat(front, [a], now);
        AllDeliveriesConcat(front, [a]);
        SingleAction(a, now);
        assert ResendActions(h, n, budget, base, now) == front + [a];
        assert FromChosen(h, n, budget, base, now, h[n - 1].bytes);
      } else {
        assert ResendActions(h, n, budget, base, now) == front;
      }
    }
  }

  lemma EvictStep(s: Endpoint)
    requires Inv(s)
    ensures Step(s, EvictZombies(s), []) && SameRecv(s, EvictZombies(s))
  {
    var grace := Grace(s.cfg);
    WhereKept(s.history, Living(grace));
    WhereSplits(s.history, Zombie(grace), Living(grace));
    RemoveStep(s, EvictZombies(s));
  }

  lemma ChosenIsCharged(h: seq<SentFrame>, budget: nat, base: nat, now: int, d: Datagram)
    requires FromChosen(h, |h|, budget, base, now, d)
    ensures var r := AfterResend(h, budget, base, now);
            exists i :: 0 <= i < |r| && d == r[i].bytes && r[i].retries >= 1
  {
    var r := AfterResend(h, budget, base, now);
    var i :| 0 <= i < |h| && Chosen(h, i, budget, base, now) && h[i].bytes == d;
    assert r[i] == Resent(h[i], now);
  }

  lemma ResendStep(m: Endpoint, budget: nat, base: nat, now: int)
    requires Inv(m)
    ensures var h := m.history;
            var t := m.(history := AfterResend(h, budget, base, now));
            Step(m, t, AllSends(ResendActions(h, |h|, budget, base, now), now)) && SameRecv(m, t)
  {
    var h := m.history;
    var t := m.(history := AfterResend(h, budget, base, now));
    var txs := AllSends(ResendActions(h, |h|, budget, base, now), now);
    ResendSends(h, |h|, budget, base, now);
    forall k | 0 <= k < |txs|
      ensures exists i :: 0 <= i < |t.history| && txs[k].d == t.history[i].bytes && t.history[i].retries >= 1
    {
      assert FromChosen(h, |h|, budget, base, now, txs[k].d);
      ChosenIsCharged(h, budget, base, now, txs[k].d);
    }
    RestampStep(m, t, txs);
  }

  lemma RetransmitStep(s: Endpoint, now: int)
    requires Inv(s)
    ensures var (t, resends) := Retransmit(s, now);
            && Step(s, t, AllSends(resends, now)) && SameRecv(s, t) && t.acked == s.acked && AllDeliveries(resends) == []
  {
    var base, budget := BaseRtoMs(s), s.cc.RetransmitBudget();
    var (t, resends) := Retransmit(s, now);
    var m := EvictZombies(s);
    EvictStep(s);
    ResendStep(m, budget, base, now);
    ResendSends(m.history, |m.history|, budget, base, now);
    StepTransitive(s, m, t, [], AllSends(resends, now));
    assert [] + AllSends(resends, now) == AllSends(resends, now);
  }

  // ---------- Acknowledging ----------

  /** Everything received lies below `bound`. */
  ghost predicate Within(s: Endpoint, bound: nat) {
    s.expected <= bound && forall k :: k in s.reorder ==> k < bound
  }

  /** Nonces held fit in the eight bytes the ACK gives each. */
  ghost predicate Encodable(s: Endpoint) {
    Within(s, U64_MAX)
  }

  lemma AckPayloadTrue(s: Endpoint)
    requires RecvInv(s) && Encodable(s)
    ensures TrueAck(s, BuildAckPayload(s))
  {
    var keys := Sorted(s.reorder.Keys);
    forall i | 0 <= i < |keys|
      ensures s.expected < keys[i] <= U64_MAX
    {
      assert keys[i] in s.reorder.Keys;
    }
    AckIsTrue(s.expected, keys);
    forall n: nat | InRanges(n, Truncated(AckRanges(s.expected, keys)))
      ensures Received(s, n)
    {
      assert Holds(n, s.expected, keys);
    }
  }

  lemma NothingSent(s: Endpoint, t: Endpoint, now: int)
    requires Step(s, t, [])
    ensures Step(s, t, AllSends(OptionalSend(None), now)) && AllDeliveries(OptionalSend(None)) == []
  {
  }

  lemma OneSend(d: Datagram, now: int)
    ensures AllSends(OptionalSend(Some(d)), now) == [Tx(d, now)] && AllDeliveries(OptionalSend(Some(d))) == []
  {
    SingleAction(SendDatagram(d), now);
  }

  lemma ForceAckStep(s: Endpoint, now: int)
    requires Inv(s) && Encodable(s)
    ensures var (t, ack) := ForceBuildAck(s, now);
            && Step(s, t, AllSends(OptionalSend(ack), now)) && SameRecv(s, t) && t.acked == s.acked
            && AllDeliveries(OptionalSend(ack)) == []
  {
    var (t, ack) := ForceBuildAck(s, now);
    var payload := BuildAckPayload(s);
    if payload == [] {
      QuietStep(s, t);
      NothingSent(s, t, now);
    } else {
      AckPayloadTrue(s);
      BuildStep(s, Frame(Ack, 0, payload), false, now);
      var m := Build(s, Frame(Ack, 0, payload), false, now).0;
      QuietStep(m, t);
      StepTransitive(s, m, t, [Tx(ack.value, now)], []);
      assert [Tx(ack.value, now)] + [] == [Tx(ack.value, now)];
      OneSend(ack.value, now);
    }
  }

  lemma AckIfDueStep(s: Endpoint, now: int)
    requires Inv(s) && Encodable(s)
    ensures var (t, ack) := BuildAckIfDue(s, now);
            && Step(s, t, AllSends(OptionalSend(ack), now)) && SameRecv(s, t) && t.acked == s.acked
            && AllDeliveries(OptionalSend(ack)) == []
  {
    if !s.ackPending || Since(now, s.lastAckSent) < s.cfg.ackDelay {
      QuietStep(s, s);
      NothingSent(s, s, now);
    } else {
      ForceAckStep(s, now);
    }
  }

  lemma HeadroomEncodes(s: Endpoint)
    requires RecvInv(s) && Headroom(s)
    ensures Encodable(s)
  {
  }

  // ---------- Ticks, sends and path changes ----------

  ghost predicate EventStep(s: Endpoint, t: Endpoint, result: Outcome, now: int) {
    match result
    case Ok(a) => Step(s, t, Sends(a, now))
    case Err(_) => Step(s, t, [])
  }

  lemma TickStep(s: Endpoint, now: int)
    requires Inv(s) && Headroom(s)
    ensures var (t, result) := HandleTick(s, now);
            && EventStep(s, t, result, now) && result.Ok? && SameRecv(s, t) && t.acked == s.acked
            && Deliveries(result.action) == []
  {
    HeadroomEncodes(s);
    AckIfDueStep(s, now);
    var (a, ack) := BuildAckIfDue(s, now);
    RetransmitStep(a, now);
    var (t, resends) := Retransmit(a, now);
    StepTransitive(s, a, t, AllSends(OptionalSend(ack), now), AllSends(resends, now));
    AllSendsConcat(OptionalSend(ack), resends, now);
    AllDeliveriesConcat(OptionalSend(ack), resends);
    CollateMeaning(OptionalSend(ack) + resends, now);
  }

  lemma PathChangeStep(s: Endpoint, now: int)
    requires Inv(s)
    ensures var t := OnPathChange(s, now);
            && Step(s, t, []) && SameRecv(s, t) && t.acked == s.acked
            && |t.history| == |s.history|
            && forall i :: 0 <= i < |s.history| ==>
                 if s.history[i].isRetransmittable
                 then t.history[i].retries == 1 && Since(now, t.history[i].lastSent) >= MAX_EFFECTIVE_RTO
                 else t.history[i] == s.history[i]
  {
    RestampStep(s, OnPathChange(s, now), []);
  }

  // ---------- The receive sequence ----------

  /** Releasing from `resume` when nothing below it is buffered. */
  lemma ReleaseFacts(s: Endpoint, resume: nat, now: int)
    requires |s.fates| == s.expected <= resume
    requires forall k :: k in s.reorder ==> resume <= k <= s.expected + s.cfg.maxReorder && Plain(s.reorder[k])
    requires |s.reorder| <= s.cfg.maxReorderBuffer
    ensures var (t, acts) := ReleaseFrom(s, resume, now);
            && RecvInv(t) && SameSend(s, t) && s.fates <= t.fates && resume <= t.expected
            && (forall n: nat :: Received(s, n) ==> Received(t, n))
            && (forall i :: 0 <= i < |acts| ==> Plain(acts[i]))
            && (forall b :: Within(s, b) && resume <= b ==> Within(t, b))
  {
    var (t, acts) := ReleaseFrom(s, resume, now);
    var e := DrainEnd(s.reorder, resume);
    assert t.reorder.Keys <= s.reorder.Keys;
    SubsetSize(t.reorder.Keys, s.reorder.Keys);
    forall i | 0 <= i < |acts|
      ensures Plain(acts[i])
    {
      assert resume + i in s.reorder;
    }
    forall b | Within(s, b) && resume <= b
      ensures Within(t, b)
    {
      if e > resume { assert e - 1 in s.reorder; }
    }
  }

  lemma SubsetSize(a: set<nat>, b: set<nat>)
    requires a <= b
    ensures |a| <= |b|
  {
    if a != {} {
      var x :| x in a;
      SubsetSize(a - {x}, b - {x});
    }
  }

  lemma {:induction false} PlainSends(acts: seq<Action>, now: int)
    requires forall i :: 0 <= i < |acts| ==> Plain(acts[i])
    ensures AllSends(acts, now) == []
  {
    if acts != [] { PlainSends(acts[..|acts| - 1], now); }
  }

  /** A receive-side change that loses nothing already received is a step. */
  lemma RecvStep(s: Endpoint, t: Endpoint)
    requires Inv(s) && SameSend(s, t) && RecvInv(t)
    requires s.fates <= t.fates
    requires forall n: nat :: Received(s, n) ==> Received(t, n)
    ensures Step(s, t, [])
  {
    SameSendKeeps(s, t);
    assert Grows(s, t);
    forall n | 0 <= n < |t.sealed| && t.sealed[n].kind == Ack
      ensures TrueAck(t, t.sealed[n].payload)
    {
      StillTrue(s, t, t.sealed[n].payload);
    }
  }

  lemma RecoverStep(s: Endpoint, now: int)
    requires Inv(s)
    ensures var (t, acts) := RecoverStalledGap(s, now);
            && Step(s, t, []) && SameSend(s, t) && AllSends(acts, now) == []
            && (forall b :: Within(s, b) ==> Within(t, b))
  {
    var (t, acts) := RecoverStalledGap(s, now);
    if Stalled(s, now) {
      var least := Least(s.reorder.Keys);
      ReleaseFacts(s, least, now);
      RecvStep(s, t);
      forall b | Within(s, b)
        ensures Within(t, b)
      {
        assert least in s.reorder;
        assert Within(ReleaseFrom(s, least, now).0, b);
      }
      PlainSends(acts, now);
    } else {
      QuietStep(s, t);
    }
  }

  /** From nonce `resume` on, `acts` are what `m` buffers up to nonce `end`. */
  ghost predicate Buffered(m: map<nat, Action>, resume: nat, end: nat, acts: seq<Action>) {
    resume + |acts| == end && forall k :: resume <= k < end ==> k in m && acts[k - resume] == m[k]
  }

  /** What is buffered under later nonces. */
  function LeftBeyond(m: map<nat, Action>, end: nat): map<nat, Action> {
    map k | k in m && k > end :: m[k]
  }

  /** Everything before `resume` is skipped, the run buffered from there is released in order, and the rest stays. */
  ghost predicate RunLeaves(s: Endpoint, resume: nat, t: Endpoint, acts: seq<Action>) {
    && s.expected < resume < t.expected && Buffered(s.reorder, resume, t.expected, acts)
    && t.fates == s.fates + Repeat(Skipped, resume - s.expected) + Repeat(Released, t.expected - resume)
    && t.expected !in s.reorder && t.reorder == LeftBeyond(s.reorder, t.expected)
  }

  lemma RunEnds(m: map<nat, Action>, resume: nat)
    requires resume in m && forall k :: k in m ==> resume <= k
    ensures var e := DrainEnd(m, resume);
            resume < e && e !in m && Buffered(m, resume, e, Between(m, resume, e)) && Without(m, resume, e) == LeftBeyond(m, e)
  {
    var e := DrainEnd(m, resume);
    assert e != resume;
    assert forall k :: k in m && !(resume <= k < e) <==> k in m && k > e;
  }

  lemma RunReleased(s: Endpoint, resume: nat, now: int)
    requires resume in s.reorder && s.expected < resume && forall k :: k in s.reorder ==> resume <= k
    ensures RunLeaves(s, resume, ReleaseFrom(s, resume, now).0, ReleaseFrom(s, resume, now).1)
  {
    RunEnds(s.reorder, resume);
  }

  lemma LeastIsBeyond(s: Endpoint)
    requires RecvInv(s) && s.reorder != map[]
    ensures s.reorder.Keys != {}
    ensures var least := Least(s.reorder.Keys); least in s.reorder && s.expected < least && forall k :: k in s.reorder ==> least <= k
  {
    assert s.reorder.Keys != {};
    var least := Least(s.reorder.Keys);
    assert least in s.reorder;
  }

  lemma OwingChangesNoRun(s: Endpoint, resume: nat, t: Endpoint, acts: seq<Action>)
    requires RunLeaves(s, resume, t, acts)
    ensures RunLeaves(s, resume, t.(ackPending := true), acts)
  {
  }

  /**
   What recovery does: everything before the first buffered nonce is skipped, the run
   of buffered actions that starts there is released in order, and the rest stays.
   */
  lemma RecoverReleases(s: Endpoint, now: int)
    requires RecvInv(s) && Stalled(s, now)
    ensures s.reorder.Keys != {}
    ensures var (t, acts) := RecoverStalledGap(s, now); RunLeaves(s, Least(s.reorder.Keys), t, acts) && t.ackPending
  {
    LeastIsBeyond(s);
    var least := Least(s.reorder.Keys);
    RunReleased(s, least, now);
    OwingChangesNoRun(s, least, ReleaseFrom(s, least, now).0, ReleaseFrom(s, least, now).1);
  }

  lemma AcceptFacts(s: Endpoint, action: Action, now: int)
    requires RecvInv(s) && Plain(action)
    ensures var (t, acts) := AcceptInOrder(s, action, now);
            && RecvInv(t) && SameSend(s, t) && s.fates <= t.fates
            && (forall n: nat :: Received(s, n) ==> Received(t, n))
            && (forall i :: 0 <= i < |acts| ==> Plain(acts[i]))
            && (forall b :: Within(s, b) && s.expected + 1 <= b ==> Within(t, b))
  {
    var m := s.(expected := s.expected + 1, fates := s.fates + [Released]);
    ReleaseFacts(m, s.expected + 1, now);
    var (t, acts) := AcceptInOrder(s, action, now);
    forall n: nat | Received(s, n)
      ensures Received(t, n)
    {
      assert Received(m, n);
    }
    forall b | Within(s, b) && s.expected + 1 <= b
      ensures Within(t, b)
    {
      assert Within(m, b);
    }
  }

  lemma AcceptStep(s: Endpoint, action: Action, now: int)
    requires Inv(s) && Plain(action)
    ensures var (t, acts) := AcceptInOrder(s, action, now);
            && Step(s, t, []) && SameSend(s, t) && AllSends(acts, now) == []
            && (forall b :: Within(s, b) && s.expected + 1 <= b ==> Within(t, b))
  {
    AcceptFacts(s, action, now);
    var (t, acts) := AcceptInOrder(s, action, now);
    RecvStep(s, t);
    PlainSends(acts, now);
  }

  lemma InsertStep(s: Endpoint, nonce: nat, action: Action)
    requires Inv(s) && Plain(action) && s.expected < nonce <= s.expected + s.cfg.maxReorder
    ensures Step(s, Inserted(s, nonce, action), [])
  {
    var b := Inserted(s, nonce, action);
    assert |b.reorder| <= s.cfg.maxReorderBuffer by {
      assert s.reorder[nonce := action].Keys == s.reorder.Keys + {nonce};
    }
    RecvStep(s, b);
  }

  lemma NackIfDueStep(s: Endpoint, now: int)
    requires Inv(s)
    ensures var (t, acts) := NackIfDue(s, now);
            Step(s, t, AllSends(acts, now)) && SameRecv(s, t) && t.acked == s.acked && AllDeliveries(acts) == []
  {
    if Since(now, s.lastNackSent) < NackCooldown(s.cc) {
      QuietStep(s, s);
    } else {
      var c := s.(lastNackSent := now);
      QuietStep(s, c);
      BuildStep(c, NackFrame(c.expected), false, now);
      var (t, d) := Build(c, NackFrame(c.expected), false, now);
      SingleAction(SendDatagram(d), now);
      StepTransitive(s, c, t, [], [Tx(d, now)]);
      assert [] + [Tx(d, now)] == [Tx(d, now)];
    }
  }

  lemma BufferStep(s: Endpoint, nonce: nat, action: Action, now: int)
    requires Inv(s) && Plain(action) && s.expected < nonce <= s.expected + s.cfg.maxReorder
    ensures var (t, acts) := BufferBeyondGap(s, nonce, action, now);
            && Step(s, t, AllSends(acts, now)) && t.acked == s.acked && AllDeliveries(acts) == []
            && SameRecv(Inserted(s, nonce, action), t)
  {
    var b := Inserted(s, nonce, action);
    InsertStep(s, nonce, action);
    NackIfDueStep(b, now);
    var (t, acts) := NackIfDue(b, now);
    StepTransitive(s, b, t, [], AllSends(acts, now));
    assert [] + AllSends(acts, now) == AllSends(acts, now);
  }
}
