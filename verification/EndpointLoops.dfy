/**
 The loops of the endpoint: building and reading ACK ranges, measuring what an ACK
 covers, choosing what to resend, and draining the reorder buffer. Each is proved
 against the function of `Endpoint` it computes.
 */
module EndpointLoops {
  import opened Basics
  import opened Wire
  import opened Endpoint

  // ---------- Facts the loops need ----------

  lemma SortedUnfold(s: set<nat>, x: nat)
    requires IsLeast(x, s)
    ensures Sorted(s) == [x] + Sorted(s - {x})
  {
  }

  lemma NothingSorted(list: seq<nat>)
    ensures list + Sorted({}) == list
  {
    assert Sorted({}) == [];
  }

  lemma SortedShift(list: seq<nat>, s: set<nat>, x: nat)
    requires IsLeast(x, s)
    ensures list + Sorted(s) == list + [x] + Sorted(s - {x})
  {
    SortedUnfold(s, x);
    var rest := Sorted(s - {x});
    assert list + ([x] + rest) == list + [x] + rest;
  }

  lemma RunsSnoc(keys: seq<nat>, n: nat)
    ensures Runs(keys + [n]) == Extend(Runs(keys), n)
  {
    assert (keys + [n])[..|keys|] == keys;
  }

  lemma WhereSnoc(h: seq<SentFrame>, p: SentFrame -> bool, i: nat)
    requires i < |h|
    ensures Where(h[..i + 1], p) == Where(h[..i], p) + if p(h[i]) then [h[i]] else []
  {
    assert h[..i + 1][..i] == h[..i];
  }

  lemma TotalSizeSnoc(h: seq<SentFrame>, f: SentFrame)
    ensures TotalSize(h + [f]) == TotalSize(h) + f.bytes.Size()
  {
    assert (h + [f])[..|h|] == h;
  }

  lemma RttSampleSnoc(h: seq<SentFrame>, f: SentFrame, now: int)
    ensures RttSample(h + [f], now)
            == if f.retries != 0 then RttSample(h, now)
               else Some(if RttSample(h, now).Some? then Min(RttSample(h, now).value, Since(now, f.lastSent))
                         else Since(now, f.lastSent))
  {
    assert (h + [f])[..|h|] == h;
  }

  lemma RangeBytesSnoc(ranges: seq<Range>, i: nat)
    requires i < |ranges|
    ensures RangeBytes(ranges[..i + 1]) == RangeBytes(ranges[..i]) + U64Bytes(ranges[i].start) + U64Bytes(ranges[i].end)
  {
    assert ranges[..i + 1][..i] == ranges[..i];
  }

  lemma DueCountSnoc(h: seq<SentFrame>, i: nat, base: nat, now: int)
    requires i < |h|
    ensures DueCount(h[..i + 1], base, now) == DueCount(h[..i], base, now) + if Due(h[i], base, now) then 1 else 0
  {
    assert h[..i + 1][..i] == h[..i];
  }

  lemma DueCountMonotone(h: seq<SentFrame>, i: nat, j: nat, base: nat, now: int)
    requires i <= j <= |h|
    ensures DueCount(h[..i], base, now) <= DueCount(h[..j], base, now)
    decreases j
  {
    if i < j {
      DueCountMonotone(h, i, j - 1, base, now);
      DueCountSnoc(h, j - 1, base, now);
    }
  }

  /** Once the budget is spent, nothing further is chosen. */
  lemma NothingMoreChosen(h: seq<SentFrame>, i: nat, n: nat, budget: nat, base: nat, now: int)
    requires i <= n <= |h| && DueCount(h[..i], base, now) >= budget
    ensures ResendActions(h, n, budget, base, now) == ResendActions(h, i, budget, base, now)
    ensures forall j :: i <= j < n ==> !Chosen(h, j, budget, base, now)
    decreases n
  {
    if i < n {
      NothingMoreChosen(h, i, n - 1, budget, base, now);
      DueCountMonotone(h, i, n - 1, base, now);
    }
  }

  // ---------- ACK ranges ----------

  method LeastKey(s: set<nat>) returns (x: nat)
    requires s != {}
    ensures IsLeast(x, s)
  {
    LeastExists(s);
    x :| x in s && forall y :: y in s ==> x <= y;
  }

  /** Reads the ranges of an ACK payload; `None` when it is truncated. */
  method ParseAckRanges(payload: Bytes) returns (ranges: Option<seq<Range>>)
    ensures ranges == ParseAck(payload)
  {
    if payload == [] {
      return Some([]);
    }
    var count: nat := payload[0];
    if |payload| < 1 + count * 16 {
      return None;
    }
    var out: seq<Range> := [];
    var idx := 1;
    for i := 0 to count
      invariant idx == 1 + 16 * i
      invariant out == ReadRanges(payload, i)
    {
      var start := FromBe(payload[idx..idx + 8]);
      var end := FromBe(payload[idx + 8..idx + 16]);
      out := out + [Range(start, end)];
      idx := idx + 16;
    }
    return Some(out);
  }

  method NonceInRanges(nonce: nat, ranges: seq<Range>) returns (found: bool)
    ensures found == InRanges(nonce, ranges)
  {
    for i := 0 to |ranges|
      invariant forall j :: 0 <= j < i ==> !(ranges[j].start <= nonce <= ranges[j].end)
    {
      if ranges[i].start <= nonce <= ranges[i].end {
        return true;
      }
    }
    return false;
  }

  lemma ExtendOpen(ranges: seq<Range>, start: nat, last: nat, n: nat)
    ensures Extend(ranges + [Range(start, last)], n)
            == if n == last + 1 then ranges + [Range(start, n)] else ranges + [Range(start, last)] + [Range(n, n)]
  {
    var r := ranges + [Range(start, last)];
    assert r[..|r| - 1] == ranges;
  }

  /** The buffered nonces in ascending order, as an ordered map iterates them. */
  method SortedKeys(keys: set<nat>) returns (list: seq<nat>)
    ensures list == Sorted(keys)
  {
    list := [];
    var rest := keys;
    while rest != {}
      invariant list + Sorted(rest) == Sorted(keys)
      decreases |rest|
    {
      var nonce := LeastKey(rest);
      SortedShift(list, rest, nonce);
      list := list + [nonce];
      rest := rest - {nonce};
    }
    NothingSorted(list);
  }

  lemma RunsPrefix(keys: seq<nat>, i: nat)
    requires i < |keys|
    ensures Runs(keys[..i + 1]) == Extend(Runs(keys[..i]), keys[i])
  {
    assert keys[..i + 1] == keys[..i] + [keys[i]];
    RunsSnoc(keys[..i], keys[i]);
  }

  /** The runs of buffered nonces, built in one ascending pass. */
  method SelectiveRanges(keys: seq<nat>) returns (ranges: seq<Range>)
    ensures ranges == Runs(keys)
  {
    ranges := [];
    if keys == [] {
      return;
    }
    var start, last := keys[0], keys[0];
    assert keys[..1] == [keys[0]] && Runs([keys[0]]) == [Range(keys[0], keys[0])] by {
      RunsPrefix(keys, 0);
    }
    for i := 1 to |keys|
      invariant Runs(keys[..i]) == ranges + [Range(start, last)]
    {
      var nonce := keys[i];
      RunsPrefix(keys, i);
      ExtendOpen(ranges, start, last, nonce);
      if nonce == last + 1 {
        last := nonce;
      } else {
        ranges := ranges + [Range(start, last)];
        start, last := nonce, nonce;
      }
    }
    assert keys[..|keys|] == keys;
    ranges := ranges + [Range(start, last)];
  }

  method EncodeRanges(ranges: seq<Range>) returns (out: Bytes)
    ensures out == RangeBytes(ranges)
  {
    out := [];
    for i := 0 to |ranges|
      invariant out == RangeBytes(ranges[..i])
    {
      RangeBytesSnoc(ranges, i);
      out := out + U64Bytes(ranges[i].start);
      out := out + U64Bytes(ranges[i].end);
    }
    assert ranges[..|ranges|] == ranges;
  }

  /** The cumulative range is always kept; selective ranges are cut to the newest. */
  method TrimRanges(ranges: seq<Range>) returns (kept: seq<Range>)
    ensures kept == Truncated(ranges)
  {
    kept := ranges;
    if |ranges| > MAX_RANGES {
      kept := [ranges[0]];
      kept := kept + ranges[|ranges| - (MAX_RANGES - 1)..];
    }
  }

  method EncodeAck(expected: nat, keys: seq<nat>) returns (payload: Bytes)
    ensures payload == AckPayload(expected, keys)
  {
    var selective := SelectiveRanges(keys);
    var ranges := selective;
    if expected > 0 {
      ranges := [Range(0, expected - 1)] + selective;
    }
    assert ranges == AckRanges(expected, keys);
    var kept := TrimRanges(ranges);
    if kept == [] {
      return [];
    }
    var body := EncodeRanges(kept);
    payload := [|kept|] + body;
  }

  // ---------- The send history ----------

  /** One pass over the history: bytes acknowledged and the smallest unambiguous sample. */
  method MeasureAcked(history: seq<SentFrame>, ranges: seq<Range>, now: int) returns (bytes: nat, sample: Option<nat>)
    ensures bytes == TotalSize(Where(history, Named(ranges)))
    ensures sample == RttSample(Where(history, Named(ranges)), now)
  {
    bytes, sample := 0, None;
    assert history[..0] == [];
    for i := 0 to |history|
      invariant bytes == TotalSize(Where(history[..i], Named(ranges)))
      invariant sample == RttSample(Where(history[..i], Named(ranges)), now)
    {
      var frame := history[i];
      WhereSnoc(history, Named(ranges), i);
      assert Where(history[..i], Named(ranges)) + [] == Where(history[..i], Named(ranges));
      var named := NonceInRanges(frame.nonce, ranges);
      assert named == Named(ranges)(frame);
      if named {
        TotalSizeSnoc(Where(history[..i], Named(ranges)), frame);
        RttSampleSnoc(Where(history[..i], Named(ranges)), frame, now);
        bytes := bytes + frame.bytes.Size();
        if frame.retries == 0 {
          var rtt := Since(now, frame.lastSent);
          sample := Some(if sample.Some? then Min(sample.value, rtt) else rtt);
        }
      }
    }
    assert history[..|history|] == history;
  }

  /** Resends due frames in send order until the budget is spent. */
  method ResendDue(h: seq<SentFrame>, budget: nat, base: nat, now: int)
    returns (history: seq<SentFrame>, actions: seq<Action>)
    ensures history == AfterResend(h, budget, base, now)
    ensures actions == ResendActions(h, |h|, budget, base, now)
  {
    history, actions := h, [];
    var left := budget;
    var i := 0;
    assert h[..0] == [];
    while i < |h|
      invariant 0 <= i <= |h| && |history| == |h|
      invariant forall j :: 0 <= j < i ==> history[j] == AfterResend(h, budget, base, now)[j]
      invariant forall j :: i <= j < |h| ==> history[j] == h[j]
      invariant actions == ResendActions(h, i, budget, base, now)
      invariant left == budget - Min(budget, DueCount(h[..i], base, now))
    {
      var frame := history[i];
      DueCountSnoc(h, i, base, now);
      if !frame.isRetransmittable {
        i := i + 1;
        continue;
      }
      if left == 0 {
        break;
      }
      if Since(now, frame.lastSent) >= EffectiveRto(base, frame.retries) {
        history := history[i := frame.(lastSent := now, retries := SaturatingInc(frame.retries))];
        actions := actions + [SendDatagram(frame.bytes)];
        left := left - 1;
      }
      i := i + 1;
    }
    if i < |h| {
      NothingMoreChosen(h, i, |h|, budget, base, now);
    }
  }

  /** Every frame still to be delivered becomes due and counts as retransmitted. */
  method AgeFrames(h: seq<SentFrame>, due: int) returns (history: seq<SentFrame>)
    ensures history == Aged(h, due)
  {
    history := h;
    for i := 0 to |h|
      invariant |history| == |h|
      invariant forall j :: 0 <= j < i ==> history[j] == Aged(h, due)[j]
      invariant forall j :: i <= j < |h| ==> history[j] == h[j]
    {
      if history[i].isRetransmittable {
        history := history[i := history[i].(lastSent := due, retries := 1)];
      }
    }
  }

  method FindNewest(h: seq<SentFrame>, nonce: nat) returns (found: Option<nat>)
    ensures found == FindSent(h, nonce)
  {
    var i := |h|;
    assert h[..i] == h;
    while i > 0
      invariant 0 <= i <= |h|
      invariant FindSent(h, nonce) == FindSent(h[..i], nonce)
    {
      assert h[..i][..i - 1] == h[..i - 1];
      if h[i - 1].nonce == nonce {
        return Some(i - 1);
      }
      i := i - 1;
    }
    return None;
  }

  method PopOldest(h: seq<SentFrame>, cap: nat) returns (history: seq<SentFrame>)
    ensures history == h[Overflow(h, cap)..]
  {
    history := h;
    ghost var k := 0;
    while |history| > cap
      invariant k <= |h| && history == h[k..]
      invariant k <= Overflow(h, cap)
    {
      history := history[1..];
      k := k + 1;
    }
  }

  // ---------- The reorder buffer ----------

  lemma WithoutOneMore(m: map<nat, Action>, from: nat, e: nat)
    requires from <= e
    ensures Without(m, from, e) - {e} == Without(m, from, e + 1)
  {
  }

  lemma DrainEndStep(m: map<nat, Action>, n: nat)
    requires n in m
    ensures DrainEnd(m, n) == DrainEnd(m, n + 1)
  {
  }

  /** Removes and returns what is buffered consecutively from `from` on. */
  method Drain(m: map<nat, Action>, from: nat) returns (rest: map<nat, Action>, next: nat, released: seq<Action>)
    ensures next == DrainEnd(m, from) && rest == Without(m, from, next) && released == Between(m, from, next)
  {
    rest, next, released := m, from, [];
    assert Without(m, from, from) == m;
    while next in rest
      invariant from <= next && rest == Without(m, from, next)
      invariant forall k :: from <= k < next ==> k in m
      invariant released == Between(m, from, next)
      invariant DrainEnd(m, from) == DrainEnd(m, next)
      decreases |rest|
    {
      DrainEndStep(m, next);
      WithoutOneMore(m, from, next);
      assert (rest - {next}).Keys == rest.Keys - {next};
      released := released + [rest[next]];
      rest := rest - {next};
      next := next + 1;
    }
  }
}
