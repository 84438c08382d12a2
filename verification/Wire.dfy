/**
 What travels between two endpoints: frames, sealed datagrams, and the byte
 layout of the ACK payload.

 The AEAD is ideal. A ciphertext is a symbolic term that names the key, the
 nonce, the associated data and the frame it seals; opening it succeeds only
 when all of them are the ones asked for.
 */
module Wire {

  import opened Basics

  // ---------- Bytes and big-endian words ----------

  type byte = b: nat | b < 256
  type Bytes = seq<byte>

  function Pow256(k: nat): (p: nat)
    ensures p > 0
  {
    if k == 0 then 1 else 256 * Pow256(k - 1)
  }

  /** The low `k` bytes of `n`, most significant first. */
  function ToBe(n: nat, k: nat): (s: Bytes)
    ensures |s| == k
  {
    if k == 0 then [] else ToBe(n / 256, k - 1) + [n % 256]
  }

  function FromBe(s: Bytes): nat
  {
    if s == [] then 0 else 256 * FromBe(s[..|s| - 1]) + s[|s| - 1]
  }

  lemma {:induction false} BeRoundTrip(n: nat, k: nat)
    requires n < Pow256(k)
    ensures FromBe(ToBe(n, k)) == n
  {
    if k > 0 {
      BeRoundTrip(n / 256, k - 1);
      assert ToBe(n, k)[..k - 1] == ToBe(n / 256, k - 1);
    }
  }

  function U64Bytes(n: nat): (s: Bytes)
    ensures |s| == 8
  {
    ToBe(n, 8)
  }

  lemma U64RoundTrip(n: nat)
    requires n <= U64_MAX
    ensures FromBe(U64Bytes(n)) == n
  {
    assert Pow256(8) == 256 * (256 * (256 * (256 * (256 * (256 * (256 * (256 * Pow256(0))))))));
    BeRoundTrip(n, 8);
  }

  // ---------- Frames and datagrams ----------

  datatype FrameKind = Handshake | Data | Close | KeepAlive | Nack | Ack

  datatype Frame = Frame(kind: FrameKind, stream: nat, payload: Bytes)

  datatype Ciphertext =
    | Sealed(key: nat, nonce: nat, sid: nat, frame: Frame, pad: nat)
    | Garbage(size: nat)

  /** `Runt` is under 4 bytes, `Headless` has a session id but no whole nonce. */
  datatype Datagram =
    | Runt
    | Headless(sid: nat)
    | Datagram(sid: nat, nonce: nat, body: Ciphertext)
  {
    /** Bytes on the wire: session id, nonce, frame header, payload, padding, tag. */
    function Size(): nat {
      match this
      case Runt => 0
      case Headless(_) => 4
      case Datagram(_, _, Garbage(n)) => 12 + n
      case Datagram(_, _, Sealed(_, _, _, f, pad)) => 4 + 8 + 12 + |f.payload| + pad + 16
    }
  }

  /** A sealed frame takes 40 bytes more than its payload and padding. */
  lemma SealedSize(sid: nat, nonce: nat, key: nat, f: Frame, pad: nat)
    ensures Datagram(sid, nonce, Sealed(key, nonce, sid, f, pad)).Size() == |f.payload| + pad + 40
  {
  }

  function Decrypt(key: nat, nonce: nat, sid: nat, body: Ciphertext): Option<Frame> {
    match body
    case Garbage(_) => None
    case Sealed(k, n, s, f, _) => if k == key && n == nonce && s == sid then Some(f) else None
  }

  // ---------- ACK ranges ----------

  /** An inclusive range of nonces. */
  datatype Range = Range(start: nat, end: nat)

  predicate InRanges(n: nat, ranges: seq<Range>) {
    exists i :: 0 <= i < |ranges| && ranges[i].start <= n <= ranges[i].end
  }

  const MAX_RANGES: nat := 8

  ghost predicate Ascending(keys: seq<nat>) {
    forall i, j :: 0 <= i < j < |keys| ==> keys[i] < keys[j]
  }

  /** Sorted, and with at least one nonce missing between neighbours. */
  ghost predicate Separated(ranges: seq<Range>) {
    && (forall i :: 0 <= i < |ranges| ==> ranges[i].start <= ranges[i].end)
    && (forall i, j :: 0 <= i < j < |ranges| ==> ranges[i].end + 1 < ranges[j].start)
  }

  /** Adds one nonce after everything in `r`: it extends the last run or opens a new one. */
  function Extend(r: seq<Range>, n: nat): (e: seq<Range>)
    ensures e != [] && e[|e| - 1].end == n && |e| <= |r| + 1
  {
    if r != [] && n == r[|r| - 1].end + 1 then r[..|r| - 1] + [Range(r[|r| - 1].start, n)] else r + [Range(n, n)]
  }

  /** `keys` cut into maximal runs of consecutive nonces. */
  function Runs(keys: seq<nat>): (r: seq<Range>)
    ensures |r| <= |keys|
    ensures keys != [] ==> r != [] && r[|r| - 1].end == keys[|keys| - 1]
  {
    if keys == [] then [] else Extend(Runs(keys[..|keys| - 1]), keys[|keys| - 1])
  }

  lemma ExtendSeparated(r: seq<Range>, n: nat)
    requires Separated(r)
    requires r != [] ==> r[|r| - 1].end < n
    ensures Separated(Extend(r, n))
    ensures Extend(r, n)[0].start == if r == [] then n else r[0].start
  {
    if r != [] && n == r[|r| - 1].end + 1 {
      assert r[|r| - 1].start <= r[|r| - 1].end;
    }
  }

  lemma {:induction false} RunsSeparated(keys: seq<nat>)
    requires Ascending(keys)
    ensures Separated(Runs(keys))
    ensures keys != [] ==> Runs(keys)[0].start == keys[0]
  {
    if keys != [] {
      var front := keys[..|keys| - 1];
      RunsSeparated(front);
      ExtendSeparated(Runs(front), keys[|keys| - 1]);
    }
  }

  lemma InRangesConcat(n: nat, a: seq<Range>, b: seq<Range>)
    ensures InRanges(n, a + b) <==> InRanges(n, a) || InRanges(n, b)
  {
    var c := a + b;
    if InRanges(n, a) {
      var i :| 0 <= i < |a| && a[i].start <= n <= a[i].end;
      assert c[i].start <= n <= c[i].end;
    }
    if InRanges(n, b) {
      var i :| 0 <= i < |b| && b[i].start <= n <= b[i].end;
      assert c[|a| + i].start <= n <= c[|a| + i].end;
    }
    if InRanges(n, c) {
      var i :| 0 <= i < |c| && c[i].start <= n <= c[i].end;
      if i < |a| { assert a[i].start <= n <= a[i].end; } else { assert b[i - |a|].start <= n <= b[i - |a|].end; }
    }
  }

  lemma InRangesOne(n: nat, r: Range)
    ensures InRanges(n, [r]) <==> r.start <= n <= r.end
  {
    assert [r][0] == r;
  }

  lemma ExtendCovers(r: seq<Range>, last: nat, n: nat)
    requires r != [] ==> r[|r| - 1].start <= r[|r| - 1].end
    ensures InRanges(n, Extend(r, last)) <==> InRanges(n, r) || n == last
  {
    if r != [] && last == r[|r| - 1].end + 1 {
      var older, run := r[..|r| - 1], r[|r| - 1];
      assert r == older + [run];
      InRangesConcat(n, older, [run]);
      InRangesConcat(n, older, [Range(run.start, last)]);
      InRangesOne(n, run);
      InRangesOne(n, Range(run.start, last));
    } else {
      InRangesConcat(n, r, [Range(last, last)]);
      InRangesOne(n, Range(last, last));
    }
  }

  lemma LastRunOrdered(keys: seq<nat>)
    requires Ascending(keys) && keys != []
    ensures var runs := Runs(keys); runs[|runs| - 1].start <= runs[|runs| - 1].end
  {
    RunsSeparated(keys);
  }

  lemma MemberOfSnoc(front: seq<nat>, last: nat, n: nat)
    ensures n in front + [last] <==> n in front || n == last
  {
  }

  lemma {:induction false} RunsCover(keys: seq<nat>, n: nat)
    requires Ascending(keys)
    ensures InRanges(n, Runs(keys)) <==> n in keys
  {
    if keys != [] {
      var front, last := keys[..|keys| - 1], keys[|keys| - 1];
      RunsCover(front, n);
      if front != [] { LastRunOrdered(front); }
      ExtendCovers(Runs(front), last, n);
      MemberOfSnoc(front, last, n);
      assert keys == front + [last];
    }
  }

  /** A separated list of ranges is determined by the nonces it covers. */
  lemma {:induction false} SeparatedUnique(a: seq<Range>, b: seq<Range>)
    requires Separated(a) && Separated(b)
    requires forall n: nat :: InRanges(n, a) <==> InRanges(n, b)
    ensures a == b
  {
    if a == [] {
      if b != [] { assert InRanges(b[0].start, b); assert false; }
    } else if b == [] {
      assert InRanges(a[0].start, a);
      assert false;
    } else {
      FirstBelongs(a, b);
      FirstBelongs(b, a);
      FirstEnd(a, b);
      FirstEnd(b, a);
      forall n: nat
        ensures InRanges(n, a[1..]) <==> InRanges(n, b[1..])
      {
        TailRange(a, n);
        TailRange(b, n);
      }
      SeparatedUnique(a[1..], b[1..]);
    }
  }

  lemma FirstBelongs(a: seq<Range>, b: seq<Range>)
    requires a != [] && b != [] && Separated(a) && Separated(b)
    requires forall n: nat :: InRanges(n, a) <==> InRanges(n, b)
    ensures b[0].start <= a[0].start
  {
    assert a[0].start <= a[0].start <= a[0].end;
    assert InRanges(a[0].start, a);
    var i :| 0 <= i < |b| && b[i].start <= a[0].start <= b[i].end;
    if i > 0 { assert b[0].end + 1 < b[i].start; }
  }

  lemma GapAfterFirst(a: seq<Range>)
    requires a != [] && Separated(a)
    ensures !InRanges(a[0].end + 1, a)
  {
  }

  lemma FirstEnd(a: seq<Range>, b: seq<Range>)
    requires a != [] && b != [] && Separated(a) && Separated(b)
    requires a[0].start == b[0].start
    requires forall n: nat :: InRanges(n, a) <==> InRanges(n, b)
    ensures b[0].end <= a[0].end
  {
    GapAfterFirst(a);
    assert !InRanges(a[0].end + 1, b);
    assert !(b[0].start <= a[0].end + 1 <= b[0].end);
  }

  lemma SeparatedPair(a: seq<Range>, i: nat, j: nat)
    requires Separated(a) && i < j < |a|
    ensures a[i].end + 1 < a[j].start
  {
  }

  lemma TailRange(a: seq<Range>, n: nat)
    requires a != [] && Separated(a)
    ensures InRanges(n, a[1..]) <==> InRanges(n, a) && n > a[0].end
  {
    var t := a[1..];
    if InRanges(n, t) {
      var i :| 0 <= i < |t| && t[i].start <= n <= t[i].end;
      assert a[i + 1].start <= n <= a[i + 1].end;
      assert a[0].end + 1 < a[i + 1].start;
    }
    if InRanges(n, a) && n > a[0].end {
      var i :| 0 <= i < |a| && a[i].start <= n <= a[i].end;
      assert t[i - 1].start <= n <= t[i - 1].end;
    }
  }

  /** The cumulative range, then the runs of buffered nonces. */
  function AckRanges(expected: nat, keys: seq<nat>): seq<Range> {
    (if expected > 0 then [Range(0, expected - 1)] else []) + Runs(keys)
  }

  /** At most eight ranges fit: the first and the last seven survive. */
  function Truncated(ranges: seq<Range>): (t: seq<Range>)
    ensures |t| <= MAX_RANGES
    ensures ranges != [] ==> t != [] && t[0] == ranges[0]
  {
    if |ranges| > MAX_RANGES then [ranges[0]] + ranges[|ranges| - (MAX_RANGES - 1)..] else ranges
  }

  /** What is cut is the middle: eight or fewer stay as they are, of more the first and the newest seven. */
  lemma TruncatedKeeps(ranges: seq<Range>, i: nat)
    requires i < |ranges|
    ensures |ranges| <= 8 ==> Truncated(ranges) == ranges
    ensures |ranges| > 8 && (i == 0 || i >= |ranges| - 7) ==>
              |Truncated(ranges)| == 8 && Truncated(ranges)[if i == 0 then 0 else i - (|ranges| - 8)] == ranges[i]
  {
  }

  function RangeBytes(ranges: seq<Range>): (s: Bytes)
    ensures |s| == 16 * |ranges|
  {
    if ranges == [] then []
    else
      var last := ranges[|ranges| - 1];
      RangeBytes(ranges[..|ranges| - 1]) + U64Bytes(last.start) + U64Bytes(last.end)
  }

  function AckPayload(expected: nat, keys: seq<nat>): Bytes {
    var ranges := Truncated(AckRanges(expected, keys));
    if ranges == [] then [] else [|ranges|] + RangeBytes(ranges)
  }

  /** The first `count` ranges of an ACK payload. */
  function ReadRanges(payload: Bytes, count: nat): (r: seq<Range>)
    requires 1 + 16 * count <= |payload|
    ensures |r| == count
  {
    if count == 0 then []
    else
      var i := 1 + 16 * (count - 1);
      ReadRanges(payload, count - 1) + [Range(FromBe(payload[i..i + 8]), FromBe(payload[i + 8..i + 16]))]
  }

  /** `None` when the payload is shorter than its own count says. */
  function ParseAck(payload: Bytes): Option<seq<Range>> {
    if payload == [] then Some([])
    else
      var count: nat := payload[0];
      if |payload| < 1 + count * 16 then None else Some(ReadRanges(payload, count))
  }

  lemma ReadOneMore(payload: Bytes, front: Bytes, last: Range, tail: Bytes, count: nat)
    requires payload == front + U64Bytes(last.start) + U64Bytes(last.end) + tail
    requires |front| == 1 + 16 * count && last.start <= U64_MAX && last.end <= U64_MAX
    ensures ReadRanges(payload, count + 1) == ReadRanges(payload, count) + [last]
  {
    var i := |front|;
    assert payload[i..i + 8] == U64Bytes(last.start);
    assert payload[i + 8..i + 16] == U64Bytes(last.end);
    U64RoundTrip(last.start);
    U64RoundTrip(last.end);
  }

  lemma Regroup(h: Bytes, a: Bytes, b: Bytes, c: Bytes, d: Bytes)
    ensures h + (a + b + c) + d == h + a + (b + c + d)
    ensures h + (a + b + c) + d == (h + a) + b + c + d
  {
  }

  lemma {:induction false} ReadWritten(ranges: seq<Range>, rest: Bytes, count: byte)
    requires forall i :: 0 <= i < |ranges| ==> ranges[i].start <= U64_MAX && ranges[i].end <= U64_MAX
    ensures ReadRanges([count] + RangeBytes(ranges) + rest, |ranges|) == ranges
  {
    if ranges != [] {
      var k := |ranges| - 1;
      var last, older := ranges[k], ranges[..k];
      var tail := U64Bytes(last.start) + U64Bytes(last.end) + rest;
      var s := [count] + RangeBytes(ranges) + rest;
      Regroup([count], RangeBytes(older), U64Bytes(last.start), U64Bytes(last.end), rest);
      ReadWritten(older, tail, count);
      ReadOneMore(s, [count] + RangeBytes(older), last, rest, k);
      assert ranges == older + [last];
    }
  }

  /** The nonces an endpoint holds: everything below `expected` and what it buffers. */
  ghost predicate Holds(n: nat, expected: nat, keys: seq<nat>) {
    n < expected || n in keys
  }

  lemma AckRangesCover(expected: nat, keys: seq<nat>, n: nat)
    requires Ascending(keys)
    ensures InRanges(n, AckRanges(expected, keys)) <==> Holds(n, expected, keys)
  {
    RunsCover(keys, n);
    var first := if expected > 0 then [Range(0, expected - 1)] else [];
    InRangesConcat(n, first, Runs(keys));
    if expected > 0 { InRangesOne(n, Range(0, expected - 1)); }
  }

  lemma AckRangesSeparated(expected: nat, keys: seq<nat>)
    requires Ascending(keys)
    requires forall i :: 0 <= i < |keys| ==> expected < keys[i]
    ensures Separated(AckRanges(expected, keys))
  {
    var runs := Runs(keys);
    RunsSeparated(keys);
    forall i | 0 <= i < |runs|
      ensures runs[i].start > expected
    {
      if i > 0 { SeparatedPair(runs, 0, i); }
    }
  }

  lemma RangesBounded(ranges: seq<Range>, bound: nat)
    requires Separated(ranges)
    requires forall n: nat :: InRanges(n, ranges) ==> n <= bound
    ensures forall i :: 0 <= i < |ranges| ==> ranges[i].start <= ranges[i].end <= bound
  {
    forall i | 0 <= i < |ranges|
      ensures ranges[i].start <= ranges[i].end <= bound
    {
      assert ranges[i].start <= ranges[i].end <= ranges[i].end;
      assert InRanges(ranges[i].end, ranges);
    }
  }

  /** What was encoded parses back to the truncated ranges. */
  lemma PayloadParses(expected: nat, keys: seq<nat>)
    requires var kept := Truncated(AckRanges(expected, keys));
             forall i :: 0 <= i < |kept| ==> kept[i].start <= U64_MAX && kept[i].end <= U64_MAX
    ensures ParseAck(AckPayload(expected, keys)) == Some(Truncated(AckRanges(expected, keys)))
  {
    var kept := Truncated(AckRanges(expected, keys));
    if kept != [] {
      ReadWritten(kept, [], |kept|);
      assert AckPayload(expected, keys) == [|kept|] + RangeBytes(kept) + [];
    }
  }

  lemma KeptBounded(expected: nat, keys: seq<nat>)
    requires Ascending(keys) && expected <= U64_MAX
    requires forall i :: 0 <= i < |keys| ==> expected < keys[i] <= U64_MAX
    ensures var kept := Truncated(AckRanges(expected, keys));
            forall i :: 0 <= i < |kept| ==> kept[i].start <= U64_MAX && kept[i].end <= U64_MAX
  {
    var all := AckRanges(expected, keys);
    AckRangesSeparated(expected, keys);
    forall n: nat | InRanges(n, all)
      ensures n <= U64_MAX
    {
      AckRangesCover(expected, keys, n);
    }
    RangesBounded(all, U64_MAX);
    TruncatedOnlyDrops(all);
    forall i | 0 <= i < |Truncated(all)|
      ensures Truncated(all)[i].start <= U64_MAX && Truncated(all)[i].end <= U64_MAX
    {
      var j :| 0 <= j < |all| && all[j] == Truncated(all)[i];
    }
  }

  /**
   What an ACK says. Its ranges are sorted and separated; untruncated it names
   exactly the nonces held, truncated it names only nonces held, and the first
   range always survives.
   */
  lemma AckIsTrue(expected: nat, keys: seq<nat>)
    requires Ascending(keys)
    requires expected <= U64_MAX
    requires forall i :: 0 <= i < |keys| ==> expected < keys[i] <= U64_MAX
    ensures ParseAck(AckPayload(expected, keys)) == Some(Truncated(AckRanges(expected, keys)))
    ensures Separated(AckRanges(expected, keys))
    ensures forall n: nat :: InRanges(n, AckRanges(expected, keys)) <==> Holds(n, expected, keys)
    ensures forall n: nat :: InRanges(n, Truncated(AckRanges(expected, keys))) ==> Holds(n, expected, keys)
    ensures var all, kept := AckRanges(expected, keys), Truncated(AckRanges(expected, keys));
            |kept| <= MAX_RANGES && (all != [] ==> kept != [] && kept[0] == all[0])
  {
    AckRangesSeparated(expected, keys);
    KeptBounded(expected, keys);
    PayloadParses(expected, keys);
    TruncatedOnlyDrops(AckRanges(expected, keys));
    forall n: nat
      ensures InRanges(n, AckRanges(expected, keys)) <==> Holds(n, expected, keys)
    {
      AckRangesCover(expected, keys, n);
    }
  }

  lemma TruncatedOnlyDrops(ranges: seq<Range>)
    ensures forall i :: 0 <= i < |Truncated(ranges)| ==> Truncated(ranges)[i] in ranges
    ensures forall n: nat :: InRanges(n, Truncated(ranges)) ==> InRanges(n, ranges)
  {
    var t := Truncated(ranges);
    forall n: nat | InRanges(n, t)
      ensures InRanges(n, ranges)
    {
      var i :| 0 <= i < |t| && t[i].start <= n <= t[i].end;
      var j :| 0 <= j < |ranges| && ranges[j] == t[i];
      assert ranges[j].start <= n <= ranges[j].end;
    }
  }
}
