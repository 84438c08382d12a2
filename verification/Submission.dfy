/**
 What an application submits is what its endpoint seals: the Data frames, in nonce
 order, are exactly the streams and payloads of its Outbound events.
 */
module Submission {
  import opened Wire
  import opened Endpoint
  import opened EndpointInvariants
  import opened EndpointDelivery
  import Answers

  /** What an event takes from the application: an established endpoint takes every payload. */
  function Submitted(s: Endpoint, e: Event): seq<Delivery> {
    match e
    case Outbound(stream, payload) => if s.state == Established then [Delivery(stream, payload)] else []
    case _ => []
  }

  lemma {:induction false} DataPayloadsConcat(a: seq<Frame>, b: seq<Frame>)
    ensures DataPayloads(a + b) == DataPayloads(a) + DataPayloads(b)
  {
    if b == [] {
      assert a + b == a;
    } else {
      assert (a + b)[..|a + b| - 1] == a + b[..|b| - 1];
      DataPayloadsConcat(a, b[..|b| - 1]);
    }
  }

  lemma {:induction false} ControlHasNoPayload(frames: seq<Frame>)
    requires forall i :: 0 <= i < |frames| ==> frames[i].kind != Data
    ensures DataPayloads(frames) == []
  {
    if frames != [] { ControlHasNoPayload(frames[..|frames| - 1]); }
  }

  lemma OneMoreFrame(frames: seq<Frame>, f: Frame)
    ensures DataPayloads(frames + [f]) == DataPayloads(frames) + DeliveryOf(f)
  {
    assert (frames + [f])[..|frames|] == frames;
  }

  lemma ControlAddsNothing(s: Endpoint, t: Endpoint)
    requires Answers.OnlyControl(s, t)
    ensures DataPayloads(t.sealed) == DataPayloads(s.sealed)
  {
    var added := t.sealed[|s.sealed|..];
    assert t.sealed == s.sealed + added;
    DataPayloadsConcat(s.sealed, added);
    ControlHasNoPayload(added);
  }

  lemma BuildSeals(s: Endpoint, f: Frame, now: int)
    ensures Build(s, f, true, now).0.sealed == s.sealed + [f]
  {
  }

  lemma OutboundSeals(s: Endpoint, stream: nat, payload: Bytes, now: int)
    ensures var t := OnEvent(s, Outbound(stream, payload), now).0;
            t.sealed == if s.state == Established then s.sealed + [Frame(Data, stream, payload)] else s.sealed
  {
    if s.state == Established { BuildSeals(s, Frame(Data, stream, payload), now); }
  }

  lemma ShutdownSeals(s: Endpoint, now: int)
    ensures var t := OnEvent(s, Shutdown, now).0;
            t.sealed == if s.state == Established then s.sealed + [Frame(Close, 0, [])] else s.sealed
  {
    if s.state == Established { BuildSeals(s.(state := Closing), Frame(Close, 0, []), now); }
  }

  /** Whatever the event, what it seals as Data is what it takes from the application. */
  lemma EventSeals(s: Endpoint, e: Event, now: int)
    ensures DataPayloads(OnEvent(s, e, now).0.sealed) == DataPayloads(s.sealed) + Submitted(s, e)
  {
    if e.Outbound? {
      OutboundSeals(s, e.stream, e.payload, now);
      OneMoreFrame(s.sealed, Frame(Data, e.stream, e.payload));
    } else if e.Shutdown? {
      ShutdownSeals(s, now);
      OneMoreFrame(s.sealed, Frame(Close, 0, []));
    } else {
      Answers.AnyEventFollows(s, e, now);
      ControlAddsNothing(s, OnEvent(s, e, now).0);
    }
  }

  // ---------- A selection ----------

  /** `got` is `all` at places that increase. */
  ghost predicate Selects(got: seq<Delivery>, all: seq<Delivery>, at: seq<nat>) {
    && Ascending(at) && |at| == |got|
    && forall i :: 0 <= i < |at| ==> at[i] < |all| && got[i] == all[at[i]]
  }

  /** Everything that was released, in order, is a selection of everything sealed. */
  lemma {:induction false} ExtractSelects(frames: seq<Frame>, fates: seq<Fate>) returns (at: seq<nat>)
    requires |fates| <= |frames|
    ensures Selects(Extract(frames, fates), DataPayloads(frames[..|fates|]), at)
  {
    at := [];
    if fates != [] {
      var n := |fates| - 1;
      at := ExtractSelects(frames, fates[..n]);
      assert frames[..n + 1] == frames[..n] + [frames[n]];
      OneMoreFrame(frames[..n], frames[n]);
      if fates[n] == Released && frames[n].kind == Data { at := at + [|DataPayloads(frames[..n])|]; }
    }
  }

  lemma PrefixPayloads(frames: seq<Frame>, n: nat)
    requires n <= |frames|
    ensures DataPayloads(frames[..n]) <= DataPayloads(frames)
  {
    assert frames == frames[..n] + frames[n..];
    DataPayloadsConcat(frames[..n], frames[n..]);
  }
}
