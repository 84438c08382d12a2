/**
 The filter's wildcard matcher: one pass, remembering only the last star. It agrees
 with the recursive meaning of `*` for every pattern exactly on the texts that have
 no `*` before their last character.
 */
module Glob {
  import opened Basics

  const STAR: char := '*'

  /** What a pattern means: `*` stands for any run of characters, anything else for itself. */
  predicate Matches(p: string, t: string)
    decreases |p|
  {
    if p == [] then t == []
    else if p[0] == STAR then exists k :: 0 <= k <= |t| && Matches(p[1..], t[k..])
    else t != [] && t[0] == p[0] && Matches(p[1..], t[1..])
  }

  predicate AllStars(p: string) {
    forall i :: 0 <= i < |p| ==> p[i] == STAR
  }

  /** The matcher's answer from one of its states; a literal comparison comes before a star. */
  function Greedy(p: string, t: string, pi: nat, ti: nat, star: Option<nat>, mark: nat): bool
    requires pi <= |p| && mark <= ti <= |t| && (star.Some? ==> star.value < |p|)
    decreases |t| - mark, |t| - ti, |p| - pi
  {
    if ti == |t| then AllStars(p[pi..])
    else if pi < |p| && p[pi] == t[ti] then Greedy(p, t, pi + 1, ti + 1, star, mark)
    else if pi < |p| && p[pi] == STAR then Greedy(p, t, pi + 1, ti, Some(pi), ti)
    else if star.Some? then Greedy(p, t, star.value + 1, mark + 1, star, mark + 1)
    else false
  }

  function GlobResult(p: string, t: string): bool {
    Greedy(p, t, 0, 0, None, 0)
  }

  /** The loop itself: it computes `GlobResult` and terminates on a lexicographic measure. */
  method GlobMatch(p: string, t: string) returns (r: bool)
    ensures r == GlobResult(p, t)
    ensures r ==> Matches(p, t)
    ensures Clean(t) ==> r == Matches(p, t)
  {
    GreedySound(p, t, 0, 0, None, 0);
    assert p[0..] == p && t[0..] == t;
    if Clean(t) && Matches(p, t) { GreedyComplete(p, t, 0, 0, None, 0); }
    var pi: nat, ti: nat, star: Option<nat>, mark: nat := 0, 0, None, 0;
    while ti < |t|
      invariant pi <= |p| && mark <= ti <= |t| && (star.Some? ==> star.value < |p|)
      invariant Greedy(p, t, pi, ti, star, mark) == GlobResult(p, t)
      decreases |t| - mark, |t| - ti, |p| - pi
    {
      if pi < |p| && p[pi] == t[ti] {
        pi := pi + 1;
        ti := ti + 1;
      } else if pi < |p| && p[pi] == STAR {
        star := Some(pi);
        mark := ti;
        pi := pi + 1;
      } else if star.Some? {
        pi := star.value + 1;
        mark := mark + 1;
        ti := mark;
      } else {
        return false;
      }
    }
    ghost var at: nat := pi;
    while pi < |p| && p[pi] == STAR
      invariant at <= pi <= |p|
      invariant forall i :: at <= i < pi ==> p[i] == STAR
    {
      pi := pi + 1;
    }
    assert AllStars(p[at..]) <==> pi == |p| by {
      if pi < |p| { assert p[at..][pi - at] == p[pi]; }
    }
    r := pi == |p|;
  }

  // ---------- Meaning ----------

  lemma StarsAhead(p: string)
    requires p != []
    ensures AllStars(p) <==> p[0] == STAR && AllStars(p[1..])
  {
    if p[0] == STAR && AllStars(p[1..]) {
      forall i | 0 <= i < |p|
        ensures p[i] == STAR
      {
        if i > 0 { assert p[1..][i - 1] == p[i]; }
      }
    }
  }

  lemma {:induction false} StarsMatchEmpty(p: string)
    ensures Matches(p, []) <==> AllStars(p)
  {
    if p != [] {
      StarsMatchEmpty(p[1..]);
      StarsAhead(p);
      assert ""[0..] == "";
    }
  }

  /** A star that can take `t[i..]` could also start later text off from there. */
  lemma StarTakes(p: string, t: string, k: nat)
    requires p != [] && p[0] == STAR && k <= |t| && Matches(p[1..], t[k..])
    ensures Matches(p, t)
  {
  }

  /** No false positives, whatever the text. */
  lemma {:induction false} GreedySound(p: string, t: string, pi: nat, ti: nat, star: Option<nat>, mark: nat)
    requires pi <= |p| && mark <= ti <= |t| && (star.Some? ==> star.value < |p|)
    ensures Greedy(p, t, pi, ti, star, mark) ==>
              Matches(p[pi..], t[ti..]) || (star.Some? && exists k :: mark < k <= |t| && Matches(p[star.value + 1..], t[k..]))
    decreases |t| - mark, |t| - ti, |p| - pi
  {
    if ti == |t| {
      assert t[ti..] == [];
      StarsMatchEmpty(p[pi..]);
    } else if pi < |p| && p[pi] == t[ti] {
      GreedySound(p, t, pi + 1, ti + 1, star, mark);
      assert p[pi..][1..] == p[pi + 1..] && t[ti..][1..] == t[ti + 1..];
      if p[pi] == STAR && Matches(p[pi + 1..], t[ti + 1..]) { StarTakes(p[pi..], t[ti..], 1); }
    } else if pi < |p| && p[pi] == STAR {
      GreedySound(p, t, pi + 1, ti, Some(pi), ti);
      assert p[pi..][1..] == p[pi + 1..];
      if Matches(p[pi + 1..], t[ti..]) {
        assert t[ti..][0..] == t[ti..];
        StarTakes(p[pi..], t[ti..], 0);
      } else if exists k :: ti < k <= |t| && Matches(p[pi + 1..], t[k..]) {
        var k :| ti < k <= |t| && Matches(p[pi + 1..], t[k..]);
        assert t[ti..][k - ti..] == t[k..];
        StarTakes(p[pi..], t[ti..], k - ti);
      }
    } else if star.Some? {
      GreedySound(p, t, star.value + 1, mark + 1, star, mark + 1);
    }
  }

  // ---------- Completeness on clean texts ----------

  /** No `*` before the last character. */
  predicate Clean(t: string) {
    forall i :: 0 <= i < |t| - 1 ==> t[i] != STAR
  }

  /** A literal stretch of pattern can only be matched by consuming it. */
  lemma {:induction false} LiteralsConsumed(p: string, t: string, n: nat)
    requires n <= |p| && (forall i :: 0 <= i < n ==> p[i] != STAR) && Matches(p, t)
    ensures n <= |t| && Matches(p[n..], t[n..])
  {
    if n == 0 {
      assert p[0..] == p && t[0..] == t;
    } else {
      LiteralsConsumed(p[1..], t[1..], n - 1);
      assert p[1..][n - 1..] == p[n..] && t[1..][n - 1..] == t[n..];
    }
  }

  /** Only stars match a lone `*`, so they match nothing at all as well. */
  lemma {:induction false} LoneStar(p: string)
    requires Matches(p, [STAR])
    ensures p != [] && p[0] == STAR && Matches(p[1..], []) && Matches(p, [])
  {
    var t := [STAR];
    assert p[0] == STAR;
    var k :| 0 <= k <= |t| && Matches(p[1..], t[k..]);
    if k == 0 {
      assert t[0..] == t;
      LoneStar(p[1..]);
    } else {
      assert t[1..] == [];
    }
    assert ""[0..] == "";
    StarTakes(p, [], 0);
  }

  /**
   Where the last star stands: the pattern since then is matched literally with the
   text since `mark`.
   */
  ghost predicate Aligned(p: string, t: string, pi: nat, ti: nat, star: Option<nat>, mark: nat)
    requires pi <= |p| && mark <= ti <= |t| && (star.Some? ==> star.value < |p|)
  {
    star.Some? ==>
      star.value < pi && p[star.value + 1..pi] == t[mark..ti]
  }

  /** A new star makes every alternative of the old one superfluous. */
  lemma OldStarSubsumed(p: string, t: string, pi: nat, ti: nat, s: nat, mark: nat, k: nat)
    requires pi < |p| && p[pi] == STAR && mark <= ti < |t| && Clean(t)
    requires s < |p| && Aligned(p, t, pi, ti, Some(s), mark)
    requires mark < k <= |t| && Matches(p[s + 1..], t[k..])
    ensures exists j :: ti <= j <= |t| && Matches(p[pi + 1..], t[j..])
  {
    var n := ti - mark;
    var q := p[s + 1..];
    forall i | 0 <= i < n
      ensures q[i] != STAR
    {
      assert q[i] == p[s + 1..pi][i] == t[mark..ti][i] == t[mark + i];
    }
    LiteralsConsumed(q, t[k..], n);
    assert q[n..] == p[pi..] && t[k..][n..] == t[k + n..];
    assert p[pi..][1..] == p[pi + 1..];
    var j :| 0 <= j <= |t[k + n..]| && Matches(p[pi + 1..], t[k + n..][j..]);
    assert t[k + n..][j..] == t[k + n + j..];
  }

  /** The text still to be matched can be, from here or from a later place for the last star. */
  ghost predicate Possible(p: string, t: string, pi: nat, ti: nat, star: Option<nat>, mark: nat)
    requires pi <= |p| && mark <= ti <= |t| && (star.Some? ==> star.value < |p|)
  {
    Matches(p[pi..], t[ti..]) || (star.Some? && Later(p, t, star.value + 1, mark))
  }

  ghost predicate Later(p: string, t: string, from: nat, mark: nat)
    requires from <= |p|
  {
    exists k :: mark < k <= |t| && Matches(p[from..], t[k..])
  }

  lemma LiteralStep(p: string, t: string, pi: nat, ti: nat)
    requires pi < |p| && ti < |t| && p[pi] == t[ti] && Clean(t) && Matches(p[pi..], t[ti..])
    ensures Matches(p[pi + 1..], t[ti + 1..])
  {
    assert p[pi..][1..] == p[pi + 1..] && t[ti..][1..] == t[ti + 1..];
    if p[pi] == STAR {
      assert t[ti..] == [STAR] && t[ti + 1..] == [];
      LoneStar(p[pi..]);
    }
  }

  lemma StarStep(p: string, t: string, pi: nat, ti: nat, star: Option<nat>, mark: nat)
    requires pi < |p| && p[pi] == STAR && mark <= ti < |t| && (star.Some? ==> star.value < |p|)
    requires Clean(t) && Aligned(p, t, pi, ti, star, mark) && Possible(p, t, pi, ti, star, mark)
    ensures Possible(p, t, pi + 1, ti, Some(pi), ti)
  {
    var j: nat;
    if Matches(p[pi..], t[ti..]) {
      assert p[pi..][1..] == p[pi + 1..];
      var k :| 0 <= k <= |t[ti..]| && Matches(p[pi + 1..], t[ti..][k..]);
      assert t[ti..][k..] == t[ti + k..];
      j := ti + k;
    } else {
      var k :| mark < k <= |t| && Matches(p[star.value + 1..], t[k..]);
      OldStarSubsumed(p, t, pi, ti, star.value, mark, k);
      j :| ti <= j <= |t| && Matches(p[pi + 1..], t[j..]);
    }
    if j > ti { assert Later(p, t, pi + 1, ti); }
  }

  /** At the end of the text only stars may remain. */
  lemma EndStep(p: string, t: string, pi: nat, star: Option<nat>, mark: nat)
    requires pi <= |p| && mark <= |t| && (star.Some? ==> star.value < |p|)
    requires Clean(t) && Aligned(p, t, pi, |t|, star, mark) && Possible(p, t, pi, |t|, star, mark)
    ensures AllStars(p[pi..])
  {
    assert t[|t|..] == [];
    if star.None? || !Later(p, t, star.value + 1, mark) {
      StarsMatchEmpty(p[pi..]);
    } else {
      var k :| mark < k <= |t| && Matches(p[star.value + 1..], t[k..]);
      LaterEnds(p, t, pi, star.value, mark, k);
      assert p[pi..] == p[pi - 1..][1..];
      StarsAhead(p[pi - 1..]);
    }
  }

  lemma LaterEnds(p: string, t: string, pi: nat, s: nat, mark: nat, k: nat)
    requires s < pi <= |p| && mark < k <= |t| && Clean(t) && p[s + 1..pi] == t[mark..]
    requires Matches(p[s + 1..], t[k..])
    ensures AllStars(p[pi - 1..])
  {
    var n, q, rest := |t| - mark, p[s + 1..], t[k..];
    forall i | 0 <= i < n - 1
      ensures q[i] != STAR
    {
      LiteralSinceStar(p, t, pi, s, mark, i);
    }
    LiteralsConsumed(q, rest, n - 1);
    DropTwice(p, s + 1, n - 1);
    assert rest[n - 1..] == [];
    StarsMatchEmpty(p[pi - 1..]);
  }

  lemma LiteralSinceStar(p: string, t: string, pi: nat, s: nat, mark: nat, i: nat)
    requires s < pi <= |p| && mark <= |t| && Clean(t) && p[s + 1..pi] == t[mark..] && mark + i + 1 < |t|
    ensures s + 1 + i < |p| && p[s + 1 + i] != STAR
  {
    assert p[s + 1..pi][i] == t[mark..][i] == t[mark + i];
  }

  lemma DropTwice(p: string, a: nat, b: nat)
    requires a + b <= |p|
    ensures p[a..][b..] == p[a + b..]
  {
  }

  lemma AlignedLiteral(p: string, t: string, pi: nat, ti: nat, star: Option<nat>, mark: nat)
    requires pi < |p| && mark <= ti < |t| && (star.Some? ==> star.value < |p|) && p[pi] == t[ti]
    requires Aligned(p, t, pi, ti, star, mark)
    ensures Aligned(p, t, pi + 1, ti + 1, star, mark)
  {
    if star.Some? {
      assert p[star.value + 1..pi + 1] == p[star.value + 1..pi] + [p[pi]];
      assert t[mark..ti + 1] == t[mark..ti] + [t[ti]];
    }
  }

  lemma Mismatch(p: string, t: string, pi: nat, ti: nat)
    requires pi <= |p| && ti < |t| && (pi < |p| ==> p[pi] != t[ti] && p[pi] != STAR)
    ensures !Matches(p[pi..], t[ti..])
  {
    if pi < |p| { assert p[pi..][0] == p[pi] && t[ti..][0] == t[ti]; }
  }

  /** On a mismatch the last star takes one more character. */
  lemma RestartStep(p: string, t: string, pi: nat, ti: nat, star: Option<nat>, mark: nat)
    requires pi <= |p| && mark <= ti < |t| && (star.Some? ==> star.value < |p|)
    requires (pi < |p| ==> p[pi] != t[ti] && p[pi] != STAR) && Possible(p, t, pi, ti, star, mark)
    ensures star.Some? && Possible(p, t, star.value + 1, mark + 1, star, mark + 1)
    ensures Aligned(p, t, star.value + 1, mark + 1, star, mark + 1)
  {
    Mismatch(p, t, pi, ti);
    var s := star.value;
    var k :| mark < k <= |t| && Matches(p[s + 1..], t[k..]);
    if k > mark + 1 { assert Later(p, t, s + 1, mark + 1); }
  }

  lemma {:induction false} GreedyComplete(p: string, t: string, pi: nat, ti: nat, star: Option<nat>, mark: nat)
    requires pi <= |p| && mark <= ti <= |t| && (star.Some? ==> star.value < |p|)
    requires Clean(t) && Aligned(p, t, pi, ti, star, mark) && Possible(p, t, pi, ti, star, mark)
    ensures Greedy(p, t, pi, ti, star, mark)
    decreases |t| - mark, |t| - ti, |p| - pi
  {
    if ti == |t| {
      EndStep(p, t, pi, star, mark);
    } else if pi < |p| && p[pi] == t[ti] {
      if Matches(p[pi..], t[ti..]) { LiteralStep(p, t, pi, ti); }
      AlignedLiteral(p, t, pi, ti, star, mark);
      GreedyComplete(p, t, pi + 1, ti + 1, star, mark);
    } else if pi < |p| && p[pi] == STAR {
      StarStep(p, t, pi, ti, star, mark);
      GreedyComplete(p, t, pi + 1, ti, Some(pi), ti);
    } else {
      RestartStep(p, t, pi, ti, star, mark);
      GreedyComplete(p, t, star.value + 1, mark + 1, star, mark + 1);
    }
  }

  // ---------- Exactly when the two agree ----------

  function FirstStar(t: string): (i: nat)
    ensures i <= |t| && (forall j :: 0 <= j < i ==> t[j] != STAR) && (i < |t| ==> t[i] == STAR)
  {
    if t == [] || t[0] == STAR then 0 else 1 + FirstStar(t[1..])
  }

  /** A pattern that means the text and is refused: the text up to its first `*`, then a star. */
  function Refused(t: string): string {
    t[..FirstStar(t)] + [STAR]
  }

  lemma {:induction false} RefusedRun(t: string, i: nat)
    requires !Clean(t) && i <= FirstStar(t)
    ensures !Greedy(Refused(t), t, i, i, None, 0)
    decreases |t| - i
  {
    var n := FirstStar(t);
    assert n < |t| - 1;
    if i < n {
      RefusedRun(t, i + 1);
    } else {
      assert Refused(t)[n] == STAR == t[n];
    }
  }

  lemma {:induction false} LiteralPrefixMatches(a: string, p: string, t: string)
    requires |a| <= |t| && a == t[..|a|] && (forall i :: 0 <= i < |a| ==> a[i] != STAR) && Matches(p, t[|a|..])
    ensures Matches(a + p, t)
  {
    if a == [] {
      assert a + p == p && t[0..] == t;
    } else {
      assert t[1..][|a| - 1..] == t[|a|..];
      LiteralPrefixMatches(a[1..], p, t[1..]);
      assert (a + p)[1..] == a[1..] + p && (a + p)[0] == a[0];
    }
  }

  /** It means the text, and the matcher refuses it. */
  lemma RefusedDisagrees(t: string)
    requires !Clean(t)
    ensures !GlobResult(Refused(t), t) && Matches(Refused(t), t)
  {
    RefusedRun(t, 0);
    var n := FirstStar(t);
    var rest := t[n..];
    assert rest[|rest|..] == [] && [STAR][1..] == [];
    StarTakes([STAR], rest, |rest|);
    LiteralPrefixMatches(t[..n], [STAR], t);
  }

  /** The matcher agrees with the meaning of every pattern on `t` if and only if `t` is clean. */
  lemma AgreesExactlyOnCleanTexts(t: string)
    ensures (forall p: string :: GlobResult(p, t) <==> Matches(p, t)) <==> Clean(t)
  {
    if Clean(t) {
      forall p: string
        ensures GlobResult(p, t) <==> Matches(p, t)
      {
        assert p[0..] == p && t[0..] == t;
        GreedySound(p, t, 0, 0, None, 0);
        if Matches(p, t) { GreedyComplete(p, t, 0, 0, None, 0); }
      }
    } else {
      RefusedDisagrees(t);
    }
  }
}
