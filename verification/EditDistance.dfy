/**
 The edit distance behind the "did you mean" of a config check: the two-row loop
 computes the recursive distance, which is the cost of the cheapest script and the
 length of the shortest chain of single-character edits between the two strings.
 */
module EditDistance {
  import opened Basics

  function Cost(differs: bool): nat { if differs then 1 else 0 }

  function Min3(x: nat, y: nat, z: nat): nat {
    if x <= y then if x <= z then x else z else if y <= z then y else z
  }

  function Front(s: string): string
    requires s != []
  {
    s[..|s| - 1]
  }

  function Last(s: string): char
    requires s != []
  {
    s[|s| - 1]
  }

  function Distance(a: string, b: string): nat
    decreases |a| + |b|
  {
    if a == [] then |b|
    else if b == [] then |a|
    else Min3(Distance(Front(a), Front(b)) + Cost(Last(a) != Last(b)), Distance(Front(a), b) + 1, Distance(a, Front(b)) + 1)
  }

  // ---------- The loop ----------

  /** The distance from the first `i` characters of `a` to the first `j` of `b`. */
  function Cell(a: string, b: string, i: nat, j: nat): nat
    requires i <= |a| && j <= |b|
    decreases i + j
  {
    if i == 0 then j
    else if j == 0 then i
    else Min3(Cell(a, b, i - 1, j - 1) + Cost(a[i - 1] != b[j - 1]), Cell(a, b, i - 1, j) + 1, Cell(a, b, i, j - 1) + 1)
  }

  lemma FrontOfPrefix(s: string, n: nat)
    requires 0 < n <= |s|
    ensures Front(s[..n]) == s[..n - 1] && Last(s[..n]) == s[n - 1]
  {
  }

  /** The cell stands for the prefixes `p` and `q` of its lengths. */
  lemma {:induction false} CellMeaning(a: string, b: string, i: nat, j: nat, p: string, q: string)
    requires i <= |a| && j <= |b| && p == a[..i] && q == b[..j]
    ensures Cell(a, b, i, j) == Distance(p, q)
    decreases i + j
  {
    if i > 0 && j > 0 {
      FrontOfPrefix(a, i);
      FrontOfPrefix(b, j);
      CellMeaning(a, b, i - 1, j - 1, Front(p), Front(q));
      CellMeaning(a, b, i - 1, j, Front(p), q);
      CellMeaning(a, b, i, j - 1, p, Front(q));
    }
  }

  ghost predicate IsRow(row: seq<nat>, a: string, b: string, i: nat, n: nat)
    requires i <= |a| && n <= |b| + 1
  {
    |row| == n && forall j :: 0 <= j < n ==> row[j] == Cell(a, b, i, j)
  }

  method Levenshtein(a: string, b: string) returns (d: nat)
    ensures d == Distance(a, b)
  {
    var prev: seq<nat> := seq(|b| + 1, j => j);
    for i := 0 to |a|
      invariant IsRow(prev, a, b, i, |b| + 1)
    {
      var cur: seq<nat> := [i + 1];
      for j := 0 to |b|
        invariant IsRow(cur, a, b, i + 1, j + 1)
      {
        var cell := Min3(prev[j] + Cost(a[i] != b[j]), prev[j + 1] + 1, cur[j] + 1);
        assert cell == Cell(a, b, i + 1, j + 1);
        cur := cur + [cell];
      }
      prev := cur;
    }
    d := prev[|b|];
    assert a == a[..|a|] && b == b[..|b|];
    CellMeaning(a, b, |a|, |b|, a, b);
  }

  // ---------- Scripts ----------

  /** One step of a script: a character that becomes another, appears, or vanishes. */
  datatype Edit = Edit(from: Option<char>, to: Option<char>)

  function Text(c: Option<char>): string { if c.Some? then [c.value] else [] }

  function Source(script: seq<Edit>): string {
    if script == [] then [] else Source(script[..|script| - 1]) + Text(script[|script| - 1].from)
  }

  function Target(script: seq<Edit>): string {
    if script == [] then [] else Target(script[..|script| - 1]) + Text(script[|script| - 1].to)
  }

  function Price(script: seq<Edit>): nat {
    if script == [] then 0
    else Price(script[..|script| - 1]) + Cost(script[|script| - 1].from != script[|script| - 1].to)
  }

  lemma Snoc(script: seq<Edit>, e: Edit)
    ensures Source(script + [e]) == Source(script) + Text(e.from)
    ensures Target(script + [e]) == Target(script) + Text(e.to)
    ensures Price(script + [e]) == Price(script) + Cost(e.from != e.to)
  {
    assert (script + [e])[..|script|] == script;
  }

  /** One more character on either side costs at most one more. */
  lemma Append(a: string, b: string, x: Option<char>, y: Option<char>)
    ensures Distance(a + Text(x), b + Text(y)) <= Distance(a, b) + Cost(x != y)
  {
    var p, q := a + Text(x), b + Text(y);
    if x.Some? { assert Front(p) == a && Last(p) == x.value; } else { assert p == a; }
    if y.Some? { assert Front(q) == b && Last(q) == y.value; } else { assert q == b; }
  }

  /** No script between two strings is cheaper than their distance. */
  lemma {:induction false} NoScriptIsCheaper(script: seq<Edit>)
    ensures Distance(Source(script), Target(script)) <= Price(script)
  {
    if script != [] {
      var front, e := script[..|script| - 1], script[|script| - 1];
      NoScriptIsCheaper(front);
      Append(Source(front), Target(front), e.from, e.to);
    }
  }

  /** The last edit of a cheapest script. */
  function LastEdit(a: string, b: string): Edit
    requires a != [] || b != []
  {
    if a == [] || (b != [] && Distance(a, b) == Distance(a, Front(b)) + 1) then Edit(None, Some(Last(b)))
    else if b == [] || Distance(a, b) == Distance(Front(a), b) + 1 then Edit(Some(Last(a)), None)
    else Edit(Some(Last(a)), Some(Last(b)))
  }

  /** What is left of `s` before the character `c`. */
  function Less(s: string, c: Option<char>): string
    requires c.Some? ==> s != []
  {
    if c.Some? then Front(s) else s
  }

  lemma LastEditPays(a: string, b: string)
    requires a != [] || b != []
    ensures var e := LastEdit(a, b);
            && (e.from.Some? ==> a != []) && (e.to.Some? ==> b != []) && (e.from.Some? || e.to.Some?)
            && Less(a, e.from) + Text(e.from) == a && Less(b, e.to) + Text(e.to) == b
            && Distance(a, b) == Distance(Less(a, e.from), Less(b, e.to)) + Cost(e.from != e.to)
  {
    if a != [] { assert Front(a) + [Last(a)] == a; }
    if b != [] { assert Front(b) + [Last(b)] == b; }
  }

  /** Some script costs exactly the distance. */
  lemma {:induction false} CheapestScript(a: string, b: string) returns (script: seq<Edit>)
    ensures Source(script) == a && Target(script) == b && Price(script) == Distance(a, b)
    decreases |a| + |b|
  {
    if a == [] && b == [] {
      script := [];
    } else {
      LastEditPays(a, b);
      var e := LastEdit(a, b);
      var front := CheapestScript(Less(a, e.from), Less(b, e.to));
      Snoc(front, e);
      script := front + [e];
    }
  }

  // ---------- A metric ----------

  lemma {:induction false} Undo(script: seq<Edit>) returns (back: seq<Edit>)
    ensures Source(back) == Target(script) && Target(back) == Source(script) && Price(back) == Price(script)
  {
    if script == [] {
      back := [];
    } else {
      var e := script[|script| - 1];
      var front := Undo(script[..|script| - 1]);
      Snoc(front, Edit(e.to, e.from));
      back := front + [Edit(e.to, e.from)];
    }
  }

  /** Two scripts that meet in the middle make one, and it costs no more. */
  lemma {:induction false} Compose(s: seq<Edit>, t: seq<Edit>) returns (u: seq<Edit>)
    requires Target(s) == Source(t)
    ensures Source(u) == Source(s) && Target(u) == Target(t) && Price(u) <= Price(s) + Price(t)
    decreases |s| + |t|
  {
    if s != [] && s[|s| - 1].to.None? {
      var front := Compose(s[..|s| - 1], t);
      Snoc(front, Edit(s[|s| - 1].from, None));
      u := front + [Edit(s[|s| - 1].from, None)];
    } else if t != [] && t[|t| - 1].from.None? {
      var front := Compose(s, t[..|t| - 1]);
      Snoc(front, Edit(None, t[|t| - 1].to));
      u := front + [Edit(None, t[|t| - 1].to)];
    } else if s == [] || t == [] {
      u := [];
    } else {
      var e, f := s[|s| - 1], t[|t| - 1];
      var m := Target(s);
      assert Last(m) == e.to.value == f.from.value;
      assert Target(s[..|s| - 1]) == Front(m) == Source(t[..|t| - 1]);
      var front := Compose(s[..|s| - 1], t[..|t| - 1]);
      Snoc(front, Edit(e.from, f.to));
      u := front + [Edit(e.from, f.to)];
    }
  }

  /** The distance is a metric. */
  lemma Metric(a: string, b: string, c: string)
    ensures Distance(a, b) == 0 <==> a == b
    ensures Distance(a, b) == Distance(b, a)
    ensures Distance(a, c) <= Distance(a, b) + Distance(b, c)
  {
    Apart(a, b);
    NoFarther(a, b);
    NoFarther(b, a);
    var s := CheapestScript(a, b);
    var t := CheapestScript(b, c);
    var u := Compose(s, t);
    NoScriptIsCheaper(u);
  }

  lemma NoFarther(a: string, b: string)
    ensures Distance(b, a) <= Distance(a, b)
  {
    var s := CheapestScript(a, b);
    var back := Undo(s);
    NoScriptIsCheaper(back);
  }

  lemma {:induction false} Apart(a: string, b: string)
    ensures Distance(a, b) == 0 <==> a == b
    decreases |a|
  {
    if a != [] && b != [] {
      Apart(Front(a), Front(b));
      assert a == Front(a) + [Last(a)] && b == Front(b) + [Last(b)];
    }
  }

  // ---------- Chains of single edits ----------

  /** `t` is `s` with one place rewritten: at most one character out, at most one in. */
  ghost predicate Rewrites(s: string, t: string, i: nat, x: Option<char>, y: Option<char>) {
    && x != y && i + |Text(x)| <= |s|
    && s[i..i + |Text(x)|] == Text(x)
    && t == s[..i] + Text(y) + s[i + |Text(x)|..]
  }

  ghost predicate OneEdit(s: string, t: string) {
    exists i: nat, x, y :: Rewrites(s, t, i, x, y)
  }

  ghost predicate Chain(steps: seq<string>) {
    && steps != []
    && forall i, j :: 0 <= i < j < |steps| && j == i + 1 ==> OneEdit(steps[i], steps[j])
  }

  lemma SnocTail(s: string, tail: string)
    requires tail != []
    ensures s + Front(tail) + Text(Some(Last(tail))) == s + tail
  {
    assert tail == Front(tail) + [Last(tail)];
  }

  lemma {:induction false} CommonTail(a: string, b: string, tail: string)
    ensures Distance(a + tail, b + tail) <= Distance(a, b)
    decreases |tail|
  {
    if tail == [] {
      assert a + tail == a && b + tail == b;
    } else {
      CommonTail(a, b, Front(tail));
      Append(a + Front(tail), b + Front(tail), Some(Last(tail)), Some(Last(tail)));
      SnocTail(a, tail);
      SnocTail(b, tail);
    }
  }

  lemma NearAtEnd(s: string, x: Option<char>, y: Option<char>, tail: string)
    ensures Distance(s + Text(x) + tail, s + Text(y) + tail) <= 1
  {
    Apart(s, s);
    Append(s, s, x, y);
    CommonTail(s + Text(x), s + Text(y), tail);
  }

  lemma OneEditIsNear(s: string, t: string)
    requires OneEdit(s, t)
    ensures Distance(s, t) <= 1
  {
    var i: nat, x, y :| Rewrites(s, t, i, x, y);
    var tail := s[i + |Text(x)|..];
    NearAtEnd(s[..i], x, y, tail);
    assert s == s[..i] + Text(x) + tail;
  }

  /** No chain of single edits is shorter than the distance between its ends. */
  lemma {:induction false} NoChainIsShorter(steps: seq<string>)
    requires Chain(steps)
    ensures Distance(steps[0], steps[|steps| - 1]) <= |steps| - 1
  {
    if |steps| == 1 {
      Apart(steps[0], steps[0]);
    } else {
      var front := steps[..|steps| - 1];
      NoChainIsShorter(front);
      OneEditIsNear(steps[|steps| - 2], steps[|steps| - 1]);
      Metric(steps[0], steps[|steps| - 2], steps[|steps| - 1]);
    }
  }

  lemma EditBefore(s: string, t: string, tail: string)
    requires OneEdit(s, t)
    ensures OneEdit(s + tail, t + tail)
  {
    var i: nat, x, y :| Rewrites(s, t, i, x, y);
    var u := s + tail;
    assert u[i..i + |Text(x)|] == Text(x);
    assert t + tail == u[..i] + Text(y) + u[i + |Text(x)|..];
    assert Rewrites(u, t + tail, i, x, y);
  }

  lemma EditAtEnd(s: string, x: Option<char>, y: Option<char>)
    requires x != y
    ensures OneEdit(s + Text(x), s + Text(y))
  {
    var u := s + Text(x);
    assert s + Text(y) == u[..|s|] + Text(y) + u[|s| + |Text(x)|..];
    assert Rewrites(u, s + Text(y), |s|, x, y);
  }

  function WithTail(steps: seq<string>, tail: string): (r: seq<string>)
    ensures |r| == |steps| && forall i :: 0 <= i < |r| ==> r[i] == steps[i] + tail
  {
    seq(|steps|, i requires 0 <= i < |steps| => steps[i] + tail)
  }

  lemma ChainWithTail(steps: seq<string>, tail: string)
    requires Chain(steps)
    ensures Chain(WithTail(steps, tail))
  {
    var r := WithTail(steps, tail);
    forall i, j | 0 <= i < j < |r| && j == i + 1
      ensures OneEdit(r[i], r[j])
    {
      EditBefore(steps[i], steps[j], tail);
    }
  }

  /** `steps` plays `script` one edit at a time. */
  ghost predicate Plays(steps: seq<string>, script: seq<Edit>) {
    Chain(steps) && steps[0] == Source(script) && steps[|steps| - 1] == Target(script) && |steps| == Price(script) + 1
  }

  lemma PlaysOn(before: seq<string>, front: seq<Edit>, e: Edit) returns (steps: seq<string>)
    requires Plays(before, front)
    ensures Plays(steps, front + [e])
  {
    var script := front + [e];
    assert script[..|script| - 1] == front;
    steps := WithTail(before, Text(e.from));
    ChainWithTail(before, Text(e.from));
    if e.from != e.to {
      EditAtEnd(Target(front), e.from, e.to);
      ChainGrows(steps, Target(script));
      steps := steps + [Target(script)];
    }
  }

  lemma ChainGrows(steps: seq<string>, s: string)
    requires Chain(steps) && OneEdit(steps[|steps| - 1], s)
    ensures Chain(steps + [s])
  {
  }

  /** A script can be played one edit at a time. */
  lemma {:induction false} Play(script: seq<Edit>) returns (steps: seq<string>)
    ensures Plays(steps, script)
  {
    if script == [] {
      steps := [[]];
    } else {
      var front, e := script[..|script| - 1], script[|script| - 1];
      var before := Play(front);
      steps := PlaysOn(before, front, e);
      assert front + [e] == script;
    }
  }

  /** The distance is the length of the shortest chain of single-character edits. */
  lemma ShortestChain(a: string, b: string) returns (steps: seq<string>)
    ensures Chain(steps) && steps[0] == a && steps[|steps| - 1] == b && |steps| == Distance(a, b) + 1
    ensures forall other :: Chain(other) && other[0] == a && other[|other| - 1] == b ==> |steps| <= |other|
  {
    var script := CheapestScript(a, b);
    steps := Play(script);
    forall other | Chain(other) && other[0] == a && other[|other| - 1] == b
      ensures |steps| <= |other|
    {
      NoChainIsShorter(other);
    }
  }

  // ---------- The suggestion ----------

  /** Unicode lower case and UTF-8 length, as the standard library has them. */
  datatype Strings = Strings(lower: string -> string, bytes: string -> nat)

  function Apartness(u: Strings, key: string, c: string): nat {
    Distance(u.lower(key), u.lower(c))
  }

  predicate Near(u: Strings, key: string, c: string) {
    Apartness(u, key, c) <= Max(2, u.bytes(c) / 4)
  }

  /** Up to two edits are always near; more only at one edit for every four bytes of the candidate. */
  lemma NearIff(u: Strings, key: string, c: string)
    ensures Near(u, key, c) <==> Apartness(u, key, c) <= 2 || 4 * Apartness(u, key, c) <= u.bytes(c)
  {
  }

  /** Upper and lower case do not tell names apart. */
  lemma CaseDoesNotMatter(u: Strings, key: string, other: string, c: string)
    requires u.lower(key) == u.lower(other)
    ensures Near(u, key, c) == Near(u, other, c) && Apartness(u, key, c) == Apartness(u, other, c)
    ensures u.lower(key) == u.lower(c) <==> Apartness(u, key, c) == 0
  {
    Metric(u.lower(key), u.lower(c), []);
  }

  /** A nearest candidate within its own threshold, the first of them. */
  ghost predicate IsClosest(u: Strings, key: string, candidates: seq<string>, i: nat) {
    && i < |candidates| && Near(u, key, candidates[i])
    && (forall j :: 0 <= j < |candidates| && Near(u, key, candidates[j]) ==>
          Apartness(u, key, candidates[i]) <= Apartness(u, key, candidates[j]))
    && (forall j :: 0 <= j < i && Near(u, key, candidates[j]) ==>
          Apartness(u, key, candidates[i]) < Apartness(u, key, candidates[j]))
  }

  method Closest(u: Strings, key: string, candidates: seq<string>) returns (r: Option<string>)
    ensures r.None? <==> forall j :: 0 <= j < |candidates| ==> !Near(u, key, candidates[j])
    ensures r.Some? ==> exists i: nat :: IsClosest(u, key, candidates, i) && r.value == candidates[i]
  {
    var best: Option<nat> := None;
    var least := 0;
    for j := 0 to |candidates|
      invariant best.None? ==> forall k :: 0 <= k < j ==> !Near(u, key, candidates[k])
      invariant best.Some? ==> IsClosest(u, key, candidates[..j], best.value)
                               && least == Apartness(u, key, candidates[best.value])
    {
      var c := candidates[j];
      var d := Levenshtein(u.lower(key), u.lower(c));
      assert candidates[..j + 1] == candidates[..j] + [c];
      if d <= Max(2, u.bytes(c) / 4) && (best.None? || d < least) {
        best, least := Some(j), d;
      }
    }
    assert candidates[..|candidates|] == candidates;
    if best.None? {
      return None;
    }
    r := Some(candidates[best.value]);
  }
}
