/**
 The DNS rule filter: rules indexed by hash for exact names and suffixes, and in a
 list for wildcards. `rules` remembers every rule ever added; the index is proved
 to give the verdict of a plain scan over it.
 */
module DnsFilter {
  import opened Basics
  import opened Texts
  import opened Glob

  datatype Kind = Block | Allow | Important

  datatype Rule = Rule(kind: Kind, key: string, exact: bool, wildcard: bool, source: nat)

  datatype Match = Match(rule: string, source: nat)

  datatype Verdict = Blocked(cause: Match) | Allowed(cause: Match) | Unlisted

  function Idx(k: Kind): (i: nat)
    ensures i < 3
  {
    match k case Block => 0 case Allow => 1 case Important => 2
  }

  // ---------- What rules mean ----------

  /** `name` is `d` or a subdomain of it. */
  predicate Under(name: string, d: string) {
    name == d || (|name| > |d| && name[|name| - |d| - 1] == '.' && name[|name| - |d|..] == d)
  }

  /** The pattern stands for `name`, or for what follows one of its dots. */
  ghost predicate WildUnder(pat: string, name: string) {
    exists s :: Under(name, s) && GlobResult(pat, s)
  }

  ghost predicate RuleMatches(r: Rule, name: string) {
    if r.wildcard then (if r.exact then GlobResult(r.key, name) else WildUnder(r.key, name))
    else if r.exact then name == r.key
    else Under(name, r.key)
  }

  ghost predicate AnyMatch(rules: seq<Rule>, kind: Kind, name: string) {
    exists i :: 0 <= i < |rules| && rules[i].kind == kind && RuleMatches(rules[i], name)
  }

  datatype VerdictKind = IsBlocked | IsAllowed | IsUnlisted

  /** A plain scan: `$important` blocks beat exceptions, exceptions beat blocks. */
  ghost function Scan(rules: seq<Rule>, name: string): VerdictKind {
    if AnyMatch(rules, Important, name) then IsBlocked
    else if AnyMatch(rules, Allow, name) then IsAllowed
    else if AnyMatch(rules, Block, name) then IsBlocked
    else IsUnlisted
  }

  function KindOf(v: Verdict): VerdictKind {
    match v case Blocked(_) => IsBlocked case Allowed(_) => IsAllowed case Unlisted => IsUnlisted
  }

  /** A rule as a match reports it, without its kind's prefix or suffix. */
  function Printed(key: string, exact: bool): string {
    (if exact then "|" else "||") + key + "^"
  }

  ghost predicate Explains(rules: seq<Rule>, kind: Kind, name: string, m: Match) {
    exists i :: 0 <= i < |rules| && rules[i].kind == kind && RuleMatches(rules[i], name)
             && m == Match(Printed(rules[i].key, rules[i].exact), rules[i].source)
  }

  // ---------- Names ----------

  function TrimDots(s: string): string {
    if s != [] && s[|s| - 1] == '.' then TrimDots(s[..|s| - 1]) else s
  }

  function Canonical(name: string): string {
    Lower(TrimDots(name))
  }

  // ---------- Label suffixes ----------

  function FindDot(s: string): (p: Option<nat>)
    ensures p.Some? ==> p.value < |s| && s[p.value] == '.' && forall j :: 0 <= j < p.value ==> s[j] != '.'
    ensures p.None? ==> forall j :: 0 <= j < |s| ==> s[j] != '.'
  {
    if s == [] then None
    else if s[0] == '.' then Some(0)
    else match FindDot(s[1..]) case None => None case Some(p) => Some(p + 1)
  }

  /** What is under a label suffix is under the whole. */
  lemma UnderTail(s: string, p: nat, d: string)
    requires p < |s| && s[p] == '.' && Under(s[p + 1..], d)
    ensures Under(s, d)
  {
    var t := s[p + 1..];
    if t == d {
      assert s[|s| - |d|..] == d;
    } else {
      assert s[|s| - |d| - 1] == t[|t| - |d| - 1];
      assert s[|s| - |d|..] == t[|t| - |d|..];
    }
  }

  /** What the whole is properly under begins after the first dot or later. */
  lemma UnderBeyond(s: string, p: nat, d: string)
    requires p < |s| && s[p] == '.' && (forall j :: 0 <= j < p ==> s[j] != '.') && Under(s, d) && s != d
    ensures Under(s[p + 1..], d)
  {
    var t, at := s[p + 1..], |s| - |d| - 1;
    assert s[at] == '.' && at >= p;
    if at > p {
      assert t[|t| - |d| - 1] == s[at];
      assert t[|t| - |d|..] == s[|s| - |d|..];
    } else {
      assert t == d;
    }
  }

  /** Dropping the first label leaves every shorter suffix where it was. */
  lemma UnderNext(s: string, d: string)
    ensures FindDot(s).None? ==> (Under(s, d) <==> s == d)
    ensures FindDot(s).Some? ==> (Under(s, d) <==> s == d || Under(s[FindDot(s).value + 1..], d))
  {
    match FindDot(s)
    case None =>
    case Some(p) =>
      if Under(s, d) && s != d { UnderBeyond(s, p, d); }
      if Under(s[p + 1..], d) { UnderTail(s, p, d); }
  }

  /** Looks up `name` and then each of its label suffixes. */
  method FindSuffix(index: map<string, nat>, name: string) returns (hit: Option<string>)
    ensures hit.Some? ==> hit.value in index && Under(name, hit.value)
    ensures hit.None? ==> forall d :: d in index ==> !Under(name, d)
  {
    var s := name;
    while true
      invariant forall d :: Under(s, d) ==> Under(name, d)
      invariant forall d :: d in index && Under(name, d) ==> Under(s, d)
      decreases |s|
    {
      forall d
        ensures FindDot(s).None? ==> (Under(s, d) <==> s == d)
        ensures FindDot(s).Some? ==> (Under(s, d) <==> s == d || Under(s[FindDot(s).value + 1..], d))
      {
        UnderNext(s, d);
      }
      if s in index {
        return Some(s);
      }
      match FindDot(s) {
        case None => return None;
        case Some(p) => s := s[p + 1..];
      }
    }
  }

  /** Tries the pattern at the start of every label. */
  method HitsSuffix(pat: string, name: string) returns (hit: bool)
    ensures hit <==> WildUnder(pat, name)
  {
    var s := name;
    while true
      invariant forall d :: Under(s, d) ==> Under(name, d)
      invariant forall d :: GlobResult(pat, d) && Under(name, d) ==> Under(s, d)
      decreases |s|
    {
      forall d
        ensures FindDot(s).None? ==> (Under(s, d) <==> s == d)
        ensures FindDot(s).Some? ==> (Under(s, d) <==> s == d || Under(s[FindDot(s).value + 1..], d))
      {
        UnderNext(s, d);
      }
      var found := GlobMatch(pat, s);
      if found {
        assert Under(name, s);
        return true;
      }
      match FindDot(s) {
        case None => return false;
        case Some(p) => s := s[p + 1..];
      }
    }
  }

  // ---------- The index ----------

  datatype WildRule = WildRule(pattern: string, exact: bool, source: nat)

  function AsWild(r: Rule): WildRule { WildRule(r.key, r.exact, r.source) }

  /** Rule `r` belongs to the hash index of its kind. */
  predicate Hashed(r: Rule, kind: Kind, exact: bool) {
    r.kind == kind && r.exact == exact && !r.wildcard
  }

  /** `index` holds exactly the keys of such rules, each with the source of one of them. */
  ghost predicate Indexes(index: map<string, nat>, rules: seq<Rule>, kind: Kind, exact: bool) {
    && (forall i :: 0 <= i < |rules| && Hashed(rules[i], kind, exact) ==> rules[i].key in index)
    && (forall k :: k in index ==> exists i :: 0 <= i < |rules| && Hashed(rules[i], kind, exact)
                                            && rules[i].key == k && rules[i].source == index[k])
  }

  /** Rule `r` belongs in the list of wildcards of its kind. */
  predicate Listed(r: Rule, kind: Kind) {
    r.wildcard && r.kind == kind
  }

  ghost predicate Comes(w: WildRule, rules: seq<Rule>, kind: Kind) {
    exists i :: 0 <= i < |rules| && Listed(rules[i], kind) && AsWild(rules[i]) == w
  }

  ghost predicate Lists(wild: seq<WildRule>, rules: seq<Rule>, kind: Kind) {
    && (forall i :: 0 <= i < |rules| && Listed(rules[i], kind) ==> AsWild(rules[i]) in wild)
    && (forall j :: 0 <= j < |wild| ==> Comes(wild[j], rules, kind))
  }

  class Filter {
    var suffix: seq<map<string, nat>>
    var exact: seq<map<string, nat>>
    var wild: seq<seq<WildRule>>
    ghost var rules: seq<Rule>

    ghost predicate Valid()
      reads this
    {
      && |suffix| == 3 && |exact| == 3 && |wild| == 3
      && forall k: Kind ::
           && Indexes(suffix[Idx(k)], rules, k, false)
           && Indexes(exact[Idx(k)], rules, k, true)
           && Lists(wild[Idx(k)], rules, k)
    }

    constructor ()
      ensures Valid() && rules == []
    {
      suffix, exact, wild := [map[], map[], map[]], [map[], map[], map[]], [[], [], []];
      rules := [];
    }

    method Add(kind: Kind, key: string, isExact: bool, wildcard: bool, source: nat)
      requires Valid()
      modifies this
      ensures Valid() && rules == old(rules) + [Rule(kind, key, isExact, wildcard, source)]
    {
      var i := Idx(kind);
      ghost var r := Rule(kind, key, isExact, wildcard, source);
      if wildcard {
        wild := wild[i := wild[i] + [WildRule(key, isExact, source)]];
      } else if isExact {
        var index: map<string, nat> := exact[i];
        exact := exact[i := index[key := source]];
      } else {
        var index: map<string, nat> := suffix[i];
        suffix := suffix[i := index[key := source]];
      }
      rules := rules + [r];
      forall k: Kind
        ensures Indexes(suffix[Idx(k)], rules, k, false) && Indexes(exact[Idx(k)], rules, k, true)
                && Lists(wild[Idx(k)], rules, k)
      {
        IndexAfter(old(suffix)[Idx(k)], old(rules), r, k, false);
        IndexAfter(old(exact)[Idx(k)], old(rules), r, k, true);
        ListAfter(old(wild)[Idx(k)], old(rules), r, k);
      }
    }

    /** Some rule of `kind` that matches, if any does. */
    method Find(kind: Kind, name: string) returns (m: Option<Match>)
      requires Valid()
      ensures m.Some? <==> AnyMatch(rules, kind, name)
      ensures m.Some? ==> Explains(rules, kind, name, m.value)
    {
      var i := Idx(kind);
      if name in exact[i] {
        ExactHit(exact[i], rules, kind, name);
        return Some(Match(Printed(name, true), exact[i][name]));
      }
      var hit := FindSuffix(suffix[i], name);
      if hit.Some? {
        SuffixHit(suffix[i], rules, kind, name, hit.value);
        return Some(Match(Printed(hit.value, false), suffix[i][hit.value]));
      }
      for j := 0 to |wild[i]|
        invariant forall w :: 0 <= w < j ==> !WildMatches(wild[i][w], name)
      {
        var w := wild[i][j];
        var found;
        if w.exact {
          found := GlobMatch(w.pattern, name);
        } else {
          found := HitsSuffix(w.pattern, name);
        }
        if found {
          WildHit(wild[i], rules, kind, name, j);
          return Some(Match(Printed(w.pattern, w.exact), w.source));
        }
      }
      NoHit(exact[i], suffix[i], wild[i], rules, kind, name);
      return None;
    }

    /** The index gives the verdict of a scan of every rule ever added. */
    method Check(name: string) returns (v: Verdict)
      requires Valid()
      ensures KindOf(v) == Scan(rules, Canonical(name))
      ensures Clean(Canonical(name)) ==> KindOf(v) == Declared(rules, Canonical(name))
      ensures v.Blocked? || v.Allowed? ==> exists kind, m :: Explains(rules, kind, Canonical(name), m) && Reports(v, kind, m)
    {
      var canonical := Canonical(name);
      if Clean(canonical) { CleanNamesAreDeclared(rules, canonical); }
      var m := Find(Important, canonical);
      if m.Some? {
        v := Blocked(Match(m.value.rule + "$important", m.value.source));
        assert Explains(rules, Important, canonical, m.value) && Reports(v, Important, m.value);
        return;
      }
      m := Find(Allow, canonical);
      if m.Some? {
        v := Allowed(Match("@@" + m.value.rule, m.value.source));
        assert Explains(rules, Allow, canonical, m.value) && Reports(v, Allow, m.value);
        return;
      }
      m := Find(Block, canonical);
      if m.Some? {
        v := Blocked(m.value);
        assert Explains(rules, Block, canonical, m.value) && Reports(v, Block, m.value);
        return;
      }
      v := Unlisted;
    }
  }

  /** The verdict carries the matching rule's text, marked with its kind, and its source. */
  predicate Reports(v: Verdict, kind: Kind, m: Match) {
    match kind
    case Important => v == Blocked(Match(m.rule + "$important", m.source))
    case Allow => v == Allowed(Match("@@" + m.rule, m.source))
    case Block => v == Blocked(m)
  }

  ghost predicate WildMatches(w: WildRule, name: string) {
    if w.exact then GlobResult(w.pattern, name) else WildUnder(w.pattern, name)
  }

  lemma IndexAfter(index: map<string, nat>, rules: seq<Rule>, r: Rule, kind: Kind, exact: bool)
    requires Indexes(index, rules, kind, exact)
    ensures Indexes(if Hashed(r, kind, exact) then index[r.key := r.source] else index, rules + [r], kind, exact)
  {
    var after := if Hashed(r, kind, exact) then index[r.key := r.source] else index;
    var all := rules + [r];
    forall k | k in after
      ensures exists i :: 0 <= i < |all| && Hashed(all[i], kind, exact) && all[i].key == k && all[i].source == after[k]
    {
      if Hashed(r, kind, exact) && k == r.key {
        assert all[|rules|] == r;
      } else {
        var i :| 0 <= i < |rules| && Hashed(rules[i], kind, exact) && rules[i].key == k && rules[i].source == index[k];
        assert all[i] == rules[i];
      }
    }
  }

  lemma ListAfter(wild: seq<WildRule>, rules: seq<Rule>, r: Rule, kind: Kind)
    requires Lists(wild, rules, kind)
    ensures Lists(if Listed(r, kind) then wild + [AsWild(r)] else wild, rules + [r], kind)
  {
    var after := if Listed(r, kind) then wild + [AsWild(r)] else wild;
    var all := rules + [r];
    forall j | 0 <= j < |after|
      ensures Comes(after[j], all, kind)
    {
      if j < |wild| {
        assert Comes(wild[j], rules, kind);
        var i :| 0 <= i < |rules| && Listed(rules[i], kind) && AsWild(rules[i]) == wild[j];
        assert all[i] == rules[i];
      } else {
        assert all[|rules|] == r;
      }
    }
    forall i | 0 <= i < |all| && Listed(all[i], kind)
      ensures AsWild(all[i]) in after
    {
      if i < |rules| {
        assert Listed(rules[i], kind);
        assert AsWild(rules[i]) in wild;
      } else {
        assert after[|wild|] == AsWild(r);
      }
    }
  }

  lemma ExactHit(index: map<string, nat>, rules: seq<Rule>, kind: Kind, name: string)
    requires Indexes(index, rules, kind, true) && name in index
    ensures AnyMatch(rules, kind, name) && Explains(rules, kind, name, Match(Printed(name, true), index[name]))
  {
    var i :| 0 <= i < |rules| && Hashed(rules[i], kind, true) && rules[i].key == name && rules[i].source == index[name];
    assert RuleMatches(rules[i], name);
  }

  lemma SuffixHit(index: map<string, nat>, rules: seq<Rule>, kind: Kind, name: string, d: string)
    requires Indexes(index, rules, kind, false) && d in index && Under(name, d)
    ensures AnyMatch(rules, kind, name) && Explains(rules, kind, name, Match(Printed(d, false), index[d]))
  {
    var i :| 0 <= i < |rules| && Hashed(rules[i], kind, false) && rules[i].key == d && rules[i].source == index[d];
    assert RuleMatches(rules[i], name);
  }

  lemma WildHit(wild: seq<WildRule>, rules: seq<Rule>, kind: Kind, name: string, j: nat)
    requires Lists(wild, rules, kind) && j < |wild| && WildMatches(wild[j], name)
    ensures AnyMatch(rules, kind, name)
    ensures Explains(rules, kind, name, Match(Printed(wild[j].pattern, wild[j].exact), wild[j].source))
  {
    assert Comes(wild[j], rules, kind);
    var i :| 0 <= i < |rules| && Listed(rules[i], kind) && AsWild(rules[i]) == wild[j];
    assert RuleMatches(rules[i], name);
  }

  lemma NoHit(exact: map<string, nat>, suffix: map<string, nat>, wild: seq<WildRule>, rules: seq<Rule>, kind: Kind,
              name: string)
    requires Indexes(exact, rules, kind, true) && Indexes(suffix, rules, kind, false) && Lists(wild, rules, kind)
    requires name !in exact && (forall d :: d in suffix ==> !Under(name, d))
    requires forall w :: 0 <= w < |wild| ==> !WildMatches(wild[w], name)
    ensures !AnyMatch(rules, kind, name)
  {
    forall i | 0 <= i < |rules| && rules[i].kind == kind
      ensures !RuleMatches(rules[i], name)
    {
      var r := rules[i];
      if r.wildcard {
        assert Listed(r, kind) && AsWild(r) in wild;
        var w :| 0 <= w < |wild| && wild[w] == AsWild(r);
        assert !WildMatches(wild[w], name);
      } else {
        assert Hashed(r, kind, r.exact);
      }
    }
  }

  // ---------- Consequences ----------

  /** The order in which rules or lists were added never changes a verdict. */
  lemma OrderDoesNotMatter(a: seq<Rule>, b: seq<Rule>, name: string)
    requires forall r :: r in a <==> r in b
    ensures Scan(a, name) == Scan(b, name)
  {
    SameMatches(a, b, Important, name);
    SameMatches(b, a, Important, name);
    SameMatches(a, b, Allow, name);
    SameMatches(b, a, Allow, name);
    SameMatches(a, b, Block, name);
    SameMatches(b, a, Block, name);
  }

  lemma SameMatches(a: seq<Rule>, b: seq<Rule>, kind: Kind, name: string)
    requires forall r :: r in a ==> r in b
    ensures AnyMatch(a, kind, name) ==> AnyMatch(b, kind, name)
  {
    if AnyMatch(a, kind, name) {
      var i :| 0 <= i < |a| && a[i].kind == kind && RuleMatches(a[i], name);
      assert a[i] in b;
      var j :| 0 <= j < |b| && b[j] == a[i];
    }
  }

  // ---------- The declarative meaning ----------

  /** What a rule says: `*` stands for any run of characters. */
  ghost predicate Means(r: Rule, name: string) {
    if r.wildcard then (if r.exact then Matches(r.key, name) else exists s :: Under(name, s) && Matches(r.key, s))
    else if r.exact then name == r.key
    else Under(name, r.key)
  }

  ghost predicate AnyMeans(rules: seq<Rule>, kind: Kind, name: string) {
    exists i :: 0 <= i < |rules| && rules[i].kind == kind && Means(rules[i], name)
  }

  ghost function Declared(rules: seq<Rule>, name: string): VerdictKind {
    if AnyMeans(rules, Important, name) then IsBlocked
    else if AnyMeans(rules, Allow, name) then IsAllowed
    else if AnyMeans(rules, Block, name) then IsBlocked
    else IsUnlisted
  }

  lemma SuffixIsClean(name: string, s: string)
    requires Under(name, s) && Clean(name)
    ensures Clean(s)
  {
    assert s == name[|name| - |s|..];
  }

  lemma RuleMeansItsMatch(r: Rule, name: string)
    requires Clean(name)
    ensures RuleMatches(r, name) <==> Means(r, name)
  {
    AgreesExactlyOnCleanTexts(name);
    forall s | Under(name, s)
      ensures GlobResult(r.key, s) <==> Matches(r.key, s)
    {
      SuffixIsClean(name, s);
      AgreesExactlyOnCleanTexts(s);
    }
  }

  lemma KindMeansItsMatch(rules: seq<Rule>, kind: Kind, name: string)
    requires Clean(name)
    ensures AnyMatch(rules, kind, name) <==> AnyMeans(rules, kind, name)
  {
    forall i | 0 <= i < |rules|
      ensures RuleMatches(rules[i], name) <==> Means(rules[i], name)
    {
      RuleMeansItsMatch(rules[i], name);
    }
  }

  /** On a clean name the filter's verdict is the declared one, whatever the rules. */
  lemma CleanNamesAreDeclared(rules: seq<Rule>, name: string)
    requires Clean(name)
    ensures Scan(rules, name) == Declared(rules, name)
  {
    KindMeansItsMatch(rules, Important, name);
    KindMeansItsMatch(rules, Allow, name);
    KindMeansItsMatch(rules, Block, name);
  }

  lemma OneRule(r: Rule, name: string)
    requires r.kind == Block
    ensures Scan([r], name) == (if RuleMatches(r, name) then IsBlocked else IsUnlisted)
    ensures Declared([r], name) == (if Means(r, name) then IsBlocked else IsUnlisted)
  {
    assert [r][0] == r;
  }
}
