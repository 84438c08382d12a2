/**
 The text of a blocking rule: what a line adds, and that the rule text a verdict
 reports, read as a line again, is exactly the rule that decided it.
 */
module DnsRules {
  import opened Basics
  import opened Texts
  import opened DnsFilter
  import Glob

  // ---------- Reading a line ----------

  predicate AlphaNumeric(c: char) { '0' <= c <= '9' || 'A' <= c <= 'Z' || 'a' <= c <= 'z' }

  predicate NameChar(c: char) { AlphaNumeric(c) || c == '-' || c == '.' || c == '_' }

  predicate IsDomain(s: string) {
    && s != [] && |s| <= 253 && '.' in s && s[0] != '.' && s[|s| - 1] != '.'
    && forall i :: 0 <= i < |s| ==> NameChar(s[i])
  }

  predicate IsPattern(s: string) {
    '*' in s && forall i :: 0 <= i < |s| ==> NameChar(s[i]) || s[i] == '*'
  }

  predicate StartsWith(s: string, p: string) { |p| <= |s| && s[..|p|] == p }

  function TrimEnd(s: string, c: char): string {
    if s != [] && s[|s| - 1] == c then TrimEnd(s[..|s| - 1], c) else s
  }

  predicate Blank(c: char) { c == ' ' || '\t' <= c <= '\r' }

  function TrimBlanks(s: string): string
    decreases |s|
  {
    if s != [] && Blank(s[0]) then TrimBlanks(s[1..])
    else if s != [] && Blank(s[|s| - 1]) then TrimBlanks(s[..|s| - 1])
    else s
  }

  /** What stands between the anchors of a lower-case pattern, and whether it is anchored at both ends. */
  function Core(lower: string): (string, bool) {
    if StartsWith(lower, "||") then (TrimEnd(TrimEnd(lower[2..], '|'), '^'), false)
    else if StartsWith(lower, "|") then (TrimEnd(TrimEnd(lower[1..], '|'), '^'), true)
    else (TrimEnd(lower, '^'), false)
  }

  /** Every modifier must be `important`. */
  predicate AllImportant(modifiers: string) {
    var parts := Split(modifiers, ',');
    forall i :: 0 <= i < |parts| ==> TrimBlanks(parts[i]) == "important"
  }

  predicate IsRegex(pattern: string) {
    |pattern| > 1 && pattern[0] == '/' && pattern[|pattern| - 1] == '/'
  }

  function RuleOf(kind: Kind, core: string, exact: bool, source: nat): Option<Rule> {
    if '*' in core then if IsPattern(core) then Some(Rule(kind, core, exact, true, source)) else None
    else if IsDomain(core) then Some(Rule(kind, core, exact, false, source))
    else None
  }

  /** The rule a line of blocking syntax adds, if it is one the filter supports. */
  function ReadRule(line: string, forceAllow: bool, source: nat): Option<Rule> {
    if StartsWith(line, "@@") then ReadBody(line[2..], true, source) else ReadBody(line, forceAllow, source)
  }

  function ReadBody(body: string, allow: bool, source: nat): Option<Rule> {
    var modified := IndexOf(body, '$') < |body|;
    if modified && !AllImportant(After(body, '$')) then None
    else ReadPattern(Before(body, '$'), if allow then Allow else if modified then Important else Block, source)
  }

  function ReadPattern(pattern: string, kind: Kind, source: nat): Option<Rule> {
    if IsRegex(pattern) then None
    else
      var (core, exact) := Core(Lower(pattern));
      RuleOf(kind, core, exact, source)
  }

  // ---------- Reading back what was reported ----------

  /** The rule text a verdict gives for a rule. */
  function Report(r: Rule): string {
    match r.kind
    case Important => Printed(r.key, r.exact) + "$important"
    case Allow => "@@" + Printed(r.key, r.exact)
    case Block => Printed(r.key, r.exact)
  }

  predicate KeyChar(c: char) { (NameChar(c) || c == '*') && LowerChar(c) == c }

  /** The key of a rule that some line adds. */
  ghost predicate Keyed(r: Rule) {
    && (forall i :: 0 <= i < |r.key| ==> KeyChar(r.key[i]))
    && if r.wildcard then IsPattern(r.key) else IsDomain(r.key) && '*' !in r.key
  }

  lemma {:induction false} TrimEndKeeps(s: string, c: char)
    ensures TrimEnd(s, c) <= s
  {
    if s != [] && s[|s| - 1] == c { TrimEndKeeps(s[..|s| - 1], c); }
  }

  lemma CoreIsPart(lower: string)
    ensures forall i :: 0 <= i < |Core(lower).0| ==> Core(lower).0[i] in lower
  {
    var from := if StartsWith(lower, "||") then lower[2..] else if StartsWith(lower, "|") then lower[1..] else lower;
    TrimEndKeeps(from, '|');
    TrimEndKeeps(TrimEnd(from, '|'), '^');
    TrimEndKeeps(from, '^');
    assert forall i :: 0 <= i < |from| ==> from[i] in lower;
  }

  lemma LowerIsLower(s: string)
    ensures forall c :: c in Lower(s) ==> LowerChar(c) == c
  {
  }

  lemma PatternIsKeyed(pattern: string, kind: Kind, source: nat)
    ensures var r := ReadPattern(pattern, kind, source); r.Some? ==> Keyed(r.value)
  {
    var lower := Lower(pattern);
    CoreIsPart(lower);
    LowerIsLower(pattern);
    var core := Core(lower).0;
    forall i | 0 <= i < |core|
      ensures LowerChar(core[i]) == core[i]
    {
      assert core[i] in lower;
    }
  }

  /** Whatever the line, the rule it adds is keyed. */
  lemma ReadRulesAreKeyed(line: string, forceAllow: bool, source: nat)
    ensures var r := ReadRule(line, forceAllow, source); r.Some? ==> Keyed(r.value)
  {
    var allow := StartsWith(line, "@@") || forceAllow;
    var body := if StartsWith(line, "@@") then line[2..] else line;
    var modified := IndexOf(body, '$') < |body|;
    PatternIsKeyed(Before(body, '$'), if allow then Allow else if modified then Important else Block, source);
  }

  lemma TrimsNothing(s: string, c: char)
    requires s == [] || s[|s| - 1] != c
    ensures TrimEnd(s, c) == s
  {
  }

  lemma TrimsOne(s: string, c: char)
    requires s == [] || s[|s| - 1] != c
    ensures TrimEnd(s + [c], c) == s
  {
    assert (s + [c])[..|s|] == s;
    TrimsNothing(s, c);
  }

  lemma TailTrims(key: string)
    requires key != [] && KeyChar(key[|key| - 1])
    ensures TrimEnd(TrimEnd(key + "^", '|'), '^') == key
  {
    TrimsNothing(key + "^", '|');
    TrimsOne(key, '^');
  }

  lemma PrintedCore(key: string, exact: bool)
    requires key != [] && forall i :: 0 <= i < |key| ==> KeyChar(key[i])
    ensures Core(Printed(key, exact)) == (key, exact)
  {
    var p, tail := Printed(key, exact), key + "^";
    TailTrims(key);
    assert p == (if exact then "|" else "||") + tail;
    if exact {
      assert p[1..] == tail && p[1] == key[0];
    } else {
      assert p[2..] == tail;
    }
  }

  lemma PrintedChars(key: string, exact: bool)
    requires forall i :: 0 <= i < |key| ==> KeyChar(key[i])
    ensures var p := Printed(key, exact); Lower(p) == p && '$' !in p && p[0] == '|'
  {
    var p := Printed(key, exact);
    forall i | 0 <= i < |p|
      ensures LowerChar(p[i]) == p[i] && p[i] != '$'
    {
      assert p[i] == '|' || p[i] == '^' || p[i] in key;
    }
  }

  lemma PatternReads(r: Rule)
    requires Keyed(r)
    ensures ReadPattern(Printed(r.key, r.exact), r.kind, r.source) == Some(r)
  {
    PrintedCore(r.key, r.exact);
    PrintedChars(r.key, r.exact);
  }

  lemma SplitsNothing(s: string, c: char)
    requires c !in s
    ensures Split(s, c) == [s]
  {
    NowhereIn(s, c);
  }

  lemma ImportantIsImportant(m: string)
    requires m == "important"
    ensures AllImportant(m)
  {
    assert ',' !in m && !Blank(m[0]) && !Blank(m[|m| - 1]);
    SplitsNothing(m, ',');
    assert TrimBlanks(m) == m;
  }

  /** The report of any rule a line added, read as a line, adds that rule and no other. */
  lemma ReportReadsBack(r: Rule)
    requires Keyed(r)
    ensures ReadRule(Report(r), false, r.source) == Some(r)
  {
    var p := Printed(r.key, r.exact);
    PatternReads(r);
    PrintedChars(r.key, r.exact);
    match r.kind
    case Important => ImportantReadsBack(p, r.source);
    case Allow => ExceptionReadsBack(p, r.source);
    case Block => BlockReadsBack(p, r.source);
  }

  lemma ExceptionReadsBack(p: string, source: nat)
    requires '$' !in p
    ensures ReadRule("@@" + p, false, source) == ReadPattern(p, Allow, source)
  {
    NowhereIn(p, '$');
    var text := "@@" + p;
    assert text[..2] == "@@" && text[2..] == p;
  }

  lemma BlockReadsBack(p: string, source: nat)
    requires p != [] && p[0] == '|' && '$' !in p
    ensures ReadRule(p, false, source) == ReadPattern(p, Block, source)
  {
    NowhereIn(p, '$');
    NotExcepted(p);
  }

  lemma ModifierReads(p: string, m: string, text: string, source: nat)
    requires p != [] && p[0] == '|' && '$' !in p && AllImportant(m) && text == p + ['$'] + m
    ensures ReadRule(text, false, source) == ReadPattern(p, Important, source)
  {
    BodyReads(p, m, text, source);
    NotExcepted(text);
  }

  lemma NotExcepted(text: string)
    requires text != [] && text[0] == '|'
    ensures !StartsWith(text, "@@")
  {
    if |text| >= 2 { assert text[..2][0] == '|' && "@@"[0] == '@'; }
  }

  lemma BodyReads(p: string, m: string, body: string, source: nat)
    requires '$' !in p && AllImportant(m) && body == p + ['$'] + m
    ensures ReadBody(body, false, source) == ReadPattern(p, Important, source)
  {
    FirstAt(p, '$', m);
  }

  lemma ImportantReadsBack(p: string, source: nat)
    requires p != [] && p[0] == '|' && '$' !in p
    ensures ReadRule(p + "$important", false, source) == ReadPattern(p, Important, source)
  {
    var m := "important";
    var text := p + ['$'] + m;
    assert p + "$important" == text;
    ImportantIsImportant(m);
    ModifierReads(p, m, text, source);
  }

  /** A verdict's rule text names a rule of the filter that matches the name, and reads back as that rule. */
  lemma VerdictNamesItsRule(rules: seq<Rule>, name: string, v: Verdict, kind: Kind, m: Match)
    returns (r: Rule, text: string)
    requires forall i :: 0 <= i < |rules| ==> Keyed(rules[i])
    requires Explains(rules, kind, name, m) && Reports(v, kind, m)
    ensures r in rules && RuleMatches(r, name) && (v.Blocked? || v.Allowed?) && v.cause == Match(text, r.source)
    ensures ReadRule(text, false, r.source) == Some(r)
  {
    var i :| 0 <= i < |rules| && rules[i].kind == kind && RuleMatches(rules[i], name)
             && m == Match(Printed(rules[i].key, rules[i].exact), rules[i].source);
    r := rules[i];
    text := Report(r);
    ReportReadsBack(r);
  }

  // ---------- When verdicts are the declared ones ----------

  /** Only rules that some line adds. */
  ghost predicate AllKeyed(rules: seq<Rule>) {
    forall i :: 0 <= i < |rules| ==> Keyed(rules[i])
  }

  /** No character a key cannot hold comes before the first `*`. */
  predicate KeyUpToStar(name: string) {
    forall i :: 0 <= i < Glob.FirstStar(name) ==> KeyChar(name[i])
  }

  /** The pattern that shows it: the name up to its first `*`, then a star. */
  function Telltale(name: string): Rule {
    Rule(Block, Glob.Refused(name), true, true, 0)
  }

  lemma TelltaleTells(name: string)
    requires KeyUpToStar(name) && !Glob.Clean(name)
    ensures AllKeyed([Telltale(name)]) && Scan([Telltale(name)], name) != Declared([Telltale(name)], name)
  {
    var r := Telltale(name);
    assert r.key[|r.key| - 1] == '*';
    Glob.RefusedDisagrees(name);
    OneRule(r, name);
  }

  /**
   For a name of key characters, at least up to its first `*`, the verdict is the
   declared one under every list of rules that lines can add if and only if the name
   has no `*` before its last character.
   */
  lemma DeclaredExactlyOnCleanNames(name: string)
    requires KeyUpToStar(name)
    ensures (forall rules | AllKeyed(rules) :: Scan(rules, name) == Declared(rules, name)) <==> Glob.Clean(name)
  {
    if Glob.Clean(name) {
      forall rules | AllKeyed(rules)
        ensures Scan(rules, name) == Declared(rules, name)
      {
        CleanNamesAreDeclared(rules, name);
      }
    } else {
      TelltaleTells(name);
    }
  }

  /** Adds the rule of one line. */
  method AddRule(f: Filter, line: string, forceAllow: bool, source: nat) returns (added: bool)
    requires f.Valid()
    modifies f
    ensures f.Valid()
    ensures var r := ReadRule(line, forceAllow, source);
            added == r.Some? && f.rules == old(f.rules) + (if r.Some? then [r.value] else [])
  {
    var allow, body := forceAllow, line;
    if StartsWith(line, "@@") {
      allow, body := true, line[2..];
    }
    var modified := IndexOf(body, '$') < |body|;
    if modified && !AllImportant(After(body, '$')) {
      return false;
    }
    var pattern := Before(body, '$');
    if IsRegex(pattern) {
      return false;
    }
    var kind := if allow then Allow else if modified then Important else Block;
    var (core, exact) := Core(Lower(pattern));
    if '*' in core {
      if !IsPattern(core) {
        return false;
      }
      f.Add(kind, core, exact, true, source);
      return true;
    }
    if !IsDomain(core) {
      return false;
    }
    f.Add(kind, core, exact, false, source);
    return true;
  }
}
