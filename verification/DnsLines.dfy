/**
 What a written line means: the kind, anchoring and key each form gives, what is
 refused, and that every rule of an allow list allows.
 */
module DnsLines {
  import opened Basics
  import opened Texts
  import opened DnsFilter
  import opened DnsRules
  import Glob

  // ---------- Allow lists ----------

  /** A line of an allow list is read as the same line with the exception mark. */
  lemma AllowListIsExceptions(line: string, source: nat)
    requires !StartsWith(line, "@@")
    ensures ReadRule(line, true, source) == ReadRule("@@" + line, false, source)
  {
    var marked := "@@" + line;
    assert marked[..2] == "@@" && marked[2..] == line;
  }

  lemma PatternKind(pattern: string, kind: Kind, source: nat)
    ensures var r := ReadPattern(pattern, kind, source); r.Some? ==> r.value.kind == kind && r.value.source == source
  {
  }

  /** A line adds an allowing rule exactly when it is of an allow list or carries the mark; the rule names its list. */
  lemma AllowsIff(line: string, forceAllow: bool, source: nat)
    requires ReadRule(line, forceAllow, source).Some?
    ensures var r := ReadRule(line, forceAllow, source).value;
            r.source == source && (r.kind == Allow <==> forceAllow || StartsWith(line, "@@"))
  {
    var marked := StartsWith(line, "@@");
    var body := if marked then line[2..] else line;
    var modified := IndexOf(body, '$') < |body|;
    PatternKind(Before(body, '$'), if forceAllow || marked then Allow else if modified then Important else Block, source);
  }

  /** The lists of a filter, each an allow list or not; the rules their lines add. */
  datatype Line = Line(text: string, allow: bool, source: nat)

  function RulesOf(lines: seq<Line>): seq<Rule> {
    if lines == [] then []
    else
      var l := lines[|lines| - 1];
      var r := ReadRule(l.text, l.allow, l.source);
      RulesOf(lines[..|lines| - 1]) + if r.Some? then [r.value] else []
  }

  lemma {:induction false} LineIsRule(lines: seq<Line>, i: nat)
    requires i < |lines| && ReadRule(lines[i].text, lines[i].allow, lines[i].source).Some?
    ensures ReadRule(lines[i].text, lines[i].allow, lines[i].source).value in RulesOf(lines)
  {
    if i < |lines| - 1 { LineIsRule(lines[..|lines| - 1], i); }
  }

  lemma {:induction false} RuleIsLine(lines: seq<Line>, r: Rule) returns (i: nat)
    requires r in RulesOf(lines)
    ensures i < |lines| && ReadRule(lines[i].text, lines[i].allow, lines[i].source) == Some(r)
  {
    var l := lines[|lines| - 1];
    if ReadRule(l.text, l.allow, l.source) == Some(r) {
      i := |lines| - 1;
    } else {
      i := RuleIsLine(lines[..|lines| - 1], r);
    }
  }

  lemma MatchIn(rules: seq<Rule>, r: Rule, name: string)
    requires r in rules && RuleMatches(r, name)
    ensures AnyMatch(rules, r.kind, name)
  {
    var i :| 0 <= i < |rules| && rules[i] == r;
  }

  /**
   A name that a line of an allow list matches is allowed, whatever else the lists
   hold, unless an important rule matches it.
   */
  lemma AllowListAllows(lines: seq<Line>, i: nat, name: string)
    requires i < |lines| && lines[i].allow && ReadRule(lines[i].text, true, lines[i].source).Some?
    requires RuleMatches(ReadRule(lines[i].text, true, lines[i].source).value, name)
    ensures Scan(RulesOf(lines), name) == (if AnyMatch(RulesOf(lines), Important, name) then IsBlocked else IsAllowed)
  {
    AllowsIff(lines[i].text, true, lines[i].source);
    LineIsRule(lines, i);
    MatchIn(RulesOf(lines), ReadRule(lines[i].text, true, lines[i].source).value, name);
  }

  /** Allow lists block nothing. */
  lemma AllowListsNeverBlock(lines: seq<Line>, name: string)
    requires forall i :: 0 <= i < |lines| ==> lines[i].allow
    ensures Scan(RulesOf(lines), name) != IsBlocked
  {
    forall r | r in RulesOf(lines)
      ensures r.kind == Allow
    {
      var i := RuleIsLine(lines, r);
      AllowsIff(lines[i].text, lines[i].allow, lines[i].source);
    }
  }

  // ---------- Written forms ----------

  /** A character a domain or a pattern may be written with, in either case. */
  predicate WriteChar(c: char) { NameChar(c) || c == '*' }

  predicate Written(core: string) {
    core != [] && forall i :: 0 <= i < |core| ==> WriteChar(core[i])
  }

  datatype Anchor = Bare | Domain | Exactly

  function Mark(a: Anchor): string {
    match a case Bare => "" case Domain => "||" case Exactly => "|"
  }

  predicate Only(s: string, c: char) { forall i :: 0 <= i < |s| ==> s[i] == c }

  /** What may follow: separators, and after an anchor also closing bars. */
  predicate Closes(a: Anchor, carets: string, bars: string) {
    Only(carets, '^') && Only(bars, '|') && (a == Bare ==> bars == "")
  }

  lemma {:induction false} TrimsAll(s: string, t: string, c: char)
    requires Only(t, c) && (s == [] || s[|s| - 1] != c)
    ensures TrimEnd(s + t, c) == s
  {
    if t == [] {
      assert s + t == s;
    } else {
      assert (s + t)[..|s + t| - 1] == s + t[..|t| - 1];
      TrimsAll(s, t[..|t| - 1], c);
    }
  }

  lemma ClosingTrims(core: string, carets: string, bars: string)
    requires core != [] && core[|core| - 1] != '^' && core[|core| - 1] != '|' && Only(carets, '^') && Only(bars, '|')
    ensures TrimEnd(TrimEnd(core + carets + bars, '|'), '^') == core
  {
    var s := core + carets;
    assert s[|s| - 1] == (if carets == [] then core[|core| - 1] else carets[|carets| - 1]);
    TrimsAll(s, bars, '|');
    TrimsAll(core, carets, '^');
  }

  lemma BareCore(core: string, carets: string)
    requires Written(core) && Only(carets, '^')
    ensures Core(core + carets) == (core, false)
  {
    var line := core + carets;
    assert WriteChar(core[0]) && WriteChar(core[|core| - 1]);
    NoBar(line);
    TrimsAll(core, carets, '^');
  }

  lemma NoBar(line: string)
    requires line != [] && line[0] != '|'
    ensures !StartsWith(line, "||") && !StartsWith(line, "|")
  {
    if |line| >= 2 { assert line[..2][0] == line[0]; }
    assert line[..1][0] == line[0];
  }

  lemma BarredCore(exact: bool, rest: string)
    requires rest != [] && rest[0] != '|'
    ensures Core((if exact then "|" else "||") + rest) == (TrimEnd(TrimEnd(rest, '|'), '^'), exact)
  {
    var line := (if exact then "|" else "||") + rest;
    if exact {
      assert line[..1] == "|" && line[1..] == rest;
      assert line[..2][1] == rest[0];
    } else {
      assert line[..2] == "||" && line[2..] == rest;
    }
  }

  /** Between the anchors stands the core. */
  lemma CoreOf(a: Anchor, core: string, carets: string, bars: string)
    requires Written(core) && Closes(a, carets, bars)
    ensures Core(Mark(a) + core + carets + bars) == (core, a == Exactly)
  {
    if a == Bare {
      assert Mark(a) + core + carets + bars == core + carets;
      BareCore(core, carets);
    } else {
      var rest := core + carets + bars;
      assert WriteChar(core[0]) && WriteChar(core[|core| - 1]);
      assert Mark(a) + core + carets + bars == (if a == Exactly then "|" else "||") + rest;
      BarredCore(a == Exactly, rest);
      ClosingTrims(core, carets, bars);
    }
  }

  lemma LowerConcat(a: string, b: string)
    ensures Lower(a + b) == Lower(a) + Lower(b)
  {
  }

  lemma LowerMarks(a: Anchor, core: string, carets: string, bars: string)
    requires Closes(a, carets, bars)
    ensures Lower(Mark(a) + core + carets + bars) == Mark(a) + Lower(core) + carets + bars
  {
    LowerConcat(Mark(a) + core + carets, bars);
    LowerConcat(Mark(a) + core, carets);
    LowerConcat(Mark(a), core);
    assert Lower(carets) == carets && Lower(bars) == bars && Lower(Mark(a)) == Mark(a);
  }

  lemma LowerWritten(core: string)
    requires Written(core)
    ensures Written(Lower(core)) && ('*' in Lower(core) <==> '*' in core)
    ensures '*' in core ==> IsPattern(Lower(core))
  {
    forall i | 0 <= i < |core|
      ensures WriteChar(LowerChar(core[i])) && (LowerChar(core[i]) == '*' <==> core[i] == '*')
    {
    }
    if '*' in core {
      var i :| 0 <= i < |core| && core[i] == '*';
      assert Lower(core)[i] == '*';
    }
    if '*' in Lower(core) {
      var i :| 0 <= i < |core| && Lower(core)[i] == '*';
      assert core[i] == '*';
    }
  }

  /** The rule a written form asks for: none if its core is neither a domain nor a pattern. */
  function Asked(kind: Kind, a: Anchor, core: string, source: nat): Option<Rule> {
    if '*' in core then Some(Rule(kind, Lower(core), a == Exactly, true, source))
    else if IsDomain(core) then Some(Rule(kind, Lower(core), a == Exactly, false, source))
    else None
  }

  lemma LowerDomain(core: string)
    requires Written(core)
    ensures IsDomain(Lower(core)) <==> IsDomain(core)
  {
    var l := Lower(core);
    forall i | 0 <= i < |core|
      ensures (NameChar(l[i]) <==> NameChar(core[i])) && (l[i] == '.' <==> core[i] == '.')
    {
    }
    if '.' in core {
      var i :| 0 <= i < |core| && core[i] == '.';
      assert l[i] == '.';
    }
    if '.' in l {
      var i :| 0 <= i < |core| && l[i] == '.';
      assert core[i] == '.';
    }
  }

  lemma FormPattern(kind: Kind, a: Anchor, core: string, carets: string, bars: string, source: nat)
    requires Written(core) && Closes(a, carets, bars)
    ensures ReadPattern(Mark(a) + core + carets + bars, kind, source) == Asked(kind, a, core, source)
  {
    var p := Mark(a) + core + carets + bars;
    LowerMarks(a, core, carets, bars);
    LowerWritten(core);
    LowerDomain(core);
    CoreOf(a, Lower(core), carets, bars);
    assert p[0] == if a == Bare then core[0] else '|';
    assert WriteChar(core[0]);
    assert !IsRegex(p);
  }

  lemma FormHasNoModifier(a: Anchor, core: string, carets: string, bars: string)
    requires Written(core) && Closes(a, carets, bars)
    ensures var p := Mark(a) + core + carets + bars; '$' !in p && p != [] && p[0] != '@'
  {
    var p := Mark(a) + core + carets + bars;
    assert WriteChar(core[0]);
    forall c | c in p
      ensures c != '$'
    {
      assert c in Mark(a) || c in core || c in carets || c in bars;
    }
    assert p[0] == if a == Bare then core[0] else '|';
  }

  /** Anchor, core, closing and modifier as they stand in a line. */
  function Unmarked(a: Anchor, core: string, carets: string, bars: string, important: bool): string {
    (Mark(a) + core + carets + bars) + (if important then "$important" else "")
  }

  /** The same behind the exception mark, if it has one. */
  function WrittenLine(excepted: bool, a: Anchor, core: string, carets: string, bars: string, important: bool): string {
    if excepted then "@@" + Unmarked(a, core, carets, bars, important) else Unmarked(a, core, carets, bars, important)
  }

  function KindAsked(allow: bool, important: bool): Kind {
    if allow then Allow else if important then Important else Block
  }

  lemma FormBody(p: string, important: bool, allow: bool, source: nat)
    requires '$' !in p
    ensures ReadBody(p + (if important then "$important" else ""), allow, source)
            == ReadPattern(p, KindAsked(allow, important), source)
  {
    if important {
      var m := "important";
      assert p + "$important" == p + ['$'] + m;
      FirstAt(p, '$', m);
      ImportantIsImportant(m);
    } else {
      assert p + "" == p;
      NowhereIn(p, '$');
    }
  }

  lemma UnmarkedBody(allow: bool, a: Anchor, core: string, carets: string, bars: string, important: bool, source: nat)
    requires Written(core) && Closes(a, carets, bars)
    ensures var body := Unmarked(a, core, carets, bars, important);
            && body != [] && body[0] != '@'
            && ReadBody(body, allow, source) == Asked(KindAsked(allow, important), a, core, source)
  {
    var p := Mark(a) + core + carets + bars;
    FormHasNoModifier(a, core, carets, bars);
    FormBody(p, important, allow, source);
    FormPattern(KindAsked(allow, important), a, core, carets, bars, source);
    assert Unmarked(a, core, carets, bars, important)[0] == p[0];
  }

  lemma MarkedReads(body: string, forceAllow: bool, source: nat)
    ensures ReadRule("@@" + body, forceAllow, source) == ReadBody(body, true, source)
  {
    var line := "@@" + body;
    assert line[..2] == "@@" && line[2..] == body;
  }

  lemma UnmarkedReads(line: string, forceAllow: bool, source: nat)
    requires line != [] && line[0] != '@'
    ensures ReadRule(line, forceAllow, source) == ReadBody(line, forceAllow, source)
  {
    if |line| >= 2 { assert line[..2][0] == line[0]; }
  }

  /**
   How any written form is read: exceptions allow, then `$important` makes a rule
   important; one bar anchors it to the very name, two bars or none to the name and
   everything under it; the key is what is written between, in lower case.
   */
  lemma WrittenFormReads(forceAllow: bool, excepted: bool, a: Anchor, core: string, carets: string, bars: string,
                         important: bool, source: nat)
    requires Written(core) && Closes(a, carets, bars)
    ensures ReadRule(WrittenLine(excepted, a, core, carets, bars, important), forceAllow, source)
            == Asked(KindAsked(forceAllow || excepted, important), a, core, source)
  {
    var body := Unmarked(a, core, carets, bars, important);
    UnmarkedBody(forceAllow || excepted, a, core, carets, bars, important, source);
    if excepted { MarkedReads(body, forceAllow, source); } else { UnmarkedReads(body, forceAllow, source); }
  }

  /** A modifier the filter does not know, or a regular expression, adds nothing. */
  lemma UnsupportedAddsNothing(p: string, m: string, forceAllow: bool, source: nat)
    requires '$' !in p && !StartsWith(p + ['$'] + m, "@@") && !AllImportant(m)
    ensures ReadRule(p + ['$'] + m, forceAllow, source) == None
  {
    FirstAt(p, '$', m);
  }

  lemma RegexAddsNothing(p: string, forceAllow: bool, source: nat)
    requires '$' !in p && |p| > 1 && p[0] == '/' && p[|p| - 1] == '/'
    ensures ReadRule(p, forceAllow, source) == None
  {
    NowhereIn(p, '$');
    assert p[..2][0] == '/';
  }

  predicate Letter(c: char) { 'a' <= c <= 'z' || 'A' <= c <= 'Z' }

  predicate Digit(c: char) { '0' <= c <= '9' }

  /**
   What counts as a domain: up to 253 letters, digits, hyphens, underscores and dots,
   with a dot inside and none at either end.
   */
  lemma DomainIff(s: string)
    ensures IsDomain(s)
            <==> && |s| <= 253 && (exists i :: 0 < i < |s| - 1 && s[i] == '.')
                 && s[0] != '.' && s[|s| - 1] != '.'
                 && forall i :: 0 <= i < |s| ==> Letter(s[i]) || Digit(s[i]) || s[i] == '-' || s[i] == '_' || s[i] == '.'
  {
    if '.' in s && s[0] != '.' && s[|s| - 1] != '.' {
      var i :| 0 <= i < |s| && s[i] == '.';
      assert 0 < i < |s| - 1;
    }
  }

  predicate Blanks(s: string) { forall i :: 0 <= i < |s| ==> Blank(s[i]) }

  lemma {:induction false} BlanksTrimmed(before: string, word: string, after: string)
    requires Blanks(before) && Blanks(after) && word != [] && !Blank(word[0]) && !Blank(word[|word| - 1])
    ensures TrimBlanks(before + word + after) == word
    decreases |before| + |after|
  {
    var s := before + word + after;
    if before != [] {
      assert s[0] == before[0] && s[1..] == before[1..] + word + after;
      BlanksTrimmed(before[1..], word, after);
    } else if after != [] {
      assert s[0] == word[0] && s[|s| - 1] == after[|after| - 1] && s[..|s| - 1] == before + word + after[..|after| - 1];
      BlanksTrimmed(before, word, after[..|after| - 1]);
    } else {
      assert s == word;
    }
  }

  /** Blanks around the modifier do not matter. */
  lemma SpacedImportant(before: string, after: string)
    requires Blanks(before) && Blanks(after)
    ensures AllImportant(before + "important" + after)
  {
    var m := before + "important" + after;
    assert ',' !in m by {
      forall c | c in m
        ensures c != ','
      {
        assert c in before || c in "important" || c in after;
      }
    }
    SplitsNothing(m, ',');
    BlanksTrimmed(before, "important", after);
  }

  // ---------- What the forms say of names ----------

  /** A bare or doubly barred domain stands for itself and everything under it, a singly barred one for itself alone. */
  lemma FormMeans(kind: Kind, a: Anchor, core: string, source: nat, name: string)
    requires Written(core) && '*' !in core && IsDomain(core)
    ensures Asked(kind, a, core, source).Some?
    ensures Means(Asked(kind, a, core, source).value, name)
            <==> name == Lower(core)
                 || (a != Exactly && |name| > |core| && name[|name| - |core|..] == Lower(core)
                     && name[|name| - |core| - 1] == '.')
  {
  }

  /**
   A pattern stands for a name it matches whole or, unless anchored to the very name,
   from the start of one of its labels on.
   */
  lemma WildFormMeans(kind: Kind, a: Anchor, core: string, source: nat, name: string)
    requires Written(core) && '*' in core
    ensures Asked(kind, a, core, source).Some?
    ensures Means(Asked(kind, a, core, source).value, name)
            <==> if a == Exactly then Glob.Matches(Lower(core), name)
                 else exists k :: LabelStart(name, k) && Glob.Matches(Lower(core), name[k..])
  {
    var pattern := Lower(core);
    if a != Exactly {
      forall s | Under(name, s) && Glob.Matches(pattern, s)
        ensures exists k :: LabelStart(name, k) && Glob.Matches(pattern, name[k..])
      {
        var k := |name| - |s|;
        assert name[k..] == s && LabelStart(name, k);
      }
      forall k | LabelStart(name, k) && Glob.Matches(pattern, name[k..])
        ensures exists s :: Under(name, s) && Glob.Matches(pattern, s)
      {
        assert Under(name, name[k..]);
      }
    }
  }

  /** The name's beginning, or just after one of its dots. */
  predicate LabelStart(name: string, k: int) {
    0 <= k <= |name| && (k == 0 || name[k - 1] == '.')
  }

  // ---------- Names as they are asked ----------

  predicate LowerOnly(s: string) { forall i :: 0 <= i < |s| ==> LowerChar(s[i]) == s[i] }

  lemma {:induction false} DotsTrimmed(s: string)
    ensures var t := TrimDots(s); t <= s && Only(s[|t|..], '.') && (t == [] || t[|t| - 1] != '.')
  {
    if s != [] && s[|s| - 1] == '.' {
      DotsTrimmed(s[..|s| - 1]);
      var t := TrimDots(s);
      assert s[|t|..] == s[..|s| - 1][|t|..] + ['.'];
    }
  }

  /** A name is asked in lower case and without the dots it may end in, and asking it so changes nothing. */
  lemma CanonicalForm(name: string)
    ensures var c := Canonical(name);
            && LowerOnly(c) && (c == [] || c[|c| - 1] != '.') && |c| <= |name|
            && Lower(name[..|c|]) == c && Only(name[|c|..], '.') && Canonical(c) == c
  {
    DotsTrimmed(name);
    var c, t := Canonical(name), TrimDots(name);
    assert name[..|t|] == t;
    if c != [] { assert c[|c| - 1] == LowerChar(t[|t| - 1]); }
    assert TrimDots(c) == c && Lower(c) == c;
  }

  /** So case and final dots never change a verdict. */
  lemma SpellingDoesNotMatter(a: string, b: string, dots: string)
    requires Only(dots, '.') && Lower(a) == Lower(b) && (a == [] || a[|a| - 1] != '.')
    ensures Canonical(a) == Canonical(b + dots)
  {
    if b != [] { assert Lower(a)[|a| - 1] == Lower(b)[|b| - 1]; }
    DotsGone(b, dots);
    DotsGone(a, []);
    assert a + [] == a;
  }

  lemma {:induction false} DotsGone(b: string, dots: string)
    requires Only(dots, '.') && (b == [] || b[|b| - 1] != '.')
    ensures TrimDots(b + dots) == b
  {
    if dots == [] {
      assert b + dots == b;
    } else {
      assert (b + dots)[..|b + dots| - 1] == b + dots[..|dots| - 1];
      DotsGone(b, dots[..|dots| - 1]);
    }
  }
}
