/**
 Texts that are no printed link but mean one: spellings of values, order and repetition
 of fields, plus signs, the case of the scheme, fragments and trailing slashes.
 */
module ShareLinkForms {
  import opened Basics
  import opened Texts
  import opened ShareLink

  // ---------- Values ----------

  /** A plus sign written as the escape of a space. */
  function Spelled(s: string): string {
    if s == [] then [] else (if s[0] == '+' then "%20" else [s[0]]) + Spelled(s[1..])
  }

  lemma {:induction false} NoPlusLeft(s: string)
    ensures forall i :: 0 <= i < |Spelled(s)| ==> Spelled(s)[i] != '+'
  {
    if s != [] { NoPlusLeft(s[1..]); }
  }

  lemma NoPlusStays(s: string)
    requires forall i :: 0 <= i < |s| ==> s[i] != '+'
    ensures PlusToSpace(s) == s
  {
  }

  lemma PlusTail(s: string, n: nat)
    requires n <= |s|
    ensures PlusToSpace(s)[n..] == PlusToSpace(s[n..])
  {
  }

  lemma SpelledHead(s: string)
    requires s != [] && s[0] != '+'
    ensures Spelled(s) == [s[0]] + Spelled(s[1..])
  {
  }

  /** An escape stays one, and no other comes about. */
  lemma EscapeSpelled(s: string)
    requires s != [] && s[0] != '+'
    ensures Escape(PlusToSpace(s)) <==> Escape(s)
    ensures Escape(Spelled(s)) <==> Escape(s)
    ensures Escape(s) ==> Spelled(s) == s[..3] + Spelled(s[3..])
  {
    SpelledHead(s);
    if |s| >= 2 {
      if s[1] == '+' {
        assert Spelled(s[1..])[0] == '%';
      } else {
        SpelledHead(s[1..]);
        assert s[1..][1..] == s[2..];
        if |s| >= 3 {
          if s[2] == '+' {
            assert Spelled(s[2..])[0] == '%';
          } else {
            SpelledHead(s[2..]);
            assert s[2..][1..] == s[3..] && s[..3] == [s[0]] + [s[1]] + [s[2]];
          }
        }
      }
    }
  }

  lemma {:induction false} PlusDecodes(s: string)
    ensures PercentDecode(PlusToSpace(s)) == PercentDecode(Spelled(s))
    decreases |s|
  {
    if s != [] {
      PlusTail(s, 1);
      PlusDecodes(s[1..]);
      if s[0] == '+' {
        var e := "%20" + Spelled(s[1..]);
        assert e[1] == '2' && e[2] == '0' && e[3..] == Spelled(s[1..]);
        assert PlusToSpace(s)[0] == ' ';
      } else {
        EscapeSpelled(s);
        SpelledHead(s);
        if Escape(s) {
          PlusTail(s, 3);
          PlusDecodes(s[3..]);
          assert Spelled(s)[3..] == Spelled(s[3..]) && Spelled(s)[..3] == s[..3];
          assert PlusToSpace(s)[..3] == s[..3];
        }
      }
    }
  }

  /** A plus sign stands for a space, exactly as its escape does. */
  lemma PlusIsSpace(t: Text, s: string)
    ensures Decode(t, s) == Decode(t, Spelled(s))
  {
    PlusDecodes(s);
    NoPlusLeft(s);
    NoPlusStays(Spelled(s));
  }

  /** Escapes may be written in either case. */
  lemma EscapeCase(a: char, b: char, rest: string)
    requires HexValue(a).Some? && HexValue(b).Some?
    ensures PercentDecode(['%', a, b] + rest) == PercentDecode(['%', LowerChar(a), LowerChar(b)] + rest)
    ensures PercentDecode(['%', a, b] + rest)
            == [(16 * HexValue(a).value + HexValue(b).value) as char] + PercentDecode(rest)
  {
    var upper, lower := ['%', a, b] + rest, ['%', LowerChar(a), LowerChar(b)] + rest;
    assert upper[1] == a && upper[2] == b && upper[3..] == rest;
    assert lower[1] == LowerChar(a) && lower[2] == LowerChar(b) && lower[3..] == rest;
    assert HexValue(LowerChar(a)) == HexValue(a) && HexValue(LowerChar(b)) == HexValue(b);
  }

  // ---------- Fields ----------

  /** What a flag may be set by, in any case. */
  predicate Yes(v: string) { Lower(v) == "1" || Lower(v) == "true" || Lower(v) == "yes" }

  /** What names the TCP carrier, in any case; anything else is UDP. */
  predicate Tcp(v: string) { Lower(v) == "uot" || Lower(v) == "tcp" || Lower(v) == "http" }

  /** A key sets the one field it names, to what the value spells; any other key sets nothing. */
  lemma FieldIsSet(l: Link, k: string, v: string)
    ensures SetField(l, k, v)
            == if k == "type" then l.(transport := if Tcp(v) then Uot else Udp)
               else if k == "tls" then l.(tls := Yes(v))
               else if k == "sni" then l.(sni := if v == [] then None else Some(v))
               else if k == "insecure" then l.(insecure := Yes(v))
               else if k == "path" then l.(path := if v == [] then None else Some(v))
               else if k == "tun" then l.(tun := Yes(v))
               else if k == "dns" then l.(dns := if v == [] then None else Some(v))
               else if k == "owndns" then l.(owndns := Yes(v))
               else if k == "name" then l.(name := if v == [] then None else Some(v))
               else l
  {
  }

  /** Of one field given twice the last counts, and the order of different fields does not matter. */
  lemma LastCounts(l: Link, k: string, v: string, w: string)
    ensures SetField(SetField(l, k, v), k, w) == SetField(l, k, w)
  {
  }

  lemma OrderIsFree(l: Link, j: string, v: string, k: string, w: string)
    requires j != k
    ensures SetField(SetField(l, j, v), k, w) == SetField(SetField(l, k, w), j, v)
  {
  }

  lemma ReadsPair(t: Text, l: Link, k: string, v: string, d: string)
    requires '=' !in k && Decode(t, v) == Ok(d)
    ensures ReadPair(t, l, k + "=" + v) == Ok(SetField(l, k, d))
  {
    FirstAt(k, '=', v);
  }

  /** Two values that decode to spellings of one thing make one link. */
  lemma SpellingsAgree(t: Text, l: Link, k: string, v: string, w: string, c: string, d: string)
    requires Decode(t, v) == Ok(c) && Decode(t, w) == Ok(d) && Lower(c) == Lower(d)
    requires k == "type" || k == "tls" || k == "insecure" || k == "tun" || k == "owndns"
    ensures ReadPair(t, l, k + "=" + v) == ReadPair(t, l, k + "=" + w)
  {
    assert forall i :: 0 <= i < |k| ==> k[i] != '=';
    ReadsPair(t, l, k, v, c);
    ReadsPair(t, l, k, w, d);
  }

  // ---------- The text around ----------

  lemma CutIs(t: Text, scheme: string, rest: string)
    requires |scheme| == 7 && Lower(scheme) == SCHEME && t.trim(scheme + rest) == scheme + rest
    ensures Cut(t, scheme + rest)
            == Ok(Pieces(TrimSlashes(Before(Before(rest, '#'), '?')), Split(After(Before(rest, '#'), '?'), '&')))
  {
    var s := scheme + rest;
    assert s[..7] == scheme && s[7..] == rest;
  }

  /** The scheme may be in any case. */
  lemma SchemeInAnyCase(t: Text, a: string, b: string, rest: string)
    requires |a| == |b| == 7 && Lower(a) == Lower(b) == SCHEME
    requires t.trim(a + rest) == a + rest && t.trim(b + rest) == b + rest
    ensures Parse(t, a + rest) == Parse(t, b + rest)
  {
    CutIs(t, a, rest);
    CutIs(t, b, rest);
  }

  /** What follows a `#` says nothing. */
  lemma FragmentSaysNothing(t: Text, scheme: string, body: string, fragment: string)
    requires |scheme| == 7 && Lower(scheme) == SCHEME && '#' !in body
    requires t.trim(scheme + body) == scheme + body
    requires t.trim(scheme + (body + ['#'] + fragment)) == scheme + (body + ['#'] + fragment)
    ensures Parse(t, scheme + (body + ['#'] + fragment)) == Parse(t, scheme + body)
  {
    CutIs(t, scheme, body);
    CutIs(t, scheme, body + ['#'] + fragment);
    FirstAt(body, '#', fragment);
    NowhereIn(body, '#');
  }

  predicate Slashes(s: string) { forall i :: 0 <= i < |s| ==> s[i] == '/' }

  lemma {:induction false} SlashesTrimmed(s: string, slashes: string)
    requires Slashes(slashes)
    ensures TrimSlashes(s + slashes) == TrimSlashes(s)
  {
    if slashes == [] {
      assert s + slashes == s;
    } else {
      assert (s + slashes)[..|s + slashes| - 1] == s + slashes[..|slashes| - 1];
      SlashesTrimmed(s, slashes[..|slashes| - 1]);
    }
  }

  /** Nor do slashes between the address and the query. */
  lemma SlashesSayNothing(t: Text, scheme: string, authority: string, slashes: string, query: string)
    requires |scheme| == 7 && Lower(scheme) == SCHEME && Slashes(slashes)
    requires '#' !in authority && '?' !in authority && '#' !in query
    requires t.trim(scheme + (authority + ['?'] + query)) == scheme + (authority + ['?'] + query)
    requires t.trim(scheme + (authority + slashes + ['?'] + query)) == scheme + (authority + slashes + ['?'] + query)
    ensures Parse(t, scheme + (authority + slashes + ['?'] + query)) == Parse(t, scheme + (authority + ['?'] + query))
  {
    CutIs(t, scheme, authority + ['?'] + query);
    CutIs(t, scheme, authority + slashes + ['?'] + query);
    NowhereIn(authority + ['?'] + query, '#');
    NowhereIn(authority + slashes + ['?'] + query, '#');
    FirstAt(authority, '?', query);
    FirstAt(authority + slashes, '?', query);
    SlashesTrimmed(authority, slashes);
  }

  /** Nor does an empty pair. */
  lemma EmptyPairsSayNothing(t: Text, l: Link, front: seq<string>)
    ensures ReadQuery(t, l, front + [[]]) == ReadQuery(t, l, front)
  {
    assert (front + [[]])[..|front|] == front;
  }

  // ---------- Addresses, ports and refusals ----------

  /** A port may carry one plus sign. */
  lemma PortMayBeSigned(digits: string)
    requires digits == [] || digits[0] != '+'
    ensures ParsePort("+" + digits) == ParsePort(digits)
  {
    assert ("+" + digits)[1..] == digits;
  }

  /** A port is read if and only if it is digits, after that sign, of a number below 65536; and it is that number. */
  lemma PortIff(s: string, n: nat)
    ensures ParsePort(s) == Ok(n)
            <==> exists d :: (s == d || s == "+" + d) && d != [] && AllDigits(d) && Value(d) == n && n < 65536
                             && (s == d ==> d[0] != '+')
  {
    if s != [] && s[0] == '+' {
      assert s == "+" + s[1..];
      assert forall d :: s == "+" + d ==> d == s[1..];
    }
  }

  /** A bracket that is never closed, and an address without a port, are refused as what they are. */
  lemma AddressRefused(s: string)
    ensures SplitHostPort(s) == Err(Unterminated) <==> s != [] && s[0] == '[' && ']' !in s[1..]
    ensures SplitHostPort(s) == Err(NoPort)
            <==> if s != [] && s[0] == '[' then ']' in s[1..] && !exists i :: Closed(s, i) else ':' !in s
  {
    if s != [] && s[0] == '[' {
      var v6 := s[1..];
      var i := IndexOf(v6, ']');
      if i + 1 < |v6| && v6[i + 1] == ':' { assert Closed(s, i + 1); }
    }
  }

  /** The first closing bracket is at `i`, with a colon after it. */
  predicate Closed(s: string, i: int) {
    && 1 <= i < |s| - 1 && s[i] == ']' && s[i + 1] == ':' && forall j :: 1 <= j < i ==> s[j] != ']'
  }

  /** A text is no link if and only if, trimmed, it does not begin with the scheme in some case. */
  lemma NotALinkIff(t: Text, input: string)
    ensures Parse(t, input) == Err(NotALink) <==> !(|t.trim(input)| >= 7 && Lower(t.trim(input)[..7]) == "ostp://")
  {
    var c := Cut(t, input);
    if c.Ok? {
      AuthorityErrors(t, c.value.authority);
      if ParseAuthority(t, c.value.authority).Ok? { QueryErrors(t, ParseAuthority(t, c.value.authority).value, c.value.pairs); }
    }
  }

  lemma AuthorityErrors(t: Text, authority: string)
    ensures ParseAuthority(t, authority) != Err(NotALink)
    ensures ParseAuthority(t, authority) == Err(NoKey) <==> '@' !in authority
  {
  }

  lemma {:induction false} QueryErrors(t: Text, l: Link, pairs: seq<string>)
    ensures ReadQuery(t, l, pairs).Err? ==> ReadQuery(t, l, pairs) == Err(BadUtf8)
  {
    if pairs != [] { QueryErrors(t, l, pairs[..|pairs| - 1]); }
  }
}
