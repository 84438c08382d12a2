/**
 Printing a share link and parsing it again: which links come back, and which
 parsed links have a printed normal form.
 */
module ShareLinkProofs {
  import opened Basics
  import opened Texts
  import opened ShareLink

  // ---------- Which links come back ----------

  ghost predicate Optional(t: Text, v: Option<string>) {
    v.Some? ==> v.value != [] && t.utf8(v.value) && Bytewise(v.value)
  }

  /** A host no bracket or colon of which is taken for the authority's own. */
  predicate Bracketable(host: string) {
    if ':' in host then ']' !in host else host == [] || host[0] != '['
  }

  ghost predicate Addressed(t: Text, key: string, host: string, port: nat) {
    && key != [] && t.utf8(key) && Bytewise(key)
    && host != [] && Bytewise(host) && '#' !in host && '?' !in host && '@' !in host
    && port <= 65535
  }

  /** What parsing guarantees of every link. */
  ghost predicate Formed(t: Text, l: Link) {
    && Addressed(t, l.key, l.host, l.port)
    && Optional(t, l.sni) && Optional(t, l.path) && Optional(t, l.dns) && Optional(t, l.name)
    && (l.tls || l.path.Some? ==> l.transport == Uot)
  }

  // ---------- Characters of the printed link ----------

  predicate PartChar(c: char) { Unreserved(c) || c == '%' || c == '=' }

  ghost predicate IsPart(s: string) {
    s != [] && forall i :: 0 <= i < |s| ==> PartChar(s[i])
  }

  lemma {:induction false} EncodedIsSafe(s: string)
    ensures Safe(Encode(s))
  {
    if s != [] { EncodedIsSafe(s[1..]); }
  }

  ghost predicate AllParts(parts: seq<string>) {
    forall i :: 0 <= i < |parts| ==> IsPart(parts[i])
  }

  lemma FlagParts(on: bool, text: string)
    requires IsPart(text)
    ensures AllParts(Flag(on, text))
  {
  }

  lemma ItemParts(name: string, v: Option<string>)
    requires forall i :: 0 <= i < |name| ==> Unreserved(name[i])
    ensures AllParts(Item(name, v))
  {
    if v.Some? { EncodedIsSafe(v.value); }
  }

  lemma PartsAppend(a: seq<string>, b: seq<string>)
    requires AllParts(a) && AllParts(b)
    ensures AllParts(a + b)
  {
  }

  // ---------- The query, one field at a time ----------

  function Segment(i: nat, l: Link): seq<string> {
    if i == 0 then ["type=" + TransportName(l.transport)]
    else if i == 1 then Flag(l.tls, "tls=1")
    else if i == 2 then Item("sni", l.sni)
    else if i == 3 then Flag(l.insecure, "insecure=1")
    else if i == 4 then Item("path", l.path)
    else if i == 5 then Flag(l.tun, "tun=true")
    else if i == 6 then Item("dns", l.dns)
    else if i == 7 then Flag(l.owndns, "owndns=true")
    else Item("name", l.name)
  }

  function Segments(n: nat, l: Link): seq<string> {
    if n == 0 then [] else Segments(n - 1, l) + Segment(n - 1, l)
  }

  /** The link with its first `n` fields set. */
  function Stage(n: nat, l: Link): Link {
    Link(l.key, l.host, l.port,
         if n > 0 then l.transport else Udp,
         n > 1 && l.tls,
         if n > 2 then l.sni else None,
         n > 3 && l.insecure,
         if n > 4 then l.path else None,
         n > 5 && l.tun,
         if n > 6 then l.dns else None,
         n > 7 && l.owndns,
         if n > 8 then l.name else None)
  }

  lemma QueryIsSegments(l: Link)
    ensures Query(l) == Segments(9, l) && Stage(9, l) == l && Stage(0, l) == Plain(l.key, l.host, l.port)
  {
    assert Segments(1, l) == Segments(0, l) + Segment(0, l) == Segment(0, l);
    assert Segments(2, l) == Segments(1, l) + Segment(1, l);
    assert Segments(3, l) == Segments(2, l) + Segment(2, l);
    assert Segments(4, l) == Segments(3, l) + Segment(3, l);
    assert Segments(5, l) == Segments(4, l) + Segment(4, l);
    assert Segments(6, l) == Segments(5, l) + Segment(5, l);
    assert Segments(7, l) == Segments(6, l) + Segment(6, l);
    assert Segments(8, l) == Segments(7, l) + Segment(7, l);
  }

  lemma SegmentParts(i: nat, l: Link)
    ensures AllParts(Segment(i, l))
  {
    if i == 0 {
      assert IsPart("type=udp") && IsPart("type=uot");
      assert "type=" + TransportName(l.transport) == if l.transport == Udp then "type=udp" else "type=uot";
    } else if i == 1 {
      FlagParts(l.tls, "tls=1");
    } else if i == 2 {
      ItemParts("sni", l.sni);
    } else if i == 3 {
      FlagParts(l.insecure, "insecure=1");
    } else if i == 4 {
      ItemParts("path", l.path);
    } else if i == 5 {
      FlagParts(l.tun, "tun=true");
    } else if i == 6 {
      ItemParts("dns", l.dns);
    } else if i == 7 {
      FlagParts(l.owndns, "owndns=true");
    } else {
      ItemParts("name", l.name);
    }
  }

  lemma {:induction false} SegmentsParts(n: nat, l: Link)
    ensures AllParts(Segments(n, l)) && (n > 0 ==> Segments(n, l) != [])
  {
    if n > 0 {
      SegmentsParts(n - 1, l);
      SegmentParts(n - 1, l);
      PartsAppend(Segments(n - 1, l), Segment(n - 1, l));
    }
  }

  lemma QueryParts(l: Link)
    ensures AllParts(Query(l)) && Query(l) != []
  {
    QueryIsSegments(l);
    SegmentsParts(9, l);
  }

  lemma {:induction false} JoinChars(parts: seq<string>)
    requires AllParts(parts) && parts != []
    ensures var s := Join(parts, '&'); s != [] && forall i :: 0 <= i < |s| ==> PartChar(s[i]) || s[i] == '&'
  {
    assert IsPart(parts[0]);
    if |parts| > 1 { JoinChars(parts[1..]); }
  }

  // ---------- The authority ----------

  lemma {:induction false} DecimalDigits(n: nat)
    ensures AllDigits(Decimal(n)) && ':' !in Decimal(n) && '@' !in Decimal(n) && IsDigit(Decimal(n)[0])
  {
    DecimalRoundTrip(n);
  }

  lemma PortComesBack(n: nat)
    requires n <= 65535
    ensures ParsePort(Decimal(n)) == Ok(n)
  {
    DecimalRoundTrip(n);
    DecimalDigits(n);
  }

  /** The printed address divides into its host and port if and only if the host is bracketable. */
  lemma AddressComesBackIff(l: Link)
    ensures SplitHostPort(Server(l)) == Ok(HostPort(l.host, Decimal(l.port))) <==> Bracketable(l.host)
    ensures !Bracketable(l.host) ==> var r := SplitHostPort(Server(l)); r.Err? || r.value.host != l.host
  {
    if ':' in l.host { BracketedComesBackIff(l); } else { BareComesBackIff(l); }
  }

  lemma BracketSplits(host: string, d: string)
    requires ']' !in host
    ensures SplitHostPort("[" + host + "]" + ":" + d) == Ok(HostPort(host, d))
  {
    var v6 := host + "]" + ":" + d;
    var s := "[" + host + "]" + ":" + d;
    assert s[0] == '[' && s[1..] == v6;
    var tail := ":" + d;
    assert v6 == host + [']'] + tail;
    FirstAt(host, ']', tail);
    assert v6[|host| + 1] == ':' && v6[|host| + 2..] == d && v6[..|host|] == host;
  }

  lemma BracketedComesBackIff(l: Link)
    requires ':' in l.host
    ensures ']' !in l.host ==> SplitHostPort(Server(l)) == Ok(HostPort(l.host, Decimal(l.port)))
    ensures ']' in l.host ==> var r := SplitHostPort(Server(l)); r.Err? || r.value.host != l.host
  {
    var s, d := Server(l), Decimal(l.port);
    assert s == "[" + l.host + "]" + ":" + d;
    if ']' in l.host {
      var v6 := l.host + "]" + ":" + d;
      assert s[1..] == v6;
      var k :| 0 <= k < |l.host| && l.host[k] == ']';
      assert v6[k] == ']';
      assert IndexOf(v6, ']') <= k;
    } else {
      BracketSplits(l.host, d);
    }
  }

  lemma BareComesBackIff(l: Link)
    requires ':' !in l.host
    ensures Bracketable(l.host) ==> SplitHostPort(Server(l)) == Ok(HostPort(l.host, Decimal(l.port)))
    ensures !Bracketable(l.host) ==> var r := SplitHostPort(Server(l)); r.Err? || r.value.host != l.host
  {
    var s, d := Server(l), Decimal(l.port);
    assert s == l.host + [':'] + d;
    if Bracketable(l.host) {
      assert s[0] != '[' by { if l.host != [] { assert s[0] == l.host[0]; } }
      DecimalDigits(l.port);
      LastAt(l.host, ':', d);
      assert s[..|l.host|] == l.host && s[|l.host| + 1..] == d;
    } else {
      BareBracketIsTaken(l.host, d);
    }
  }

  /** A bare host that begins with a bracket is read as if it were inside one, and comes out different. */
  lemma BareBracketIsTaken(host: string, d: string)
    requires ':' !in host && host != [] && host[0] == '['
    ensures var r := SplitHostPort(host + [':'] + d); r.Err? || r.value.host != host
  {
    var s, n := host + [':'] + d, |host|;
    var v6 := s[1..];
    assert s[0] == '[' && s[n] == ':';
    assert v6[n - 1] == s[n];
    forall i | 0 <= i <= |v6|
      ensures v6[..i] != host
    {
      if i >= n {
        assert v6[..i][n - 1] == ':';
        assert host[n - 1] != ':';
      }
    }
  }

  lemma AuthorityComesBackIff(t: Text, l: Link)
    requires t.Valid() && Formed(t, l)
    ensures ParseAuthority(t, Authority(l)) == ParseServer(l.key, Server(l))
    ensures var r := ParseServer(l.key, Server(l));
            && (Bracketable(l.host) ==> r == Ok(Plain(l.key, l.host, l.port)))
            && (!Bracketable(l.host) ==> r.Err? || r.value.host != l.host)
  {
    DecimalDigits(l.port);
    AuthorityParses(t, l.key, Server(l));
    ServerComesBackIff(l);
  }

  lemma AuthorityParses(t: Text, key: string, server: string)
    requires t.Valid() && key != [] && t.utf8(key) && Bytewise(key) && '@' !in server
    ensures ParseAuthority(t, Encode(key) + "@" + server) == ParseServer(key, server)
  {
    var k := Encode(key);
    var authority := k + ['@'] + server;
    LastAt(k, '@', server);
    assert authority[..|k|] == k && authority[|k| + 1..] == server;
    DecodeUndoesEncode(t, key);
  }

  lemma ServerComesBackIff(l: Link)
    requires l.host != [] && l.port <= 65535
    ensures var r := ParseServer(l.key, Server(l));
            && (Bracketable(l.host) ==> r == Ok(Plain(l.key, l.host, l.port)))
            && (!Bracketable(l.host) ==> r.Err? || r.value.host != l.host)
  {
    AddressComesBackIff(l);
    PortComesBack(l.port);
  }

  // ---------- The query ----------

  lemma {:induction false} ReadConcat(t: Text, l: Link, a: seq<string>, b: seq<string>)
    requires ReadQuery(t, l, a).Ok?
    ensures ReadQuery(t, l, a + b) == ReadQuery(t, ReadQuery(t, l, a).value, b)
  {
    if b == [] {
      assert a + b == a;
    } else {
      assert (a + b)[..|a + b| - 1] == a + b[..|b| - 1];
      ReadConcat(t, l, a, b[..|b| - 1]);
    }
  }

  lemma ReadOne(t: Text, l: Link, k: string, v: string, d: string)
    requires '=' !in k && Decode(t, v) == Ok(d)
    ensures ReadQuery(t, l, [k + "=" + v]) == Ok(SetField(l, k, d))
  {
    var pair := k + ['='] + v;
    FirstAt(k, '=', v);
    assert [pair][..0] == [];
    assert ReadQuery(t, l, []) == Ok(l);
    assert [pair][|[pair]| - 1] == pair;
  }

  lemma LiteralDecodes(t: Text, s: string)
    requires t.Valid() && Plainly(s)
    ensures Decode(t, s) == Ok(s)
  {
    EncodesToItself(s);
    DecodeUndoesEncode(t, s);
  }

  lemma {:induction false} EncodesToItself(s: string)
    requires forall i :: 0 <= i < |s| ==> Unreserved(s[i])
    ensures Bytewise(s) && Encode(s) == s
  {
    if s != [] { EncodesToItself(s[1..]); }
  }

  ghost predicate Plainly(v: string) {
    forall i :: 0 <= i < |v| ==> Unreserved(v[i])
  }

  lemma FlagReads(t: Text, l: Link, on: bool, text: string, k: string, v: string)
    requires t.Valid() && '=' !in k && Plainly(v) && text == k + "=" + v
    ensures ReadQuery(t, l, Flag(on, text)) == Ok(if on then SetField(l, k, v) else l)
  {
    LiteralDecodes(t, v);
    if on { ReadOne(t, l, k, v, v); }
  }

  lemma ItemReads(t: Text, l: Link, k: string, v: Option<string>)
    requires t.Valid() && '=' !in k && Optional(t, v)
    ensures ReadQuery(t, l, Item(k, v)) == Ok(if v.Some? then SetField(l, k, v.value) else l)
  {
    if v.Some? {
      DecodeUndoesEncode(t, v.value);
      ReadOne(t, l, k, Encode(v.value), v.value);
    }
  }

  /** The words the printer writes are the ones the parser knows. */
  lemma Spelling()
    ensures "tls=1" == "tls" + "=" + "1" && '=' !in "tls"
    ensures "insecure=1" == "insecure" + "=" + "1" && '=' !in "insecure"
    ensures "tun=true" == "tun" + "=" + "true" && '=' !in "tun"
    ensures "owndns=true" == "owndns" + "=" + "true" && '=' !in "owndns"
    ensures Plainly("1") && Plainly("true") && Truthy("1") && Truthy("true")
  {
    assert Lower("1") == "1" && Lower("true") == "true";
  }

  lemma TransportReads(t: Text, l: Link)
    requires t.Valid()
    ensures ReadQuery(t, Stage(0, l), Segment(0, l)) == Ok(Stage(1, l))
  {
    NamesRead();
    var name := TransportName(l.transport);
    LiteralDecodes(t, name);
    TypeText(name);
    ReadOne(t, Stage(0, l), "type", name, name);
  }

  lemma TypeText(name: string)
    ensures "type=" + name == "type" + "=" + name && '=' !in "type"
  {
    assert "type=" == "type" + "=";
  }

  lemma NamesRead()
    ensures TransportOf("udp") == Udp && TransportOf("uot") == Uot && Plainly("udp") && Plainly("uot")
  {
    assert Lower("uot") == "uot" && Lower("udp")[1] == 'd';
  }

  lemma TlsReads(t: Text, l: Link)
    requires t.Valid()
    ensures ReadQuery(t, Stage(1, l), Segment(1, l)) == Ok(Stage(2, l))
  {
    Spelling();
    FlagReads(t, Stage(1, l), l.tls, "tls=1", "tls", "1");
  }

  lemma SniReads(t: Text, l: Link)
    requires t.Valid() && Optional(t, l.sni)
    ensures ReadQuery(t, Stage(2, l), Segment(2, l)) == Ok(Stage(3, l))
  {
    ItemReads(t, Stage(2, l), "sni", l.sni);
  }

  lemma InsecureReads(t: Text, l: Link)
    requires t.Valid()
    ensures ReadQuery(t, Stage(3, l), Segment(3, l)) == Ok(Stage(4, l))
  {
    Spelling();
    FlagReads(t, Stage(3, l), l.insecure, "insecure=1", "insecure", "1");
  }

  lemma PathReads(t: Text, l: Link)
    requires t.Valid() && Optional(t, l.path)
    ensures ReadQuery(t, Stage(4, l), Segment(4, l)) == Ok(Stage(5, l))
  {
    ItemReads(t, Stage(4, l), "path", l.path);
  }

  lemma TunIsSet(l: Link)
    ensures SetField(l, "tun", "true") == l.(tun := Truthy("true"))
  {
  }

  lemma TunReads(t: Text, l: Link)
    requires t.Valid()
    ensures ReadQuery(t, Stage(5, l), Segment(5, l)) == Ok(Stage(6, l))
  {
    Spelling();
    TunIsSet(Stage(5, l));
    FlagReads(t, Stage(5, l), l.tun, "tun=true", "tun", "true");
  }

  lemma DnsReads(t: Text, l: Link)
    requires t.Valid() && Optional(t, l.dns)
    ensures ReadQuery(t, Stage(6, l), Segment(6, l)) == Ok(Stage(7, l))
  {
    ItemReads(t, Stage(6, l), "dns", l.dns);
  }

  lemma OwnDnsIsSet(l: Link)
    ensures SetField(l, "owndns", "true") == l.(owndns := Truthy("true"))
  {
  }

  lemma OwnDnsReads(t: Text, l: Link)
    requires t.Valid()
    ensures ReadQuery(t, Stage(7, l), Segment(7, l)) == Ok(Stage(8, l))
  {
    Spelling();
    OwnDnsIsSet(Stage(7, l));
    FlagReads(t, Stage(7, l), l.owndns, "owndns=true", "owndns", "true");
  }

  lemma NameIsSet(l: Link, v: string)
    ensures SetField(l, "name", v) == l.(name := NonEmpty(v))
  {
  }

  lemma NameReads(t: Text, l: Link)
    requires t.Valid() && Optional(t, l.name)
    ensures ReadQuery(t, Stage(8, l), Segment(8, l)) == Ok(Stage(9, l))
  {
    if l.name.Some? { NameIsSet(Stage(8, l), l.name.value); }
    ItemReads(t, Stage(8, l), "name", l.name);
  }

  lemma SegmentReads(t: Text, l: Link, i: nat)
    requires t.Valid() && Optional(t, l.sni) && Optional(t, l.path) && Optional(t, l.dns) && Optional(t, l.name)
    requires i < 9
    ensures ReadQuery(t, Stage(i, l), Segment(i, l)) == Ok(Stage(i + 1, l))
  {
    if i == 0 { TransportReads(t, l); }
    else if i == 1 { TlsReads(t, l); }
    else if i == 2 { SniReads(t, l); }
    else if i == 3 { InsecureReads(t, l); }
    else if i == 4 { PathReads(t, l); }
    else if i == 5 { TunReads(t, l); }
    else if i == 6 { DnsReads(t, l); }
    else if i == 7 { OwnDnsReads(t, l); }
    else { NameReads(t, l); }
  }

  lemma {:induction false} SegmentsRead(t: Text, l: Link, n: nat)
    requires t.Valid()
    requires Optional(t, l.sni) && Optional(t, l.path) && Optional(t, l.dns) && Optional(t, l.name)
    requires n <= 9
    ensures ReadQuery(t, Stage(0, l), Segments(n, l)) == Ok(Stage(n, l))
  {
    if n > 0 {
      SegmentsRead(t, l, n - 1);
      SegmentReads(t, l, n - 1);
      ReadConcat(t, Stage(0, l), Segments(n - 1, l), Segment(n - 1, l));
    }
  }

  lemma QueryComesBack(t: Text, l: Link)
    requires t.Valid()
    requires Optional(t, l.sni) && Optional(t, l.path) && Optional(t, l.dns) && Optional(t, l.name)
    ensures ReadQuery(t, Plain(l.key, l.host, l.port), Query(l)) == Ok(l)
  {
    QueryIsSegments(l);
    SegmentsRead(t, l, 9);
  }

  lemma FieldKeepsAddress(l: Link, k: string, v: string)
    ensures var m := SetField(l, k, v); m.key == l.key && m.host == l.host && m.port == l.port
  {
  }

  lemma {:induction false} QueryKeepsHost(t: Text, l: Link, pairs: seq<string>)
    ensures var r := ReadQuery(t, l, pairs); r.Ok? ==> r.value.host == l.host
  {
    if pairs != [] {
      var front, pair := ReadQuery(t, l, pairs[..|pairs| - 1]), pairs[|pairs| - 1];
      QueryKeepsHost(t, l, pairs[..|pairs| - 1]);
      var v := Decode(t, After(pair, '='));
      if front.Ok? && v.Ok? { FieldKeepsAddress(front.value, Before(pair, '='), v.value); }
    }
  }

  // ---------- The whole text ----------

  ghost predicate CleanAuthority(authority: string) {
    authority != [] && IsDigit(authority[|authority| - 1]) && '?' !in authority && '#' !in authority
  }

  lemma AuthorityIsClean(l: Link)
    requires '?' !in l.host && '#' !in l.host
    ensures CleanAuthority(Authority(l))
  {
    EncodedIsSafe(l.key);
    DecimalRoundTrip(l.port);
    var s, d := Server(l), Decimal(l.port);
    assert s[|s| - 1] == d[|d| - 1];
    assert '?' !in s && '#' !in s;
  }

  lemma TrimKeepsPrinted(t: Text, body: string)
    requires t.Valid() && body != [] && Graphic(body[|body| - 1])
    ensures t.trim(SCHEME + body) == SCHEME + body
  {
    var s := SCHEME + body;
    assert s[0] == 'o' && s[|s| - 1] == body[|body| - 1];
  }

  /** Text of the printed shape is cut where it was put together. */
  lemma ShapeSplits(t: Text, authority: string, parts: seq<string>)
    requires t.Valid() && CleanAuthority(authority) && AllParts(parts) && parts != []
    ensures Cut(t, SCHEME + (authority + "?" + Join(parts, '&'))) == Ok(Pieces(authority, parts))
  {
    var query := Join(parts, '&');
    JoinChars(parts);
    var rest := authority + ['?'] + query;
    var s := SCHEME + rest;
    TrimKeepsPrinted(t, rest);
    assert s[7..] == rest && s[..7] == SCHEME && Lower(SCHEME) == SCHEME;
    NowhereIn(rest, '#');
    FirstAt(authority, '?', query);
    forall i | 0 <= i < |parts|
      ensures '&' !in parts[i]
    {
      assert IsPart(parts[i]);
    }
    SplitJoin(parts, '&');
    assert TrimSlashes(authority) == authority;
  }

  lemma PrintedSplits(t: Text, l: Link)
    requires t.Valid() && '?' !in l.host && '#' !in l.host
    ensures Cut(t, Print(l)) == Ok(Pieces(Authority(l), Query(l)))
  {
    QueryParts(l);
    AuthorityIsClean(l);
    ShapeSplits(t, Authority(l), Query(l));
  }

  /** A formed link comes back from its printed text if and only if its host is bracketable. */
  lemma FormedComesBackIff(t: Text, l: Link)
    requires t.Valid() && Formed(t, l)
    ensures Parse(t, Print(l)) == Ok(l) <==> Bracketable(l.host)
  {
    PrintedSplits(t, l);
    AuthorityComesBackIff(t, l);
    QueryComesBack(t, l);
    var r := ParseAuthority(t, Authority(l));
    if r.Ok? { QueryKeepsHost(t, r.value, Query(l)); }
  }

  // ---------- What parsing guarantees ----------

  lemma {:induction false} DecodedBytes(s: string)
    requires Bytewise(s)
    ensures Bytewise(PercentDecode(s))
  {
    if s != [] {
      if Escape(s) { DecodedBytes(s[3..]); } else { DecodedBytes(s[1..]); }
    }
  }

  lemma DecodesToText(t: Text, s: string)
    requires Bytewise(s)
    ensures var r := Decode(t, s); r.Ok? ==> t.utf8(r.value) && Bytewise(r.value)
  {
    DecodedBytes(PlusToSpace(s));
  }

  lemma {:induction false} SplitBytes(s: string, c: char)
    requires Bytewise(s)
    ensures forall i :: 0 <= i < |Split(s, c)| ==> Bytewise(Split(s, c)[i])
    decreases |s|
  {
    var i := IndexOf(s, c);
    if i < |s| { SplitBytes(s[i + 1..], c); }
  }

  /** What holds of a link while its query is being read. */
  ghost predicate Forming(t: Text, l: Link) {
    && Addressed(t, l.key, l.host, l.port)
    && Optional(t, l.sni) && Optional(t, l.path) && Optional(t, l.dns) && Optional(t, l.name)
  }

  lemma FieldSetsText(l: Link, k: string, v: string)
    ensures var m := SetField(l, k, v);
            (m.sni == l.sni || m.sni == NonEmpty(v)) && (m.path == l.path || m.path == NonEmpty(v))
            && (m.dns == l.dns || m.dns == NonEmpty(v)) && (m.name == l.name || m.name == NonEmpty(v))
  {
  }

  lemma FormKept(t: Text, l: Link, m: Link, v: Option<string>)
    requires Forming(t, l) && Optional(t, v) && m.key == l.key && m.host == l.host && m.port == l.port
    requires (m.sni == l.sni || m.sni == v) && (m.path == l.path || m.path == v)
    requires (m.dns == l.dns || m.dns == v) && (m.name == l.name || m.name == v)
    ensures Forming(t, m)
  {
  }

  lemma FieldKeepsForm(t: Text, l: Link, k: string, v: string)
    requires Forming(t, l) && t.utf8(v) && Bytewise(v)
    ensures Forming(t, SetField(l, k, v))
  {
    FieldKeepsAddress(l, k, v);
    FieldSetsText(l, k, v);
    FormKept(t, l, SetField(l, k, v), NonEmpty(v));
  }

  lemma {:induction false} QueryForms(t: Text, l: Link, pairs: seq<string>)
    requires Forming(t, l) && forall i :: 0 <= i < |pairs| ==> Bytewise(pairs[i])
    ensures var r := ReadQuery(t, l, pairs); r.Ok? ==> Forming(t, r.value)
  {
    if pairs != [] {
      var front, pair := ReadQuery(t, l, pairs[..|pairs| - 1]), pairs[|pairs| - 1];
      QueryForms(t, l, pairs[..|pairs| - 1]);
      DecodesToText(t, After(pair, '='));
      var v := Decode(t, After(pair, '='));
      if front.Ok? && v.Ok? { FieldKeepsForm(t, front.value, Before(pair, '='), v.value); }
    }
  }

  lemma HostIsPart(s: string)
    ensures var r := SplitHostPort(s); r.Ok? ==> forall i :: 0 <= i < |r.value.host| ==> r.value.host[i] in s
  {
    if s != [] && s[0] == '[' {
      assert forall i :: 0 <= i < |s[1..]| ==> s[1..][i] in s;
    }
  }

  lemma AuthorityForms(t: Text, s: string)
    requires Bytewise(s) && '#' !in s && '?' !in s
    ensures var r := ParseAuthority(t, s); r.Ok? ==> Forming(t, r.value)
  {
    var i := LastIndexOf(s, '@');
    if i.Some? {
      DecodesToText(t, s[..i.value]);
      var h := s[i.value + 1..];
      HostIsPart(h);
      assert '@' !in h && '#' !in h && '?' !in h && Bytewise(h);
    }
  }

  lemma {:induction false} TrimmedIsPrefix(s: string)
    ensures TrimSlashes(s) <= s
  {
    if s != [] && s[|s| - 1] == '/' { TrimmedIsPrefix(s[..|s| - 1]); }
  }

  /** Whatever the text, a parsed link is formed. */
  lemma ParsedIsFormed(t: Text, input: string, l: Link)
    requires t.Valid() && Bytewise(input) && Parse(t, input) == Ok(l)
    ensures Formed(t, l)
  {
    var s := t.trim(input);
    var rest := Before(s[7..], '#');
    var a := Before(rest, '?');
    TrimmedIsPrefix(a);
    var authority := TrimSlashes(a);
    assert '#' !in rest && '?' !in a && '#' !in a;
    AuthorityForms(t, authority);
    SplitBytes(After(rest, '?'), '&');
    QueryForms(t, ParseAuthority(t, authority).value, Split(After(rest, '?'), '&'));
  }

  // ---------- Main results ----------

  lemma PrintIsBytes(l: Link)
    requires Bytewise(l.host)
    ensures Bytewise(Print(l))
  {
    var query := Join(Query(l), '&');
    QueryParts(l);
    JoinChars(Query(l));
    EncodedIsSafe(l.key);
    DecimalDigits(l.port);
    assert Bytewise(query) && Bytewise(Encode(l.key)) && Bytewise(Decimal(l.port));
    assert Bytewise(Server(l));
  }

  /** Printing then parsing gives the link back if and only if it is formed and its host bracketable. */
  lemma RoundTripIff(t: Text, l: Link)
    requires t.Valid() && Bytewise(l.host)
    ensures Parse(t, Print(l)) == Ok(l) <==> Formed(t, l) && Bracketable(l.host)
  {
    if Formed(t, l) {
      FormedComesBackIff(t, l);
    }
    if Parse(t, Print(l)) == Ok(l) {
      PrintIsBytes(l);
      ParsedIsFormed(t, Print(l), l);
    }
  }

  /** A parsed link has its printed text as normal form, exactly when its host is bracketable. */
  lemma NormalFormIff(t: Text, input: string, l: Link)
    requires t.Valid() && Bytewise(input) && Parse(t, input) == Ok(l)
    ensures Parse(t, Print(l)) == Ok(l) <==> Bracketable(l.host)
  {
    ParsedIsFormed(t, input, l);
    FormedComesBackIff(t, l);
  }

  /** A link's text with its host in brackets whether or not it has a colon. */
  function Bracketed(l: Link): string {
    SCHEME + (BracketedAuthority(l) + "?" + Join(Query(l), '&'))
  }

  function BracketedAuthority(l: Link): string {
    Encode(l.key) + "@" + BracketedServer(l)
  }

  function BracketedServer(l: Link): string { "[" + l.host + "]" + ":" + Decimal(l.port) }

  lemma BracketedAuthorityIsClean(l: Link)
    requires '?' !in l.host && '#' !in l.host
    ensures CleanAuthority(BracketedAuthority(l))
  {
    EncodedIsSafe(l.key);
    DecimalRoundTrip(l.port);
    var s, d := BracketedServer(l), Decimal(l.port);
    assert s[|s| - 1] == d[|d| - 1];
    assert '?' !in s && '#' !in s;
  }

  lemma BracketedAuthorityParses(t: Text, l: Link)
    requires t.Valid() && Formed(t, l) && ']' !in l.host
    ensures ParseAuthority(t, BracketedAuthority(l)) == Ok(Plain(l.key, l.host, l.port))
  {
    DecimalDigits(l.port);
    AuthorityParses(t, l.key, BracketedServer(l));
    BracketSplits(l.host, Decimal(l.port));
    PortComesBack(l.port);
  }

  /** Every formed link whose host has no closing bracket is what some text parses to. */
  lemma BracketedParses(t: Text, l: Link)
    requires t.Valid() && Formed(t, l) && ']' !in l.host
    ensures Parse(t, Bracketed(l)) == Ok(l)
  {
    QueryParts(l);
    BracketedAuthorityIsClean(l);
    ShapeSplits(t, BracketedAuthority(l), Query(l));
    BracketedAuthorityParses(t, l);
    QueryComesBack(t, l);
  }

  /** So a bracketed host that itself begins with a bracket parses, but its link does not come back from its own text. */
  lemma NoNormalForm(t: Text, l: Link)
    requires t.Valid() && Formed(t, l) && l.host[0] == '[' && ':' !in l.host && ']' !in l.host
    ensures Parse(t, Bracketed(l)) == Ok(l) && Parse(t, Print(l)) != Ok(l)
  {
    BracketedParses(t, l);
    FormedComesBackIff(t, l);
  }
}
