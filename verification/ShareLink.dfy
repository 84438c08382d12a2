/**
 The `ostp://` share link: what the parser makes of any text, and the text it is
 printed as. Printing then parsing gives a link back exactly when its fields are
 well formed, and a parsed link has a printed normal form exactly when its host
 can stand in a URI.

 Text is its UTF-8 bytes, one character a byte. Which bytes are valid UTF-8 and
 which count as blank at either end are parameters.
 */
module ShareLink {
  import opened Basics
  import opened Texts

  datatype Text = Text(utf8: string -> bool, trim: string -> string)
  {
    /** ASCII is valid text; trimming keeps bytes, and takes nothing from between two graphic ASCII characters. */
    ghost predicate Valid() {
      && (forall s {:trigger utf8(s)} :: Ascii(s) ==> utf8(s))
      && (forall s {:trigger trim(s)} :: s != [] && Graphic(s[0]) && Graphic(s[|s| - 1]) ==> trim(s) == s)
      && (forall s {:trigger trim(s)} :: Bytewise(s) ==> Bytewise(trim(s)))
    }
  }

  predicate Graphic(c: char) { '!' <= c <= '~' }

  predicate Ascii(s: string) { forall i :: 0 <= i < |s| ==> s[i] as int < 128 }

  predicate Bytewise(s: string) { forall i :: 0 <= i < |s| ==> s[i] as int < 256 }

  datatype Transport = Udp | Uot

  datatype Link = Link(
    key: string, host: string, port: nat, transport: Transport, tls: bool, sni: Option<string>, insecure: bool,
    path: Option<string>, tun: bool, dns: Option<string>, owndns: bool, name: Option<string>)

  datatype Error = NotALink | NoKey | BadUtf8 | EmptyKey | Unterminated | NoPort | NoHost | BadPort

  datatype Result<T> = Ok(value: T) | Err(error: Error)

  // ---------- Percent-encoding ----------

  predicate IsDigit(c: char) { '0' <= c <= '9' }

  predicate Unreserved(c: char) {
    IsDigit(c) || 'A' <= c <= 'Z' || 'a' <= c <= 'z' || c == '-' || c == '.' || c == '_' || c == '~'
  }

  function HexDigit(n: nat): (c: char)
    requires n < 16
  {
    if n < 10 then (n + '0' as int) as char else (n - 10 + 'A' as int) as char
  }

  function HexValue(c: char): (n: Option<nat>)
    ensures n.Some? ==> n.value < 16
  {
    if IsDigit(c) then Some(c as int - '0' as int)
    else if 'A' <= c <= 'F' then Some(c as int - 'A' as int + 10)
    else if 'a' <= c <= 'f' then Some(c as int - 'a' as int + 10)
    else None
  }

  function EncodeByte(c: char): string {
    if Unreserved(c) then [c] else ['%', HexDigit(c as int / 16 % 16), HexDigit(c as int % 16)]
  }

  function Encode(s: string): string {
    if s == [] then [] else EncodeByte(s[0]) + Encode(s[1..])
  }

  function PlusToSpace(s: string): (r: string)
    ensures |r| == |s|
  {
    seq(|s|, i requires 0 <= i < |s| => if s[i] == '+' then ' ' else s[i])
  }

  predicate Escape(s: string) {
    |s| >= 3 && s[0] == '%' && HexValue(s[1]).Some? && HexValue(s[2]).Some?
  }

  /** An escape becomes its byte; a percent sign that starts none stays. */
  function PercentDecode(s: string): string
  {
    if s == [] then []
    else if Escape(s) then [(16 * HexValue(s[1]).value + HexValue(s[2]).value) as char] + PercentDecode(s[3..])
    else [s[0]] + PercentDecode(s[1..])
  }

  function Decode(t: Text, s: string): Result<string> {
    var d := PercentDecode(PlusToSpace(s));
    if t.utf8(d) then Ok(d) else Err(BadUtf8)
  }

  lemma ByteSurvives(c: char, rest: string)
    requires c as int < 256
    ensures PercentDecode(EncodeByte(c) + rest) == [c] + PercentDecode(rest)
  {
    var e := EncodeByte(c) + rest;
    if Unreserved(c) {
      assert e[0] == c && e[1..] == rest;
    } else {
      assert e[1] == HexDigit(c as int / 16 % 16) && e[2] == HexDigit(c as int % 16) && e[3..] == rest;
    }
  }

  /** What encoding emits: unreserved characters and percent signs. */
  ghost predicate Safe(s: string) {
    forall i :: 0 <= i < |s| ==> Unreserved(s[i]) || s[i] == '%'
  }

  lemma {:induction false} EncodeDecode(s: string)
    requires Bytewise(s)
    ensures PercentDecode(Encode(s)) == s && Safe(Encode(s))
    ensures Encode(s) == [] <==> s == []
  {
    if s != [] {
      EncodeDecode(s[1..]);
      ByteSurvives(s[0], Encode(s[1..]));
    }
  }

  /** Decoding undoes encoding, for every byte string that is valid text. */
  lemma DecodeUndoesEncode(t: Text, s: string)
    requires Bytewise(s) && t.utf8(s)
    ensures Decode(t, Encode(s)) == Ok(s)
  {
    EncodeDecode(s);
    assert PlusToSpace(Encode(s)) == Encode(s);
  }

  // ---------- Ports ----------

  function Decimal(n: nat): (s: string)
    ensures s != []
  {
    var d := [(n % 10 + '0' as int) as char];
    if n < 10 then d else Decimal(n / 10) + d
  }

  predicate AllDigits(s: string) { forall i :: 0 <= i < |s| ==> IsDigit(s[i]) }

  function Value(s: string): nat
    requires AllDigits(s)
  {
    if s == [] then 0 else 10 * Value(s[..|s| - 1]) + (s[|s| - 1] as int - '0' as int)
  }

  /** Digits, after one plus sign at most, of a number that fits 16 bits. */
  function ParsePort(s: string): Result<nat> {
    var d := if s != [] && s[0] == '+' then s[1..] else s;
    if d == [] || !AllDigits(d) || Value(d) > 65535 then Err(BadPort) else Ok(Value(d))
  }

  lemma {:induction false} DecimalRoundTrip(n: nat)
    ensures AllDigits(Decimal(n)) && Value(Decimal(n)) == n
  {
    var s := Decimal(n);
    if n >= 10 {
      DecimalRoundTrip(n / 10);
      assert s[..|s| - 1] == Decimal(n / 10);
    } else {
      assert s[..|s| - 1] == [];
    }
  }

  // ---------- Splitting ----------

  function LastIndexOf(s: string, c: char): (i: Option<nat>)
    ensures i.Some? ==> i.value < |s| && s[i.value] == c && forall j :: i.value < j < |s| ==> s[j] != c
    ensures i.None? ==> forall j :: 0 <= j < |s| ==> s[j] != c
  {
    if s == [] then None
    else if s[|s| - 1] == c then Some(|s| - 1)
    else LastIndexOf(s[..|s| - 1], c)
  }

  function Join(parts: seq<string>, c: char): string {
    if parts == [] then []
    else if |parts| == 1 then parts[0]
    else parts[0] + [c] + Join(parts[1..], c)
  }

  lemma LastAt(a: string, c: char, b: string)
    requires c !in b
    ensures LastIndexOf(a + [c] + b, c) == Some(|a|)
  {
    var s := a + [c] + b;
    assert s[|a|] == c;
    assert s[|a| + 1..] == b;
    assert forall j :: |a| < j < |s| ==> s[j] in s[|a| + 1..];
  }

  /** Splitting what was joined gives the parts back. */
  lemma {:induction false} SplitJoin(parts: seq<string>, c: char)
    requires parts != [] && forall i :: 0 <= i < |parts| ==> c !in parts[i]
    ensures Split(Join(parts, c), c) == parts
  {
    if |parts| == 1 {
      NowhereIn(parts[0], c);
    } else {
      var rest := Join(parts[1..], c);
      FirstAt(parts[0], c, rest);
      SplitJoin(parts[1..], c);
      var s := parts[0] + [c] + rest;
      assert s[..|parts[0]|] == parts[0] && s[|parts[0]| + 1..] == rest;
    }
  }

  // ---------- The query ----------

  predicate Truthy(v: string) {
    Lower(v) == "1" || Lower(v) == "true" || Lower(v) == "yes"
  }

  function NonEmpty(v: string): Option<string> { if v == [] then None else Some(v) }

  function TransportOf(v: string): Transport {
    if Lower(v) == "uot" || Lower(v) == "tcp" || Lower(v) == "http" then Uot else Udp
  }

  /** What one decoded pair does to a link: it sets the field its key names, if any. */
  function SetField(l: Link, k: string, v: string): Link {
    Link(l.key, l.host, l.port,
         if k == "type" then TransportOf(v) else l.transport,
         if k == "tls" then Truthy(v) else l.tls,
         if k == "sni" then NonEmpty(v) else l.sni,
         if k == "insecure" then Truthy(v) else l.insecure,
         if k == "path" then NonEmpty(v) else l.path,
         if k == "tun" then Truthy(v) else l.tun,
         if k == "dns" then NonEmpty(v) else l.dns,
         if k == "owndns" then Truthy(v) else l.owndns,
         if k == "name" then NonEmpty(v) else l.name)
  }

  function ReadPair(t: Text, l: Link, pair: string): Result<Link> {
    match Decode(t, After(pair, '='))
    case Err(e) => Err(e)
    case Ok(v) => Ok(SetField(l, Before(pair, '='), v))
  }

  /** The pairs in order; empty ones are passed over, and the first that does not decode fails the link. */
  function ReadQuery(t: Text, l: Link, pairs: seq<string>): Result<Link> {
    if pairs == [] then Ok(l)
    else
      var last := pairs[|pairs| - 1];
      match ReadQuery(t, l, pairs[..|pairs| - 1])
      case Err(e) => Err(e)
      case Ok(m) => if last == [] then Ok(m) else ReadPair(t, m, last)
  }

  lemma ReadsNext(t: Text, l: Link, front: seq<string>, pair: string)
    requires ReadQuery(t, l, front).Ok?
    ensures var m := ReadQuery(t, l, front).value;
            ReadQuery(t, l, front + [pair]) == if pair == [] then Ok(m) else ReadPair(t, m, pair)
  {
    assert (front + [pair])[..|front|] == front;
  }

  method ParseQuery(t: Text, l: Link, query: string) returns (r: Result<Link>)
    ensures r == ReadQuery(t, l, Split(query, '&'))
  {
    var pairs := Split(query, '&');
    var link := l;
    assert pairs[..0] == [];
    for i := 0 to |pairs|
      invariant ReadQuery(t, l, pairs[..i]) == Ok(link)
    {
      var pair := pairs[i];
      assert pairs[..i + 1] == pairs[..i] + [pair];
      ReadsNext(t, l, pairs[..i], pair);
      if pair != [] {
        var next := ReadPair(t, link, pair);
        if next.Err? {
          ErrorStands(t, l, pairs, i + 1);
          return next;
        }
        link := next.value;
      }
    }
    assert pairs[..|pairs|] == pairs;
    r := Ok(link);
  }

  lemma {:induction false} ErrorStands(t: Text, l: Link, pairs: seq<string>, n: nat)
    requires n <= |pairs| && ReadQuery(t, l, pairs[..n]).Err?
    ensures ReadQuery(t, l, pairs) == ReadQuery(t, l, pairs[..n])
    decreases |pairs| - n
  {
    if n == |pairs| {
      assert pairs[..n] == pairs;
    } else {
      assert pairs[..n + 1][..n] == pairs[..n];
      ErrorStands(t, l, pairs, n + 1);
    }
  }

  // ---------- Parsing ----------

  function TrimSlashes(s: string): string {
    if s != [] && s[|s| - 1] == '/' then TrimSlashes(s[..|s| - 1]) else s
  }

  datatype HostPort = HostPort(host: string, port: string)

  /** An address in brackets ends at the first closing one; otherwise the last colon divides. */
  function SplitHostPort(s: string): Result<HostPort> {
    if s != [] && s[0] == '[' then
      var v6 := s[1..];
      var i := IndexOf(v6, ']');
      if i == |v6| then Err(Unterminated)
      else if i + 1 < |v6| && v6[i + 1] == ':' then Ok(HostPort(v6[..i], v6[i + 2..]))
      else Err(NoPort)
    else
      match LastIndexOf(s, ':')
      case None => Err(NoPort)
      case Some(i) => Ok(HostPort(s[..i], s[i + 1..]))
  }

  /** TLS and HTTP upgrade only exist on the TCP carrier. */
  function Settled(l: Link): Link {
    if l.tls || l.path.Some? then l.(transport := Uot) else l
  }

  function Plain(key: string, host: string, port: nat): Link {
    Link(key, host, port, Udp, false, None, false, None, false, None, false, None)
  }

  /** The link named by an authority, before its query is read. */
  function ParseAuthority(t: Text, authority: string): Result<Link> {
    match LastIndexOf(authority, '@')
    case None => Err(NoKey)
    case Some(i) =>
      match Decode(t, authority[..i])
      case Err(e) => Err(e)
      case Ok(key) =>
        if key == [] then Err(EmptyKey) else ParseServer(key, authority[i + 1..])
  }

  function ParseServer(key: string, server: string): Result<Link> {
    match SplitHostPort(server)
    case Err(e) => Err(e)
    case Ok(hp) =>
      if hp.host == [] then Err(NoHost)
      else
        match ParsePort(hp.port)
        case Err(e) => Err(e)
        case Ok(port) => Ok(Plain(key, hp.host, port))
  }

  function WithQuery(t: Text, authority: Result<Link>, pairs: seq<string>): Result<Link> {
    match authority
    case Err(e) => Err(e)
    case Ok(l) =>
      match ReadQuery(t, l, pairs)
      case Err(e) => Err(e)
      case Ok(m) => Ok(Settled(m))
  }

  const SCHEME := "ostp://"

  datatype Pieces = Pieces(authority: string, pairs: seq<string>)

  /** The text without its scheme and fragment, divided at the first question mark. */
  function Cut(t: Text, input: string): Result<Pieces> {
    var s := t.trim(input);
    if |s| < 7 || Lower(s[..7]) != SCHEME then Err(NotALink)
    else
      var rest := Before(s[7..], '#');
      Ok(Pieces(TrimSlashes(Before(rest, '?')), Split(After(rest, '?'), '&')))
  }

  function Parse(t: Text, input: string): Result<Link> {
    match Cut(t, input)
    case Err(e) => Err(e)
    case Ok(p) => WithQuery(t, ParseAuthority(t, p.authority), p.pairs)
  }

  /** The parser, with its loop over the query. */
  method ParseLink(t: Text, input: string) returns (r: Result<Link>)
    ensures r == Parse(t, input)
  {
    var s := t.trim(input);
    if |s| < 7 || Lower(s[..7]) != SCHEME {
      return Err(NotALink);
    }
    var rest := Before(s[7..], '#');
    var l := ParseAuthority(t, TrimSlashes(Before(rest, '?')));
    if l.Err? {
      return l;
    }
    r := ParseQuery(t, l.value, After(rest, '?'));
    if r.Ok? {
      r := Ok(Settled(r.value));
    }
  }

  // ---------- Printing ----------

  function Server(l: Link): string {
    (if ':' in l.host then "[" + l.host + "]" else l.host) + ":" + Decimal(l.port)
  }

  function Flag(on: bool, text: string): seq<string> { if on then [text] else [] }

  function Item(name: string, v: Option<string>): seq<string> {
    if v.Some? then [name + "=" + Encode(v.value)] else []
  }

  function TransportName(t: Transport): string { if t == Udp then "udp" else "uot" }

  function Query(l: Link): seq<string> {
    ["type=" + TransportName(l.transport)] + Flag(l.tls, "tls=1") + Item("sni", l.sni) + Flag(l.insecure, "insecure=1")
    + Item("path", l.path) + Flag(l.tun, "tun=true") + Item("dns", l.dns) + Flag(l.owndns, "owndns=true")
    + Item("name", l.name)
  }

  function Print(l: Link): string {
    SCHEME + (Authority(l) + "?" + Join(Query(l), '&'))
  }

  function Authority(l: Link): string { Encode(l.key) + "@" + Server(l) }

  /** The printer, appending to one vector. */
  method ToUri(l: Link) returns (s: string)
    ensures s == Print(l)
  {
    var q := ["type=" + TransportName(l.transport)];
    q := q + Flag(l.tls, "tls=1");
    q := q + Item("sni", l.sni);
    q := q + Flag(l.insecure, "insecure=1");
    q := q + Item("path", l.path);
    q := q + Flag(l.tun, "tun=true");
    q := q + Item("dns", l.dns);
    q := q + Flag(l.owndns, "owndns=true");
    q := q + Item("name", l.name);
    s := SCHEME + (Encode(l.key) + "@" + Server(l) + "?" + Join(q, '&'));
  }
}
