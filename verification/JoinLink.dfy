/** The join link: printing a grid's address as a `distribai://join` URI and reading it
    back. Strings are sequences of Unicode scalar values. */
module JoinLink {
  import opened Options
  import opened PercentCoding

  const DEFAULT_GRID_PORT := 50061
  const DEFAULT_GRPC_PORT := 50051
  const SCHEME := "distribai://"
  const PREFIX := "distribai://join?"

  datatype Link = Link(
    host: string,
    port: int,
    tls: bool,
    provider: string,
    engine: string,
    publicUrl: Option<string>,
    adminUrl: Option<string>,
    invite: Option<string>,
    name: Option<string>)

  /** `Elsewhere`: not a `distribai` URI, so one of the other readers takes it. */
  datatype Parsed = Ok(link: Link) | EmptyText | Elsewhere | BadNetloc | NoHost | BadPort | UnknownEngine

  function DefaultPort(engine: string): int {
    if engine == "legacy" then DEFAULT_GRPC_PORT else DEFAULT_GRID_PORT
  }

  // ---- text ------------------------------------------------------------------------------

  /** What `str.strip` removes. */
  predicate Space(c: char) {
    var n := c as int;
    || 0x09 <= n <= 0x0D || 0x1C <= n <= 0x20 || n == 0x85 || n == 0xA0 || n == 0x1680
    || 0x2000 <= n <= 0x200A || n == 0x2028 || n == 0x2029 || n == 0x202F || n == 0x205F || n == 0x3000
  }

  predicate QuoteMark(c: char) {
    c == '\'' || c == '\"'
  }

  function TrimLeft(s: string, drop: char -> bool): (t: string)
    ensures t != [] ==> !drop(t[0])
  {
    if s != [] && drop(s[0]) then TrimLeft(s[1..], drop) else s
  }

  function TrimRight(s: string, drop: char -> bool): (t: string)
    ensures t != [] ==> !drop(t[|t| - 1]) && s != [] && t[0] == s[0]
  {
    if s != [] && drop(s[|s| - 1]) then TrimRight(s[..|s| - 1], drop) else s
  }

  function Trim(s: string, drop: char -> bool): (t: string)
    ensures t != [] ==> !drop(t[0]) && !drop(t[|t| - 1])
  {
    TrimRight(TrimLeft(s, drop), drop)
  }

  function Strip(s: string): (t: string)
    ensures t != [] ==> !Space(t[0]) && !Space(t[|t| - 1])
  {
    Trim(s, Space)
  }

  lemma {:induction false} TrimKeeps(s: string, drop: char -> bool)
    requires s == [] || (!drop(s[0]) && !drop(s[|s| - 1]))
    ensures Trim(s, drop) == s
  {
  }

  /** The text before the first `c`; all of it when there is none. */
  function Before(s: string, c: char): string {
    if s == [] || s[0] == c then [] else [s[0]] + Before(s[1..], c)
  }

  /** The text after the first `c`; empty when there is none. */
  function After(s: string, c: char): string {
    if s == [] then [] else if s[0] == c then s[1..] else After(s[1..], c)
  }

  lemma {:induction false} CutAt(a: string, c: char, b: string)
    requires c !in a
    ensures Before(a + [c] + b, c) == a && After(a + [c] + b, c) == b
  {
    var s := a + [c] + b;
    if a == [] {
      assert s[0] == c && s[1..] == b;
    } else {
      assert s[0] == a[0] && a[0] != c;
      assert s[1..] == a[1..] + [c] + b;
      CutAt(a[1..], c, b);
    }
  }

  lemma {:induction false} NoCut(s: string, c: char)
    requires c !in s
    ensures Before(s, c) == s && After(s, c) == []
  {
    if s != [] {
      assert s[0] != c;
      NoCut(s[1..], c);
    }
  }

  function Replace(s: string, from: char, to: char): (t: string)
    ensures |t| == |s|
    ensures forall i | 0 <= i < |s| :: t[i] == if s[i] == from then to else s[i]
  {
    seq(|s|, i requires 0 <= i < |s| => if s[i] == from then to else s[i])
  }

  /** ASCII lower case; no other letter lower-cases to a letter of an engine name. */
  function Lower(s: string): (t: string)
    ensures |t| == |s|
  {
    seq(|s|, i requires 0 <= i < |s| =>
      if 'A' <= s[i] <= 'Z' then (s[i] as int + 32) as char else s[i])
  }

  // ---- numbers ------------------------------------------------------------------------------

  function Digits(n: nat): (s: string)
    ensures s != [] && forall i | 0 <= i < |s| :: '0' <= s[i] <= '9'
  {
    if n < 10 then [(n + '0' as int) as char] else Digits(n / 10) + [(n % 10 + '0' as int) as char]
  }

  function IntToString(n: int): string {
    if n < 0 then "-" + Digits(-n) else Digits(n)
  }

  function ParseDigits(s: string): Option<nat> {
    if s == [] || !('0' <= s[|s| - 1] <= '9') then None
    else
      var d := s[|s| - 1] as int - '0' as int;
      if |s| == 1 then Some(d)
      else match ParseDigits(s[..|s| - 1])
        case None => None
        case Some(n) => Some(n * 10 + d)
  }

  /** `int(text)`: surrounding space, a sign and decimal digits. */
  function ParseInt(text: string): Option<int> {
    var s := Strip(text);
    if s != [] && (s[0] == '-' || s[0] == '+') then Signed(s[0] == '-', ParseDigits(s[1..]))
    else Signed(false, ParseDigits(s))
  }

  function Signed(negative: bool, o: Option<nat>): Option<int> {
    match o
    case None => None
    case Some(n) =>
      Some(if negative then -(n as int) else n as int)
  }

  lemma {:induction false} ParsePrintedDigits(n: nat)
    ensures ParseDigits(Digits(n)) == Some(n)
  {
    if n >= 10 {
      ParsePrintedDigits(n / 10);
      var s := Digits(n);
      assert s[..|s| - 1] == Digits(n / 10);
      assert s[|s| - 1] == (n % 10 + '0' as int) as char;
    }
  }

  lemma {:induction false} NumeralStrips(s: string)
    requires s != [] && forall i | 0 <= i < |s| :: s[i] == '-' || '0' <= s[i] <= '9'
    ensures Strip(s) == s
  {
    TrimKeeps(s, Space);
  }

  lemma ParsePrintedInt(n: int)
    ensures ParseInt(IntToString(n)) == Some(n)
  {
    hide Strip, ParseDigits;
    var s := IntToString(n);
    NumeralStrips(s);
    ParsePrintedDigits(if n < 0 then -n else n);
    if n < 0 { assert s[1..] == Digits(-n); }
  }

  // ---- printing ----------------------------------------------------------------------------

  type Pairs = seq<(string, string)>

  function Optional(key: string, o: Option<string>): Pairs {
    if o.Some? && o.value != [] then [(key, o.value)] else []
  }

  function Fixed(l: Link): Pairs {
    [("v", "1"), ("engine", l.engine), ("provider", l.provider), ("host", l.host),
     ("port", IntToString(l.port)), ("tls", if l.tls then "1" else "0")]
  }

  function Params(l: Link): Pairs {
    Fixed(l)
    + Optional("public", l.publicUrl) + Optional("admin", l.adminUrl)
    + Optional("invite", l.invite) + Optional("name", l.name)
  }

  function Field(p: (string, string)): string {
    Quote(p.0) + "=" + Quote(p.1)
  }

  /** Fields joined by `&`. */
  function Query(ps: Pairs): string {
    if ps == [] then "" else if |ps| == 1 then Field(ps[0]) else Field(ps[0]) + "&" + Query(ps[1..])
  }

  function ToUri(l: Link): string {
    PREFIX + Query(Params(l))
  }

  // ---- reading -----------------------------------------------------------------------------

  function DropBreaks(s: string): string {
    if s == [] then []
    else (if s[0] in "\t\r\n" then [] else [s[0]]) + DropBreaks(s[1..])
  }

  /** The query of a URI: without line breaks and tabs, before any fragment, after the
      first question mark. */
  function QueryOf(raw: string): string {
    After(Before(DropBreaks(raw), '#'), '?')
  }

  /** What stands between `//` and the next `/`, `?` or `#`. */
  function Netloc(raw: string): string {
    var rest := DropBreaks(raw);
    Before(Before(Before(if |rest| >= |SCHEME| then rest[|SCHEME|..] else [], '/'), '?'), '#')
  }

  function Plain1(s: string): string {
    Unquote(Replace(s, '+', ' '))
  }

  /** One field: split at its first `=`, both sides decoded. */
  function ReadField(field: string): (string, string) {
    (Plain1(Before(field, '=')), Plain1(After(field, '=')))
  }

  /** `parse_qs` keeping blank values: the fields in order, empty ones skipped. */
  function ReadQuery(query: string): Pairs
    decreases |query|
  {
    if query == [] then []
    else
      var field := Before(query, '&');
      AfterShorter(query, '&');
      (if field == [] then [] else [ReadField(field)]) + ReadQuery(After(query, '&'))
  }

  lemma {:induction false} AfterShorter(s: string, c: char)
    requires s != []
    ensures |After(s, c)| < |s|
  {
    if s[0] != c && s[1..] != [] { AfterShorter(s[1..], c); }
  }

  /** The first value under `key`. */
  function One(ps: Pairs, key: string): Option<string> {
    if ps == [] then None else if ps[0].0 == key then Some(ps[0].1) else One(ps[1..], key)
  }

  function Or(o: Option<string>, default: string): string {
    if o.Some? && o.value != [] then o.value else default
  }

  predicate KnownEngine(engine: string) {
    engine == "native" || engine == "legacy"
  }

  /** The link that the fields of a query describe. */
  function Interpret(ps: Pairs): Parsed {
    var host := Strip(Or(One(ps, "host"), ""));
    var provider := Or(One(ps, "provider"), "local");
    var tls := One(ps, "tls");
    var engine := Lower(Strip(Or(One(ps, "engine"), "native")));
    var portText := Or(One(ps, "port"), "");
    if host == [] then NoHost
    else if !KnownEngine(engine) then UnknownEngine
    else
      var port := if portText == [] then Some(DefaultPort(engine)) else ParseInt(portText);
      if port.None? then BadPort
      else Ok(Link(
        host, port.value,
        if tls.Some? then tls.value == "1" else provider == "cloudflare" || provider == "ngrok",
        provider, engine,
        One(ps, "public"), One(ps, "admin"), One(ps, "invite"), One(ps, "name")))
  }

  function Parse(text: string): Parsed {
    var raw := Trim(Strip(text), QuoteMark);
    if raw == [] then EmptyText
    else if !(SCHEME <= raw) then Elsewhere
    else if ('[' in Netloc(raw)) != (']' in Netloc(raw)) then BadNetloc
    else Interpret(ReadQuery(QueryOf(raw)))
  }

  // ---- reading what was printed ------------------------------------------------------------

  /** The characters of a printed query. */
  predicate QueryChar(c: char) {
    Plain(c) || c == '&' || c == '='
  }

  predicate UriChar(c: char) {
    QueryChar(c) || c == ':' || c == '?'
  }

  lemma {:induction false} FieldChars(p: (string, string))
    ensures Field(p) != [] && '&' !in Field(p)
    ensures forall i | 0 <= i < |Field(p)| :: QueryChar(Field(p)[i])
  {
    hide Quote;
    QuotedPlain(p.0);
    QuotedPlain(p.1);
  }

  lemma {:induction false} QueryChars(ps: Pairs)
    ensures forall i | 0 <= i < |Query(ps)| :: QueryChar(Query(ps)[i])
  {
    hide Field;
    if ps != [] {
      FieldChars(ps[0]);
      QueryChars(ps[1..]);
    }
  }

  lemma {:induction false} PlainRead(s: string)
    ensures Plain1(Quote(s)) == s
  {
    QuotedPlain(s);
    assert Replace(Quote(s), '+', ' ') == Quote(s);
    UnquoteQuote(s);
  }

  lemma {:induction false} ReadPrintedField(p: (string, string))
    ensures ReadField(Field(p)) == p
  {
    hide Quote, Plain1;
    QuotedPlain(p.0);
    assert Field(p) == Quote(p.0) + ['='] + Quote(p.1);
    CutAt(Quote(p.0), '=', Quote(p.1));
    PlainRead(p.0);
    PlainRead(p.1);
  }

  lemma {:induction false} ReadPrintedQuery(ps: Pairs)
    ensures ReadQuery(Query(ps)) == ps
  {
    hide Field, ReadField;
    if |ps| == 1 {
      FieldChars(ps[0]);
      NoCut(Field(ps[0]), '&');
      ReadPrintedField(ps[0]);
      assert ReadQuery(After(Query(ps), '&')) == [];
    } else if ps != [] {
      FieldChars(ps[0]);
      assert Query(ps) == Field(ps[0]) + ['&'] + Query(ps[1..]);
      CutAt(Field(ps[0]), '&', Query(ps[1..]));
      ReadPrintedField(ps[0]);
      ReadPrintedQuery(ps[1..]);
    }
  }

  lemma {:induction false} NoBreaks(s: string)
    requires forall i | 0 <= i < |s| :: UriChar(s[i])
    ensures DropBreaks(s) == s
  {
    hide UriChar;
    if s != [] {
      NoBreak(s[0]);
      NoBreaks(s[1..]);
    }
  }

  lemma {:induction false} NoBreak(c: char)
    requires UriChar(c)
    ensures c !in "\t\r\n"
  {
  }

  lemma {:induction false} UriTrims(uri: string)
    requires uri != [] && forall i | 0 <= i < |uri| :: UriChar(uri[i])
    ensures Trim(Strip(uri), QuoteMark) == uri
  {
    assert UriChar(uri[0]) && UriChar(uri[|uri| - 1]);
    TrimKeeps(uri, Space);
    TrimKeeps(uri, QuoteMark);
  }

  lemma {:induction false} UriQuery(query: string)
    requires forall i | 0 <= i < |query| :: QueryChar(query[i])
    ensures QueryOf(PREFIX + query) == query
    ensures forall i | 0 <= i < |PREFIX + query| :: UriChar((PREFIX + query)[i])
  {
    hide QueryChar, UriChar, DropBreaks, Before, After;
    var uri := PREFIX + query;
    CharsAreUri(query);
    forall i | 0 <= i < |uri| ensures UriChar(uri[i]) {
      if i < |PREFIX| { PrefixChars(i); } else { assert uri[i] == query[i - |PREFIX|]; }
    }
    NoBreaks(uri);
    NoHash(uri);
    NoCut(uri, '#');
    assert uri == PREFIX[..16] + ['?'] + query;
    assert '?' !in PREFIX[..16];
    CutAt(PREFIX[..16], '?', query);
  }

  lemma PrefixChars(i: nat)
    requires i < |PREFIX|
    ensures UriChar(PREFIX[i])
  {
  }

  lemma {:induction false} NoHash(uri: string)
    requires forall i | 0 <= i < |uri| :: UriChar(uri[i])
    ensures '#' !in uri && '[' !in uri && ']' !in uri
  {
  }

  /** A printed URI goes through trimming and splitting untouched. */
  lemma {:induction false} ParsePrefixed(query: string)
    requires forall i | 0 <= i < |query| :: QueryChar(query[i])
    ensures Parse(PREFIX + query) == Interpret(ReadQuery(query))
  {
    hide Interpret, ReadQuery, Trim, Strip, QueryOf, Netloc, UriChar, QueryChar;
    var uri := PREFIX + query;
    UriQuery(query);
    UriTrims(uri);
    UriNetloc(uri);
    assert uri[..|SCHEME|] == SCHEME;
  }

  lemma {:induction false} UriNetloc(uri: string)
    requires |uri| >= |SCHEME| && forall i | 0 <= i < |uri| :: UriChar(uri[i])
    ensures '[' !in Netloc(uri) && ']' !in Netloc(uri)
  {
    hide UriChar, Netloc;
    NoBreaks(uri);
    NoHash(uri);
    NoBrackets(uri);
  }

  lemma {:induction false} NoBrackets(raw: string)
    requires '[' !in DropBreaks(raw) && ']' !in DropBreaks(raw)
    ensures '[' !in Netloc(raw) && ']' !in Netloc(raw)
  {
    var s := DropBreaks(raw);
    var rest := if |s| >= |SCHEME| then s[|SCHEME|..] else [];
    BeforeWithin(rest, '/');
    BeforeWithin(Before(rest, '/'), '?');
    BeforeWithin(Before(Before(rest, '/'), '?'), '#');
    assert Netloc(raw) == rest[..|Netloc(raw)|];
    assert forall c | c in rest :: c in s;
    assert forall c | c in rest[..|Netloc(raw)|] :: c in rest;
  }

  lemma {:induction false} BeforeWithin(s: string, c: char)
    ensures |Before(s, c)| <= |s| && Before(s, c) == s[..|Before(s, c)|]
  {
    if s != [] && s[0] != c { BeforeWithin(s[1..], c); }
  }

  lemma {:induction false} ParsePrinted(ps: Pairs)
    ensures Parse(PREFIX + Query(ps)) == Interpret(ps)
  {
    hide Interpret, Field, Parse;
    QueryChars(ps);
    ReadPrintedQuery(ps);
    ParsePrefixed(Query(ps));
  }

  // ---- lookups ------------------------------------------------------------------------------

  lemma {:induction false} OneAppend(a: Pairs, b: Pairs, key: string)
    ensures One(a + b, key) == if One(a, key).Some? then One(a, key) else One(b, key)
  {
    if a == [] {
      assert a + b == b;
    } else {
      assert (a + b)[1..] == a[1..] + b;
      OneAppend(a[1..], b, key);
    }
  }

  lemma {:induction false} OneCons(p: (string, string), rest: Pairs, key: string)
    ensures One([p] + rest, key) == if p.0 == key then Some(p.1) else One(rest, key)
  {
    assert ([p] + rest)[1..] == rest;
  }

  lemma {:induction false} FixedLookup(l: Link, key: string)
    ensures One(Fixed(l), key) ==
      if key == "v" then Some("1")
      else if key == "engine" then Some(l.engine)
      else if key == "provider" then Some(l.provider)
      else if key == "host" then Some(l.host)
      else if key == "port" then Some(IntToString(l.port))
      else if key == "tls" then Some(if l.tls then "1" else "0")
      else None
  {
    hide IntToString;
    var f := Fixed(l);
    assert f[6..] == [];
    forall k | 0 <= k < 6 ensures One(f[k..], key) == if f[k].0 == key then Some(f[k].1) else One(f[k + 1..], key) {
      assert f[k..] == [f[k]] + f[k + 1..];
      OneCons(f[k], f[k + 1..], key);
    }
    assert f[0..] == f;
    assert One(f[5..], key) == if f[5].0 == key then Some(f[5].1) else None;
    assert One(f[4..], key) == if f[4].0 == key then Some(f[4].1) else One(f[5..], key);
    assert One(f[3..], key) == if f[3].0 == key then Some(f[3].1) else One(f[4..], key);
    assert One(f[2..], key) == if f[2].0 == key then Some(f[2].1) else One(f[3..], key);
    assert One(f[1..], key) == if f[1].0 == key then Some(f[1].1) else One(f[2..], key);
    assert One(f[0..], key) == if f[0].0 == key then Some(f[0].1) else One(f[1..], key);
  }

  /** What is left of an optional field once printed: a blank one is not. */
  function Shown(o: Option<string>): Option<string> {
    if o.Some? && o.value == [] then None else o
  }

  lemma {:induction false} OptionalLookup(k: string, o: Option<string>, key: string)
    ensures One(Optional(k, o), key) == if key == k then Shown(o) else None
  {
    if o.Some? && o.value != [] {
      assert Optional(k, o)[1..] == [];
    }
  }

  lemma {:induction false} ParamsLookup(l: Link, key: string)
    ensures One(Params(l), key) ==
      if One(Fixed(l), key).Some? then One(Fixed(l), key)
      else if key == "public" then Shown(l.publicUrl)
      else if key == "admin" then Shown(l.adminUrl)
      else if key == "invite" then Shown(l.invite)
      else if key == "name" then Shown(l.name)
      else None
  {
    hide Fixed, Optional, One;
    var a, b := Optional("public", l.publicUrl), Optional("admin", l.adminUrl);
    var c, d := Optional("invite", l.invite), Optional("name", l.name);
    OneAppend(Fixed(l), a, key);
    OneAppend(Fixed(l) + a, b, key);
    OneAppend(Fixed(l) + a + b, c, key);
    OneAppend(Fixed(l) + a + b + c, d, key);
    OptionalLookup("public", l.publicUrl, key);
    OptionalLookup("admin", l.adminUrl, key);
    OptionalLookup("invite", l.invite, key);
    OptionalLookup("name", l.name, key);
  }

  /** What reading the fields of a printed link gives. */
  function Reread(l: Link): Parsed {
    var host, provider := Strip(l.host), if l.provider != [] then l.provider else "local";
    var engine := Lower(Strip(if l.engine != [] then l.engine else "native"));
    if host == [] then NoHost
    else if !KnownEngine(engine) then UnknownEngine
    else Ok(Link(host, l.port, l.tls, provider, engine,
                 Shown(l.publicUrl), Shown(l.adminUrl), Shown(l.invite), Shown(l.name)))
  }

  lemma {:induction false} InterpretParams(l: Link)
    ensures Interpret(Params(l)) == Reread(l)
  {
    hide Fixed, One, Params, Strip, Lower, ParseInt, IntToString;
    Lookup(l, "host");
    Lookup(l, "provider");
    Lookup(l, "engine");
    Lookup(l, "port");
    Lookup(l, "tls");
    Lookup(l, "public");
    Lookup(l, "admin");
    Lookup(l, "invite");
    Lookup(l, "name");
    ParsePrintedInt(l.port);
    PrintedIntNonEmpty(l.port);
  }

  lemma PrintedIntNonEmpty(n: int)
    ensures IntToString(n) != []
  {
  }

  lemma {:induction false} Lookup(l: Link, key: string)
    ensures One(Params(l), key) ==
      if key == "v" then Some("1")
      else if key == "engine" then Some(l.engine)
      else if key == "provider" then Some(l.provider)
      else if key == "host" then Some(l.host)
      else if key == "port" then Some(IntToString(l.port))
      else if key == "tls" then Some(if l.tls then "1" else "0")
      else if key == "public" then Shown(l.publicUrl)
      else if key == "admin" then Shown(l.adminUrl)
      else if key == "invite" then Shown(l.invite)
      else if key == "name" then Shown(l.name)
      else None
  {
    hide Fixed, One, Params, IntToString, Shown;
    FixedLookup(l, key);
    ParamsLookup(l, key);
  }

  // ---- the round trip ---------------------------------------------------------------------------

  predicate Trimmed(s: string) {
    s != [] && !Space(s[0]) && !Space(s[|s| - 1])
  }

  predicate NotBlank(o: Option<string>) {
    o.Some? ==> o.value != []
  }

  /** The links that survive: a trimmed host, a known engine, a provider, no blank
      optional field; any port. */
  predicate Printable(l: Link) {
    && Trimmed(l.host) && KnownEngine(l.engine) && l.provider != []
    && NotBlank(l.publicUrl) && NotBlank(l.adminUrl) && NotBlank(l.invite) && NotBlank(l.name)
  }

  lemma EngineNames()
    ensures Lower(Strip("native")) == "native" && Lower(Strip("legacy")) == "legacy"
  {
    TrimKeeps("native", Space);
    TrimKeeps("legacy", Space);
    assert Lower("native") == "native";
    assert Lower("legacy") == "legacy";
  }

  lemma {:induction false} ParseToUri(l: Link)
    ensures Parse(ToUri(l)) == Reread(l)
  {
    hide Parse, Interpret, Reread, Query;
    InterpretParams(l);
    ParsePrinted(Params(l));
  }

  /** Parsing a printed link gives the same link back exactly when the link is printable:
      for every Unicode text in its fields and every integer port. */
  lemma {:induction false} RoundTripIff(l: Link)
    ensures Parse(ToUri(l)) == Ok(l) <==> Printable(l)
  {
    hide Parse, ToUri, Strip, Lower;
    ParseToUri(l);
    EngineNames();
    StripTrims(l.host);
  }

  lemma {:induction false} StripTrims(s: string)
    ensures Strip(s) == s && s != [] <==> Trimmed(s)
    ensures Strip(s) == [] || Trimmed(Strip(s))
  {
    if Trimmed(s) { TrimKeeps(s, Space); }
  }

  function Normal(l: Link): Link {
    l.(publicUrl := Shown(l.publicUrl), adminUrl := Shown(l.adminUrl),
       invite := Shown(l.invite), name := Shown(l.name))
  }

  /** Whatever text is accepted, printing the link it gives and reading that again gives
      the same link, up to blank optional fields. */
  lemma {:induction false} Renormalises(text: string)
    ensures Parse(text).Ok? ==> Parse(ToUri(Parse(text).link)) == Ok(Normal(Parse(text).link))
  {
    if !Parse(text).Ok? { return; }
    var l := Parse(text).link;
    AcceptedShape(text);
    hide Parse, ToUri, Strip, Lower;
    ParseToUri(l);
    EngineNames();
    StripTrims(l.host);
  }

  lemma {:induction false} AcceptedShape(text: string)
    ensures Parse(text).Ok? ==> var l := Parse(text).link; Trimmed(l.host) && KnownEngine(l.engine) && l.provider != []
  {
    hide Trim, Strip, Lower, QueryOf, Netloc, ReadQuery, ParseInt;
    var ps := ReadQuery(QueryOf(Trim(Strip(text), QuoteMark)));
    StripTrims(Or(One(ps, "host"), ""));
  }

  /** A field the reader does not know, wherever it stands, changes nothing; the version
      field `v` is such a field. */
  lemma {:induction false} UnknownFieldIgnored(a: Pairs, extra: (string, string), b: Pairs)
    requires extra.0 !in KEYS
    ensures Parse(PREFIX + Query(a + [extra] + b)) == Parse(PREFIX + Query(a + b))
  {
    hide Parse, Query, One, Interpret;
    ParsePrinted(a + [extra] + b);
    ParsePrinted(a + b);
    forall key | key in KEYS ensures One(a + [extra] + b, key) == One(a + b, key) {
      OneAppend(a + [extra], b, key);
      OneAppend(a, [extra], key);
      OneAppend(a, b, key);
      OneAlone(extra, key);
    }
    SameLookups(a + [extra] + b, a + b);
  }

  /** The fields the reader looks up. */
  const KEYS := {"host", "provider", "tls", "engine", "port", "public", "admin", "invite", "name"}

  lemma {:induction false} SameLookups(ps: Pairs, qs: Pairs)
    requires forall key | key in KEYS :: One(ps, key) == One(qs, key)
    ensures Interpret(ps) == Interpret(qs)
  {
    hide One, Strip, Lower, ParseInt;
  }

  lemma {:induction false} OneAlone(p: (string, string), key: string)
    requires p.0 != key
    ensures One([p], key) == None
  {
    assert [p][1..] == [];
  }

  // ---- in so many words ------------------------------------------------------------------------

  lemma {:induction false} DigitsExact(n: nat, d: nat)
    requires d < 10
    ensures Digits(d) == ["0123456789"[d]]
    ensures n > 0 ==> Digits(10 * n + d) == Digits(n) + ["0123456789"[d]]
    ensures IntToString(n) == Digits(n) && (n > 0 ==> IntToString(-(n as int)) == "-" + Digits(n))
  {
    assert (10 * n + d) / 10 == n && (10 * n + d) % 10 == d;
  }

  lemma {:induction false} KeysPlain(key: string)
    requires key in {"v", "engine", "provider", "host", "port", "tls", "public", "admin", "invite", "name", "1", "0"}
    ensures Quote(key) == key
  {
    QuoteSafe(key);
  }

  lemma {:induction false} NumeralPlain(n: int)
    ensures Quote(IntToString(n)) == IntToString(n)
  {
    var s := IntToString(n);
    forall i | 0 <= i < |s| ensures Safe(s[i]) { if n < 0 && i > 0 { assert s[i] == Digits(-n)[i - 1]; } }
    QuoteSafe(s);
  }

  /** One more field of a query, with the separator before it. */
  function Part(key: string, value: string): string {
    "&" + (key + "=" + Quote(value))
  }

  /** An optional field as printed; nothing when blank. */
  function Suffix(key: string, o: Option<string>): string {
    if o.Some? && o.value != [] then Part(key, o.value) else ""
  }

  lemma {:induction false} FieldMore(ps: Pairs, p: (string, string))
    requires ps != [] && Quote(p.0) == p.0
    ensures Query(ps + [p]) == Query(ps) + Part(p.0, p.1)
    decreases |ps|
  {
    assert Field(p) == p.0 + "=" + Quote(p.1);
    hide Field, Quote;
    if |ps| == 1 {
      assert (ps + [p])[1..] == [p];
      assert Query(ps + [p]) == Field(ps[0]) + "&" + Field(p);
    } else {
      assert (ps + [p])[1..] == ps[1..] + [p];
      FieldMore(ps[1..], p);
      Reassociate(Field(ps[0]) + "&", Query(ps[1..]), Part(p.0, p.1));
    }
  }

  lemma Reassociate(a: string, b: string, c: string)
    ensures a + (b + c) == a + b + c
  {
  }

  lemma {:induction false} OptionalPrinted(ps: Pairs, key: string, o: Option<string>)
    requires ps != [] && Quote(key) == key
    ensures Query(ps + Optional(key, o)) == Query(ps) + Suffix(key, o)
  {
    hide Quote, Query, Part;
    if o.Some? && o.value != [] {
      FieldMore(ps, (key, o.value));
    } else {
      assert ps + [] == ps;
    }
  }

  lemma {:induction false} SixPrinted(a: (string, string), b: (string, string), c: (string, string),
      d: (string, string), e: (string, string), f: (string, string))
    requires Quote(b.0) == b.0 && Quote(c.0) == c.0 && Quote(d.0) == d.0 && Quote(e.0) == e.0 && Quote(f.0) == f.0
    ensures Query([a, b, c, d, e, f])
      == Field(a) + Part(b.0, b.1) + Part(c.0, c.1) + Part(d.0, d.1) + Part(e.0, e.1) + Part(f.0, f.1)
  {
    assert Query([a]) == Field(a);
    hide Quote, Query, Part, Field;
    FieldMore([a], b);
    FieldMore([a, b], c);
    FieldMore([a, b, c], d);
    FieldMore([a, b, c, d], e);
    FieldMore([a, b, c, d, e], f);
    assert [a] + [b] == [a, b] && [a, b] + [c] == [a, b, c] && [a, b, c] + [d] == [a, b, c, d];
    assert [a, b, c, d] + [e] == [a, b, c, d, e] && [a, b, c, d, e] + [f] == [a, b, c, d, e, f];
  }

  lemma {:induction false} FixedPrinted(l: Link)
    ensures Query(Fixed(l)) ==
      "v=1" + Part("engine", l.engine) + Part("provider", l.provider) + Part("host", l.host)
      + Part("port", IntToString(l.port)) + Part("tls", if l.tls then "1" else "0")
  {
    VersionField();
    hide Quote, IntToString, Query, Part, Field;
    KeysPlain("engine");
    KeysPlain("provider");
    KeysPlain("host");
    KeysPlain("port");
    KeysPlain("tls");
    SixPrinted(("v", "1"), ("engine", l.engine), ("provider", l.provider), ("host", l.host),
               ("port", IntToString(l.port)), ("tls", if l.tls then "1" else "0"));
  }

  lemma {:induction false} VersionField()
    ensures Field(("v", "1")) == "v=1"
  {
    hide Quote;
    KeysPlain("v");
    KeysPlain("1");
  }

  /** The printed link, in so many words. */
  lemma {:induction false} UriExact(l: Link)
    ensures ToUri(l) == "distribai://join?" +
      ("v=1" + Part("engine", l.engine) + Part("provider", l.provider) + Part("host", l.host)
       + Part("port", IntToString(l.port)) + Part("tls", if l.tls then "1" else "0")
       + Suffix("public", l.publicUrl) + Suffix("admin", l.adminUrl)
       + Suffix("invite", l.invite) + Suffix("name", l.name))
  {
    hide Quote, IntToString, Query, Optional, Suffix, Part, Fixed;
    KeysPlain("public");
    KeysPlain("admin");
    KeysPlain("invite");
    KeysPlain("name");
    FixedPrinted(l);
    FixedSome(l);
    var a := Fixed(l) + Optional("public", l.publicUrl);
    var b := a + Optional("admin", l.adminUrl);
    var c := b + Optional("invite", l.invite);
    OptionalPrinted(Fixed(l), "public", l.publicUrl);
    OptionalPrinted(a, "admin", l.adminUrl);
    OptionalPrinted(b, "invite", l.invite);
    OptionalPrinted(c, "name", l.name);
  }

  lemma {:induction false} FixedSome(l: Link)
    ensures |Fixed(l)| == 6
  {
    hide IntToString;
  }

  lemma {:induction false} LookupThree(a: (string, string), b: (string, string), c: (string, string), key: string)
    ensures One([a], key) == if key == a.0 then Some(a.1) else None
    ensures One([a, b, c], key) ==
      if key == a.0 then Some(a.1) else if key == b.0 then Some(b.1) else if key == c.0 then Some(c.1) else None
  {
    assert [a][1..] == [] && [a, b, c][1..] == [b, c] && [b, c][1..] == [c] && [c][1..] == [];
    assert One([c], key) == if key == c.0 then Some(c.1) else None;
    assert One([b, c], key) == if key == b.0 then Some(b.1) else One([c], key);
  }

  /** A link with a host and nothing else is a plain local one for the native engine. One
      that names an engine and a provider has that engine's port, and is encrypted for the
      two providers that tunnel. */
  lemma {:induction false} OmittedFields(host: string, engine: string, provider: string)
    requires Trimmed(host) && provider != []
    requires engine == "native" || engine == "legacy"
    ensures Parse("distribai://join?" + Query([("host", host)]))
      == Ok(Link(host, 50061, false, "local", "native", None, None, None, None))
    ensures Parse("distribai://join?" + Query([("host", host), ("engine", engine), ("provider", provider)]))
      == Ok(Link(host, if engine == "legacy" then 50051 else 50061, provider == "cloudflare" || provider == "ngrok",
                 provider, engine, None, None, None, None))
  {
    HostOnly(host);
    HostEngineProvider(host, engine, provider);
  }

  lemma {:induction false} HostOnly(host: string)
    requires Trimmed(host)
    ensures Parse("distribai://join?" + Query([("host", host)]))
      == Ok(Link(host, 50061, false, "local", "native", None, None, None, None))
  {
    hide Query, Parse, Strip, Lower, One, ParseInt, KnownEngine, Interpret;
    var one := [("host", host)];
    ParsePrinted(one);
    StripTrims(host);
    EngineNames();
    forall key ensures One(one, key) == if key == "host" then Some(host) else None {
      LookupThree(one[0], one[0], one[0], key);
    }
    Meaning(one);
  }

  lemma {:induction false} HostEngineProvider(host: string, engine: string, provider: string)
    requires Trimmed(host) && provider != []
    requires engine == "native" || engine == "legacy"
    ensures Parse("distribai://join?" + Query([("host", host), ("engine", engine), ("provider", provider)]))
      == Ok(Link(host, if engine == "legacy" then 50051 else 50061, provider == "cloudflare" || provider == "ngrok",
                 provider, engine, None, None, None, None))
  {
    hide Query, Parse, Strip, Lower, One, ParseInt, KnownEngine, Interpret;
    var three := [("host", host), ("engine", engine), ("provider", provider)];
    ParsePrinted(three);
    StripTrims(host);
    EngineNames();
    forall key
      ensures One(three, key) ==
        if key == "host" then Some(host) else if key == "engine" then Some(engine)
        else if key == "provider" then Some(provider) else None
    {
      LookupThree(three[0], three[1], three[2], key);
    }
    Meaning(three);
  }

  /** The rules for fields that are absent or blank. */
  lemma {:induction false} Meaning(ps: Pairs)
    ensures var host, engine := Strip(Or(One(ps, "host"), "")), Lower(Strip(Or(One(ps, "engine"), "native")));
      One(ps, "port") == None && One(ps, "tls") == None && host != [] && (engine == "native" || engine == "legacy") ==>
        var provider := Or(One(ps, "provider"), "local");
        Interpret(ps) == Ok(Link(host, if engine == "legacy" then 50051 else 50061,
                                 provider == "cloudflare" || provider == "ngrok", provider, engine,
                                 One(ps, "public"), One(ps, "admin"), One(ps, "invite"), One(ps, "name")))
  {
    hide One, Strip, Lower, ParseInt;
  }

  lemma {:induction false} PlusValue(a: string, b: string)
    ensures Plain1(Quote(a) + "+" + Quote(b)) == a + " " + b
    ensures '=' !in Quote(a)
  {
    var value, text := Quote(a) + "+" + Quote(b), Quote(a) + " " + Quote(b);
    QuotedPlain(a);
    QuotedPlain(b);
    SpaceBetween(a, b);
    hide Quote, Unquote;
    assert Replace(value, '+', ' ') == text;
  }

  /** A plus sign between encoded values is read as a space. */
  lemma {:induction false} PlusIsSpace(key: string, a: string, b: string)
    ensures ReadField(Quote(key) + ['='] + (Quote(a) + "+" + Quote(b))) == (key, a + " " + b)
  {
    PlusValue(key, a);
    PlusValue(a, b);
    PlainRead(key);
    hide Quote, Plain1;
    CutAt(Quote(key), '=', Quote(a) + "+" + Quote(b));
  }

  // ---- what readers forgive and refuse -------------------------------------------------------

  lemma {:induction false} SpacesExact(c: char)
    ensures Space(c) <==> (c as int in
      {9, 10, 11, 12, 13, 28, 29, 30, 31, 32, 0x85, 0xA0, 0x1680, 0x2000, 0x2001, 0x2002, 0x2003, 0x2004, 0x2005,
       0x2006, 0x2007, 0x2008, 0x2009, 0x200A, 0x2028, 0x2029, 0x202F, 0x205F, 0x3000})
  {
  }

  lemma {:induction false} TrimAround(a: string, s: string, b: string, drop: char -> bool)
    requires forall i | 0 <= i < |a| :: drop(a[i])
    requires forall i | 0 <= i < |b| :: drop(b[i])
    requires s != [] && !drop(s[0]) && !drop(s[|s| - 1])
    ensures Trim(a + s + b, drop) == s
    decreases |a| + |b|
  {
    var t := a + s + b;
    if a != [] {
      assert t[0] == a[0] && t[1..] == a[1..] + s + b;
      TrimAround(a[1..], s, b, drop);
    } else if b != [] {
      assert t[0] == s[0] && t[|t| - 1] == b[|b| - 1];
      assert t[..|t| - 1] == a + s + b[..|b| - 1];
      assert TrimLeft(t[..|t| - 1], drop) == t[..|t| - 1];
      TrimAround(a, s, b[..|b| - 1], drop);
    } else {
      assert t == s;
    }
  }

  /** Space around a pasted link, and quotation marks within the space, change nothing. */
  lemma {:induction false} PastedText(a: string, q: string, uri: string, r: string, b: string)
    requires forall i | 0 <= i < |a| :: Space(a[i])
    requires forall i | 0 <= i < |b| :: Space(b[i])
    requires forall i | 0 <= i < |q| :: q[i] in "'\""
    requires forall i | 0 <= i < |r| :: r[i] in "'\""
    requires uri != [] && !Space(uri[0]) && !Space(uri[|uri| - 1])
    requires uri[0] !in "'\"" && uri[|uri| - 1] !in "'\""
    ensures Parse(a + q + uri + r + b) == Parse(uri)
  {
    hide Trim, Netloc, QueryOf, Interpret, ReadQuery, Space, QuoteMark;
    QuotedEnds(q, uri, r);
    NoQuote(uri[0]);
    NoQuote(uri[|uri| - 1]);
    forall i | 0 <= i < |q| ensures QuoteMark(q[i]) { NoQuote(q[i]); }
    forall i | 0 <= i < |r| ensures QuoteMark(r[i]) { NoQuote(r[i]); }
    var quoted := q + uri + r;
    assert a + q + uri + r + b == a + quoted + b;
    TrimAround(a, quoted, b, Space);
    TrimAround(q, uri, r, QuoteMark);
    EndsTrim(uri);
  }

  lemma {:induction false} NoQuote(c: char)
    ensures QuoteMark(c) <==> c in "'\""
  {
  }

  lemma {:induction false} QuotedEnds(q: string, uri: string, r: string)
    requires forall i | 0 <= i < |q| :: q[i] in "'\""
    requires forall i | 0 <= i < |r| :: r[i] in "'\""
    requires uri != [] && !Space(uri[0]) && !Space(uri[|uri| - 1])
    ensures var quoted := q + uri + r; !Space(quoted[0]) && !Space(quoted[|quoted| - 1])
  {
    var quoted := q + uri + r;
    assert quoted[0] == if q != [] then q[0] else uri[0];
    assert quoted[|quoted| - 1] == if r != [] then r[|r| - 1] else uri[|uri| - 1];
  }

  /** A port may have space around it and a sign. */
  lemma {:induction false} ForgivenPort(a: string, n: nat, b: string)
    requires forall i | 0 <= i < |a| :: Space(a[i])
    requires forall i | 0 <= i < |b| :: Space(b[i])
    ensures ParseInt(a + Digits(n) + b) == Some(n)
    ensures ParseInt(a + ("+" + Digits(n)) + b) == Some(n)
    ensures ParseInt(a + ("-" + Digits(n)) + b) == Some(-(n as int))
  {
    var s := Digits(n);
    ParsePrintedDigits(n);
    hide Digits, ParseDigits, Trim;
    TrimAround(a, s, b, Space);
    SignedPort(a, '+', s, b);
    SignedPort(a, '-', s, b);
  }

  lemma {:induction false} SignedPort(a: string, sign: char, s: string, b: string)
    requires forall i | 0 <= i < |a| :: Space(a[i])
    requires forall i | 0 <= i < |b| :: Space(b[i])
    requires (sign == '+' || sign == '-') && s != [] && !Space(s[|s| - 1])
    ensures ParseInt(a + ([sign] + s) + b) == Signed(sign == '-', ParseDigits(s))
  {
    hide ParseDigits, Trim;
    TrimAround(a, [sign] + s, b, Space);
    assert ([sign] + s)[1..] == s;
  }

  lemma {:induction false} LowerExact(s: string, i: nat)
    requires i < |s|
    ensures Lower(s)[i] == if 'A' <= s[i] <= 'Z' then (s[i] as int + 32) as char else s[i]
  {
  }

  /** A host, an engine and a port, each as it is read or refused. */
  lemma {:induction false} FieldsRead(host: string, engine: string, port: string)
    requires engine != [] && port != []
    ensures var read := Lower(Strip(engine));
      Parse("distribai://join?" + Query([("host", host), ("engine", engine), ("port", port)])) ==
        if Strip(host) == [] then NoHost
        else if read != "native" && read != "legacy" then UnknownEngine
        else match ParseInt(port)
          case None => BadPort
          case Some(n) => Ok(Link(Strip(host), n, false, "local", read, None, None, None, None))
  {
    hide Query, Parse, Strip, Lower, One, ParseInt;
    var three := [("host", host), ("engine", engine), ("port", port)];
    ParsePrinted(three);
    forall key
      ensures One(three, key) ==
        if key == "host" then Some(host) else if key == "engine" then Some(engine)
        else if key == "port" then Some(port) else None
    {
      LookupThree(three[0], three[1], three[2], key);
    }
    BlankStrips();
  }

  lemma BlankStrips()
    ensures Strip("") == ""
  {
  }

  lemma {:induction false} BreaksDropped(a: string, b: string)
    ensures DropBreaks(a + b) == DropBreaks(a) + DropBreaks(b)
  {
    if a == [] {
      assert a + b == b;
    } else {
      assert (a + b)[1..] == a[1..] + b;
      BreaksDropped(a[1..], b);
    }
  }

  /** A tab or a line break inside a query, as from a wrapped message, changes nothing. */
  lemma {:induction false} BreakIgnored(a: string, c: char, b: string)
    requires forall i | 0 <= i < |a| :: QueryChar(a[i])
    requires forall i | 0 <= i < |b| :: QueryChar(b[i])
    requires c in "\t\r\n" && b != []
    ensures Parse("distribai://join?" + (a + [c] + b)) == Parse("distribai://join?" + (a + b))
  {
    hide Parse, Interpret, ReadQuery, Netloc, Trim, Strip, UriChar, QueryChar, DropBreaks, Before, After;
    var uri, raw := PREFIX + (a + b), PREFIX + (a + [c] + b);
    ParsePrefixed(a + b);
    UriQuery(a + b);
    NoBreaks(uri);
    NoHash(uri);
    BreakDropped(PREFIX + a, c, b);
    assert uri == PREFIX + a + b && raw == PREFIX + a + [c] + b;
    assert raw[0] == uri[0] && raw[|raw| - 1] == uri[|uri| - 1];
    UriEnds(uri);
    assert raw[..|SCHEME|] == SCHEME;
    ParseWhole(raw);
    assert QueryOf(raw) == QueryOf(uri);
  }

  lemma {:induction false} BreakDropped(a: string, c: char, b: string)
    requires c in "\t\r\n"
    ensures DropBreaks(a + [c] + b) == DropBreaks(a + b)
  {
    assert a + [c] + b == a + ([c] + b);
    BreaksDropped(a, [c] + b);
    BreaksDropped([c], b);
    BreaksDropped(a, b);
  }

  lemma {:induction false} UriEnds(s: string)
    requires s != [] && forall i | 0 <= i < |s| :: UriChar(s[i])
    ensures forall i | 0 <= i < |s| :: !Space(s[i]) && !QuoteMark(s[i])
  {
  }

  lemma {:induction false} EndsTrim(raw: string)
    requires raw != [] && !Space(raw[0]) && !QuoteMark(raw[0])
    requires !Space(raw[|raw| - 1]) && !QuoteMark(raw[|raw| - 1])
    ensures Trim(Strip(raw), QuoteMark) == raw
  {
    TrimKeeps(raw, Space);
    TrimKeeps(raw, QuoteMark);
  }

  lemma {:induction false} ParseWhole(raw: string)
    requires |raw| >= |SCHEME| && raw[..|SCHEME|] == SCHEME
    requires !Space(raw[0]) && !QuoteMark(raw[0]) && !Space(raw[|raw| - 1]) && !QuoteMark(raw[|raw| - 1])
    requires '[' !in DropBreaks(raw) && ']' !in DropBreaks(raw)
    ensures Parse(raw) == Interpret(ReadQuery(QueryOf(raw)))
  {
    hide Interpret, ReadQuery, Trim, Strip, Netloc, QueryOf, DropBreaks;
    EndsTrim(raw);
    NoBrackets(raw);
  }

  /** So does a fragment. */
  lemma {:induction false} FragmentIgnored(query: string, fragment: string)
    requires forall i | 0 <= i < |query| :: QueryChar(query[i])
    requires forall i | 0 <= i < |fragment| :: QueryChar(fragment[i])
    requires fragment != []
    ensures Parse("distribai://join?" + query + "#" + fragment) == Parse("distribai://join?" + query)
  {
    hide Parse, Interpret, ReadQuery, Netloc, Trim, Strip, UriChar, QueryChar, DropBreaks, Before, After;
    var uri := PREFIX + query;
    var raw := uri + ['#'] + fragment;
    UriQuery(query);
    ParsePrefixed(query);
    CharsAreUri(fragment);
    UriEnds(uri);
    UriEnds(fragment);
    FragmentKept(uri, fragment);
    NoHash(uri);
    NoHash(fragment);
    NoBreaks(uri);
    CutAt(uri, '#', fragment);
    NoCut(uri, '#');
    assert raw[..|SCHEME|] == SCHEME && raw[0] == uri[0] && raw[|raw| - 1] == fragment[|fragment| - 1];
    ParseWhole(raw);
  }

  lemma {:induction false} FragmentKept(uri: string, fragment: string)
    requires forall i | 0 <= i < |uri| :: UriChar(uri[i])
    requires forall i | 0 <= i < |fragment| :: UriChar(fragment[i])
    ensures DropBreaks(uri + ['#'] + fragment) == uri + ['#'] + fragment
  {
    hide UriChar;
    NoBreaks(uri);
    NoBreaks(fragment);
    assert uri + ['#'] + fragment == uri + (['#'] + fragment);
    BreaksDropped(uri, ['#'] + fragment);
    BreaksDropped(['#'], fragment);
  }

  lemma {:induction false} CharsAreUri(s: string)
    requires forall i | 0 <= i < |s| :: QueryChar(s[i])
    ensures forall i | 0 <= i < |s| :: UriChar(s[i])
  {
  }
}
