/** The keys of the hub cache.  Texts are strings of bytes: each character is below 256. */
module HubKeys {
  import opened Decimal
  import opened Texts

  datatype ListParams = ListParams(limit: int, cursor: string, sort: string, family: string, channel: string,
                                   category: string)

  ghost predicate Octets(s: string) {
    forall i | 0 <= i < |s| :: (s[i] as int) < 256
  }

  ghost predicate WellFormed(p: ListParams) {
    Octets(p.cursor) && Octets(p.sort) && Octets(p.family) && Octets(p.channel) && Octets(p.category)
  }

  // ---- url.QueryEscape ----

  predicate Unreserved(c: char) {
    'a' <= c <= 'z' || 'A' <= c <= 'Z' || '0' <= c <= '9' || c in "-_.~"
  }

  function HexDigit(d: nat): char
    requires d < 16
  {
    "0123456789ABCDEF"[d]
  }

  function EscapeChar(c: char): (r: string)
    ensures r != "" && '&' !in r && '=' !in r
  {
    if Unreserved(c) then [c]
    else if c == ' ' then "+"
    else ['%', HexDigit((c as int) / 16 % 16), HexDigit((c as int) % 16)]
  }

  function Escape(s: string): (r: string)
    ensures '&' !in r && '=' !in r
  {
    if s == "" then "" else EscapeChar(s[0]) + Escape(s[1..])
  }

  lemma HexDigitsDiffer(a: nat, b: nat)
    requires a < 16 && b < 16 && HexDigit(a) == HexDigit(b)
    ensures a == b
  {
  }

  lemma HexPairsDiffer(a: nat, b: nat)
    requires a < 256 && b < 256
    requires HexDigit(a / 16 % 16) == HexDigit(b / 16 % 16) && HexDigit(a % 16) == HexDigit(b % 16)
    ensures a == b
  {
    HexDigitsDiffer(a / 16 % 16, b / 16 % 16);
    HexDigitsDiffer(a % 16, b % 16);
  }

  /** The first character tells how long a code is. */
  lemma SameLength(a: char, b: char)
    requires EscapeChar(a)[0] == EscapeChar(b)[0]
    ensures |EscapeChar(a)| == |EscapeChar(b)|
  {
  }

  lemma SameCode(a: char, b: char)
    requires (a as int) < 256 && (b as int) < 256 && EscapeChar(a) == EscapeChar(b)
    ensures a == b
  {
    if EscapeChar(a)[0] == '%' {
      assert EscapeChar(a)[1] == EscapeChar(b)[1] && EscapeChar(a)[2] == EscapeChar(b)[2];
      HexPairsDiffer(a as int, b as int);
    }
  }

  lemma EscapeCharInjective(a: char, b: char, x: string, y: string)
    requires (a as int) < 256 && (b as int) < 256 && EscapeChar(a) + x == EscapeChar(b) + y
    ensures a == b && x == y
  {
    var s := EscapeChar(a) + x;
    assert s[0] == EscapeChar(a)[0] == EscapeChar(b)[0];
    SameLength(a, b);
    var n := |EscapeChar(a)|;
    assert EscapeChar(a) == s[..n] == EscapeChar(b) && x == s[n..] == y;
    SameCode(a, b);
  }

  /** Escaping loses nothing. */
  lemma {:induction false} EscapeInjective(s: string, t: string)
    requires Octets(s) && Octets(t) && Escape(s) == Escape(t)
    ensures s == t
  {
    if s != "" && t != "" {
      EscapeCharInjective(s[0], t[0], Escape(s[1..]), Escape(t[1..]));
      EscapeInjective(s[1..], t[1..]);
      assert s == [s[0]] + s[1..] && t == [t[0]] + t[1..];
    }
  }

  // ---- url.Values.Encode ----

  datatype Field = Field(name: string, value: string)

  function FieldText(f: Field): string {
    f.name + "=" + Escape(f.value)
  }

  function Encode(fs: seq<Field>): string {
    if fs == [] then ""
    else if |fs| == 1 then FieldText(fs[0])
    else FieldText(fs[0]) + "&" + Encode(fs[1..])
  }

  /** Names are literals of the program, without separators; values are arbitrary bytes. */
  ghost predicate Encodable(fs: seq<Field>) {
    forall i | 0 <= i < |fs| :: '=' !in fs[i].name && '&' !in fs[i].name && Octets(fs[i].value)
  }

  lemma FieldTextInjective(f: Field, g: Field)
    requires Encodable([f]) && Encodable([g]) && FieldText(f) == FieldText(g)
    ensures f == g
  {
    assert [f][0] == f && [g][0] == g;
    FirstSeparator(f.name, Escape(f.value), g.name, Escape(g.value), '=');
    EscapeInjective(f.value, g.value);
  }

  lemma FieldTextHasNoAnd(f: Field)
    requires Encodable([f])
    ensures '&' !in FieldText(f) && FieldText(f) != ""
  {
    assert [f][0] == f;
  }

  lemma ManyHaveAnd(fs: seq<Field>)
    requires |fs| > 1
    ensures '&' in Encode(fs)
  {
    assert Encode(fs)[|FieldText(fs[0])|] == '&';
  }

  /** Different fields give different queries. */
  lemma {:induction false} EncodeInjective(fs: seq<Field>, gs: seq<Field>)
    requires Encodable(fs) && Encodable(gs) && Encode(fs) == Encode(gs)
    ensures fs == gs
    decreases |fs|
  {
    if fs != [] { FieldTextHasNoAnd(fs[0]); }
    if gs != [] { FieldTextHasNoAnd(gs[0]); }
    if |fs| > 1 { ManyHaveAnd(fs); }
    if |gs| > 1 { ManyHaveAnd(gs); }
    if |fs| > 1 && |gs| > 1 {
      FirstSeparator(FieldText(fs[0]), Encode(fs[1..]), FieldText(gs[0]), Encode(gs[1..]), '&');
      FieldTextInjective(fs[0], gs[0]);
      EncodeInjective(fs[1..], gs[1..]);
      assert fs == [fs[0]] + fs[1..] && gs == [gs[0]] + gs[1..];
    } else if |fs| == 1 && |gs| == 1 {
      FieldTextInjective(fs[0], gs[0]);
    }
  }

  // ---- The list key ----

  /** A field that is sent only when it is not empty. */
  function Given(name: string, value: string): seq<Field> {
    if value == "" then [] else [Field(name, value)]
  }

  function LimitText(limit: int): string {
    if limit > 0 then Print(limit) else ""
  }

  /** What is sent upstream, names in alphabetical order as Encode writes them. */
  function Fields(p: ListParams): seq<Field> {
    Given("category", p.category) + (Given("channel", p.channel) + (Given("cursor", p.cursor)
    + (Given("family", p.family) + (Given("limit", LimitText(p.limit)) + Given("sort", p.sort)))))
  }

  function PackagesListQuery(p: ListParams): string {
    Encode(Fields(p))
  }

  function ListKey(p: ListParams): string { "packages?" + PackagesListQuery(p) }

  function DetailKey(name: string): string { "package:" + name }

  const DICTIONARY_KEY := "category_dict_plugin"

  /** A limit that is not positive is not sent, so all such limits ask the same. */
  function Effective(p: ListParams): ListParams {
    p.(limit := if p.limit > 0 then p.limit else 0)
  }

  /** The value of a name among some fields, or nothing. */
  function ValueOf(fs: seq<Field>, name: string): string {
    if fs == [] then "" else if fs[0].name == name then fs[0].value else ValueOf(fs[1..], name)
  }

  lemma GivenThen(name: string, value: string, rest: seq<Field>, asked: string)
    ensures ValueOf(Given(name, value) + rest, asked)
         == if asked == name && value != "" then value else ValueOf(rest, asked)
  {
    if value == "" {
      assert Given(name, value) + rest == rest;
    } else {
      assert (Given(name, value) + rest)[1..] == rest;
    }
  }

  lemma FieldsHold(p: ListParams, asked: string)
    ensures ValueOf(Fields(p), asked) ==
            if asked == "category" then p.category else if asked == "channel" then p.channel
            else if asked == "cursor" then p.cursor else if asked == "family" then p.family
            else if asked == "limit" then LimitText(p.limit) else if asked == "sort" then p.sort else ""
  {
    var f6 := Given("sort", p.sort);
    assert f6 + [] == f6;
    var f5 := Given("limit", LimitText(p.limit)) + f6;
    var f4 := Given("family", p.family) + f5;
    var f3 := Given("cursor", p.cursor) + f4;
    var f2 := Given("channel", p.channel) + f3;
    GivenThen("sort", p.sort, [], asked);
    GivenThen("limit", LimitText(p.limit), f6, asked);
    GivenThen("family", p.family, f5, asked);
    GivenThen("cursor", p.cursor, f4, asked);
    GivenThen("channel", p.channel, f3, asked);
    GivenThen("category", p.category, f2, asked);
  }

  lemma DigitsAreOctets(s: string)
    requires AllDigits(s)
    ensures Octets(s)
  {
  }

  lemma GivenEncodable(name: string, value: string, rest: seq<Field>)
    requires '=' !in name && '&' !in name && Octets(value) && Encodable(rest)
    ensures Encodable(Given(name, value) + rest)
  {
  }

  lemma FieldsEncodable(p: ListParams)
    requires WellFormed(p)
    ensures Encodable(Fields(p))
  {
    if p.limit > 0 {
      PrintIsDigits(p.limit);
      DigitsAreOctets(Print(p.limit));
    }
    var f6 := Given("sort", p.sort);
    assert f6 + [] == f6;
    var f5 := Given("limit", LimitText(p.limit)) + f6;
    var f4 := Given("family", p.family) + f5;
    var f3 := Given("cursor", p.cursor) + f4;
    var f2 := Given("channel", p.channel) + f3;
    GivenEncodable("sort", p.sort, []);
    GivenEncodable("limit", LimitText(p.limit), f6);
    GivenEncodable("family", p.family, f5);
    GivenEncodable("cursor", p.cursor, f4);
    GivenEncodable("channel", p.channel, f3);
    GivenEncodable("category", p.category, f2);
  }

  /** Equal list keys ask the same of the hub: every parameter that is sent agrees. */
  lemma ListKeyInjective(p: ListParams, q: ListParams)
    requires WellFormed(p) && WellFormed(q) && ListKey(p) == ListKey(q)
    ensures Effective(p) == Effective(q)
  {
    assert ListKey(p)[9..] == PackagesListQuery(p) && ListKey(q)[9..] == PackagesListQuery(q);
    FieldsEncodable(p);
    FieldsEncodable(q);
    EncodeInjective(Fields(p), Fields(q));
    FieldsHold(p, "category");
    FieldsHold(q, "category");
    FieldsHold(p, "channel");
    FieldsHold(q, "channel");
    FieldsHold(p, "cursor");
    FieldsHold(q, "cursor");
    FieldsHold(p, "family");
    FieldsHold(q, "family");
    FieldsHold(p, "sort");
    FieldsHold(q, "sort");
    FieldsHold(p, "limit");
    FieldsHold(q, "limit");
    if p.limit > 0 { PrintIsDigits(p.limit); }
    if q.limit > 0 { PrintIsDigits(q.limit); }
  }

  /** The endpoints never share a key, and a detail key belongs to one package. */
  lemma KeysAreSeparate(p: ListParams, name: string, other: string)
    ensures ListKey(p) != DetailKey(name)
    ensures ListKey(p) != DICTIONARY_KEY && DetailKey(name) != DICTIONARY_KEY
    ensures DetailKey(name) == DetailKey(other) ==> name == other
  {
    assert ListKey(p)[7] == 's' && DetailKey(name)[7] == ':';
    assert ListKey(p)[0] == 'p' && DetailKey(name)[0] == 'p' && DICTIONARY_KEY[0] == 'c';
    assert DetailKey(name)[8..] == name && DetailKey(other)[8..] == other;
  }
}
