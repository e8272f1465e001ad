/**
 The address-match-list parser (internal/config/match.go) and its inverse: printing a list and
 reading it back gives the list.
 */
module AclParse {
  import opened Wrappers
  import opened AclMatch
  import opened AclLexer
  import opened NameText

  datatype Error = Unterminated | UnexpectedBrace | DoubleNegation
                 | GeoSubcommand | GeoUnknown | CountryMissing | CountryInvalid
                 | AsnMissing | AsnInvalid | AsnOverflow

  /** A parse over tokens: what was read and the tokens left. */
  datatype Parsed<T> = Read(value: T, rest: seq<Token>) | Failed(error: Error)

  /** The address library: each function gives the canonical value a text stands for. */
  datatype Netip = Netip(prefix: string -> Option<string>, addr: string -> Option<string>)

  // ----- words

  function UpperChar(c: char): char {
    if 'a' <= c <= 'z' then c - ' ' else c
  }

  function Upper(s: string): (r: string)
    ensures |r| == |s|
  {
    seq(|s|, i requires 0 <= i < |s| => UpperChar(s[i]))
  }

  function Builtin(word: string): Option<Form> {
    var w := ToLower(word);
    if w == "any" then Some(Any)
    else if w == "none" then Some(Form.None)
    else if w == "localhost" then Some(Localhost)
    else if w == "localnets" then Some(Localnets)
    else Option.None
  }

  predicate IsTrimmed(c: char) {
    c in {' ', '\t', '\n', '\r', 11 as char, 12 as char}
  }

  function TrimLeft(s: string): string {
    if s != [] && IsTrimmed(s[0]) then TrimLeft(s[1..]) else s
  }

  function TrimRight(s: string): string {
    if s != [] && IsTrimmed(s[|s| - 1]) then TrimRight(s[..|s| - 1]) else s
  }

  function Trim(s: string): string {
    TrimRight(TrimLeft(s))
  }

  predicate IsLetter(c: char) {
    'A' <= c <= 'Z' || 'a' <= c <= 'z'
  }

  predicate IsDigit(c: char) {
    '0' <= c <= '9'
  }

  predicate IsoCountry(code: string) {
    |code| == 2 && IsLetter(code[0]) && IsLetter(code[1])
  }

  // ----- AS numbers

  const MAX_ASN: nat := 0xFFFF_FFFF

  /** How many digits a text starts with. */
  function DigitRun(s: string): (n: nat)
    ensures n <= |s| && forall i :: 0 <= i < n ==> IsDigit(s[i])
  {
    if s != [] && IsDigit(s[0]) then 1 + DigitRun(s[1..]) else 0
  }

  function Digit(c: char): nat
    requires IsDigit(c)
  {
    (c as int) - ('0' as int)
  }

  function DecimalValue(s: string): nat
    requires forall i :: 0 <= i < |s| ==> IsDigit(s[i])
  {
    if s == [] then 0 else 10 * DecimalValue(s[..|s| - 1]) + Digit(s[|s| - 1])
  }

  /** "AS" and digits, then white space or the end; the number must fit 32 bits. */
  function ParseAsn(raw: string): Parsed<nat> {
    if raw == "" then Failed(AsnMissing)
    else if |raw| < 3 || raw[..2] != "AS" then Failed(AsnInvalid)
    else
      var n := DigitRun(raw[2..]);
      var after := raw[2 + n..];
      if n == 0 || (after != [] && after[0] !in {' ', '\t', '\n', '\r', 12 as char}) then Failed(AsnInvalid)
      else if DecimalValue(raw[2..][..n]) > MAX_ASN then Failed(AsnOverflow)
      else Read(DecimalValue(raw[2..][..n]), [])
  }

  function ShowNat(n: nat): (s: string)
    ensures s != [] && forall i :: 0 <= i < |s| ==> IsDigit(s[i])
    ensures DecimalValue(s) == n
  {
    var d := ('0' as int + n % 10) as char;
    if n < 10 then [d] else
      var s := ShowNat(n / 10) + [d];
      assert s[..|s| - 1] == ShowNat(n / 10);
      s
  }

  // ----- the parser on tokens

  function TextOf(t: Token): string {
    match t
    case Word(w) => w
    case Str(v) => v
    case _ => ""
  }

  predicate StartsWithBang(s: string) {
    s != [] && s[0] == '!'
  }

  function ParseGeo(toks: seq<Token>): (r: Parsed<Form>)
    ensures r.Read? ==> |r.rest| < |toks|
  {
    if toks == [] || !toks[0].Word? then Failed(GeoSubcommand)
    else
      var sub, rest := ToLower(toks[0].text), toks[1..];
      var val := if rest == [] then "" else Trim(TextOf(rest[0]));
      if sub == "country" then
        if val == "" then Failed(CountryMissing)
        else if !IsoCountry(val) then Failed(CountryInvalid)
        else Read(Test(Country(Upper(val))), rest[1..])
      else if sub == "asnum" then
        match ParseAsn(val)
        case Failed(e) => Failed(e)
        case Read(n, _) => Read(Test(Asn(n)), rest[1..])
      else Failed(GeoUnknown)
  }

  /** One element without its negation or braces. */
  function ParseItem(n: Netip, t: Token, toks: seq<Token>): (r: Parsed<Form>)
    ensures r.Read? ==> |r.rest| <= |toks|
  {
    var word := TextOf(t);
    if Builtin(word).Some? then Read(Builtin(word).value, toks)
    else if t.Str? then Read(Ref(word, []), toks)
    else if ToLower(word) == "geoip" then ParseGeo(toks)
    else if n.prefix(word).Some? then Read(Test(Cidr(n.prefix(word).value)), toks)
    else if n.addr(word).Some? then Read(Test(Ip(n.addr(word).value)), toks)
    else Read(Ref(word, []), toks)
  }

  function EndOfInput(nested: bool): Parsed<seq<Element>> {
    if nested then Failed(Unterminated) else Read([], [])
  }

  function CloseBrace(nested: bool, rest: seq<Token>): Parsed<seq<Element>> {
    if nested then Read([], rest) else Failed(UnexpectedBrace)
  }

  /** Elements up to the end of the text, or up to the closing brace of a group. */
  function ParseList(n: Netip, toks: seq<Token>, nested: bool): (r: Parsed<seq<Element>>)
    ensures r.Read? ==> |r.rest| <= |toks| && (nested ==> |r.rest| < |toks|) && (!nested ==> r.rest == [])
    decreases |toks|, 1
  {
    if toks == [] then EndOfInput(nested)
    else
      var t, rest := toks[0], toks[1..];
      if t.RBrace? then CloseBrace(nested, rest)
      else if t.Semicolon? then ParseList(n, rest, nested)
      else if t == Word("!") then
        if rest == [] then EndOfInput(nested)
        else if rest[0].RBrace? then CloseBrace(nested, rest[1..])
        else if rest[0].Semicolon? then ParseList(n, rest[1..], nested)
        else ParseElement(n, true, rest[0], rest[1..], nested)
      else if t.Word? && StartsWithBang(t.text) then ParseElement(n, true, Word(t.text[1..]), rest, nested)
      else ParseElement(n, false, t, rest, nested)
  }

  /** One element starting at token t, then the rest of the list. */
  function ParseElement(n: Netip, negated: bool, t: Token, toks: seq<Token>, nested: bool): (r: Parsed<seq<Element>>)
    ensures r.Read? ==> |r.rest| <= |toks| && (nested ==> |r.rest| < |toks|) && (!nested ==> r.rest == [])
    decreases |toks|, 3
  {
    if t.Word? && StartsWithBang(t.text) then Failed(DoubleNegation)
    else
      match ParseForm(n, t, toks)
      case Failed(e) => Failed(e)
      case Read(f, rest) =>
        match ParseList(n, rest, nested)
        case Failed(e) => Failed(e)
        case Read(es, left) => Read([Element(negated, f)] + es, left)
  }

  /** A group or an item. */
  function ParseForm(n: Netip, t: Token, toks: seq<Token>): (r: Parsed<Form>)
    ensures r.Read? ==> |r.rest| <= |toks|
    decreases |toks|, 2
  {
    if t.LBrace? then
      match ParseList(n, toks, true)
      case Failed(e) => Failed(e)
      case Read(body, rest) => Read(Group(body), rest)
    else ParseItem(n, t, toks)
  }

  /** A glued negation reads like a separate one. */
  lemma GluedNegation(n: Netip, w: string, toks: seq<Token>, nested: bool)
    requires w != ""
    ensures ParseList(n, [Word("!" + w)] + toks, nested) == ParseList(n, [Word("!"), Word(w)] + toks, nested)
  {
    assert ("!" + w)[1..] == w;
    var glued, apart := [Word("!" + w)] + toks, [Word("!"), Word(w)] + toks;
    assert glued[1..] == toks;
    assert apart[1..] == [Word(w)] + toks && apart[1..][1..] == toks;
    assert |"!" + w| > 1;
  }

  // ----- printing

  /** The tokens of a list as it would be written: each element ends in a semicolon. */
  function TokensOf(es: seq<Element>): seq<Token>
    decreases es
  {
    if es == [] then [] else (if es[0].negated then [Word("!")] else []) + ElementTokens(es[0]) + [Semicolon] + TokensOf(es[1..])
  }

  function ElementTokens(e: Element): seq<Token>
    decreases e
  {
    match e.form
    case Any => [Word("any")]
    case None => [Word("none")]
    case Localhost => [Word("localhost")]
    case Localnets => [Word("localnets")]
    case Test(Country(code)) => [Word("geoip"), Word("country"), Word(code)]
    case Test(Asn(number)) => [Word("geoip"), Word("asnum"), Str("AS" + ShowNat(number))]
    case Test(Ip(addr)) => [Word(addr)]
    case Test(Cidr(prefix)) => [Word(prefix)]
    case Ref(name, _) => [Str(name)]
    case Group(body) => [LBrace] + TokensOf(body) + [RBrace]
  }

  /** A text the lexer reads as one word. */
  predicate PlainWord(w: string) {
    w != [] && forall i :: 0 <= i < |w| ==> !EndsWord(w[i..])
  }

  /** A canonical address text: a plain word that no earlier rule of the parser takes. */
  predicate AddressWord(w: string) {
    PlainWord(w) && w[0] != '!' && Builtin(w) == Option.None && ToLower(w) != "geoip"
  }

  /** A list as the parser produces them. */
  predicate Written(n: Netip, es: seq<Element>)
    decreases es
  {
    es == [] || (WrittenElement(n, es[0]) && Written(n, es[1..]))
  }

  predicate WrittenElement(n: Netip, e: Element)
    decreases e
  {
    match e.form
    case Test(Country(code)) => IsoCountry(code) && Upper(code) == code
    case Test(Asn(number)) => number <= MAX_ASN
    case Test(Ip(addr)) => AddressWord(addr) && n.prefix(addr) == Option.None && n.addr(addr) == Some(addr)
    case Test(Cidr(prefix)) => AddressWord(prefix) && n.prefix(prefix) == Some(prefix)
    case Ref(name, sub) => sub == [] && Builtin(name) == Option.None
    case Group(body) => Written(n, body)
    case _ => true
  }

  lemma TrimKeeps(s: string)
    requires s != [] && !IsTrimmed(s[0]) && !IsTrimmed(s[|s| - 1])
    ensures Trim(s) == s
  {
  }

  lemma {:induction false} DigitRunAll(s: string)
    requires forall i :: 0 <= i < |s| ==> IsDigit(s[i])
    ensures DigitRun(s) == |s|
  {
    if s != [] { DigitRunAll(s[1..]); }
  }

  lemma AsnReadsBack(number: nat)
    requires number <= MAX_ASN
    ensures var text := "AS" + ShowNat(number); Trim(text) == text && ParseAsn(text) == Read(number, [])
  {
    var digits := ShowNat(number);
    var text := "AS" + digits;
    assert text[|text| - 1] == digits[|digits| - 1];
    TrimKeeps(text);
    assert text[2..] == digits && text[..2] == "AS";
    DigitRunAll(digits);
    assert digits[..|digits|] == digits && text[2 + |digits|..] == [];
  }

  lemma WordClasses()
    ensures Builtin("any") == Some(Any) && Builtin("none") == Some(Form.None)
    ensures Builtin("localhost") == Some(Localhost) && Builtin("localnets") == Some(Localnets)
    ensures Builtin("geoip") == Option.None && ToLower("geoip") == "geoip"
    ensures ToLower("country") == "country" && ToLower("asnum") == "asnum" && "country" != "asnum"
  {
    assert ToLower("any") == "any" && ToLower("none") == "none";
    assert ToLower("localhost") == "localhost" && ToLower("localnets") == "localnets";
    assert ToLower("geoip") == "geoip";
    assert "localhost"[5] != "localnets"[5];
  }

  lemma CountryReadsBack(code: string, toks: seq<Token>)
    requires IsoCountry(code) && Upper(code) == code
    ensures ParseGeo([Word("country"), Word(code)] + toks) == Read(Test(Country(code)), toks)
  {
    WordClasses();
    TrimKeeps(code);
    var rest := [Word("country"), Word(code)] + toks;
    assert rest[1..] == [Word(code)] + toks && rest[1..][1..] == toks;
    hide Builtin, ToLower, Trim, IsoCountry, Upper, ParseAsn;
  }

  lemma AsnTokensReadBack(number: nat, toks: seq<Token>)
    requires number <= MAX_ASN
    ensures ParseGeo([Word("asnum"), Str("AS" + ShowNat(number))] + toks) == Read(Test(Asn(number)), toks)
  {
    WordClasses();
    AsnReadsBack(number);
    var val := Str("AS" + ShowNat(number));
    var rest := [Word("asnum"), val] + toks;
    assert rest[1..] == [val] + toks && rest[1..][1..] == toks;
    hide Builtin, ToLower, Trim, IsoCountry, Upper, ParseAsn, ShowNat;
  }

  /** Reading a geographic element's tokens, after its first, gives the element. */
  lemma GeoReadsBack(n: Netip, e: Element, toks: seq<Token>)
    requires WrittenElement(n, e) && e.form.Test? && (e.form.leaf.Country? || e.form.leaf.Asn?)
    ensures ParseGeo(ElementTokens(e)[1..] + toks) == Read(e.form, toks)
  {
    match e.form.leaf
    case Country(code) =>
      CountryReadsBack(code, toks);
      assert ElementTokens(e)[1..] == [Word("country"), Word(code)];
    case Asn(number) =>
      AsnTokensReadBack(number, toks);
      assert ElementTokens(e)[1..] == [Word("asnum"), Str("AS" + ShowNat(number))];
  }

  /** Reading an element's tokens in front of more tokens gives its form back. */
  lemma ItemReadsBack(n: Netip, e: Element, toks: seq<Token>)
    requires WrittenElement(n, e) && !e.form.Group?
    ensures var ts := ElementTokens(e);
            ts != [] && Begins(ts[0]) && !ts[0].LBrace? && ParseItem(n, ts[0], ts[1..] + toks) == Read(e.form, toks)
  {
    WordClasses();
    var ts := ElementTokens(e);
    assert |ts| == 1 ==> ts[1..] + toks == toks;
    if e.form.Test? && (e.form.leaf.Country? || e.form.leaf.Asn?) {
      GeoReadsBack(n, e, toks);
      hide Builtin, ToLower, PlainWord, ParseGeo;
    } else {
      hide Builtin, ToLower, PlainWord, ParseGeo;
    }
  }

  /** Whether a token can start an element that is not negated. */
  predicate Begins(t: Token) {
    (t.Word? && !StartsWithBang(t.text)) || t.Str? || t.LBrace?
  }

  lemma ElementStarts(n: Netip, t: Token, toks: seq<Token>, nested: bool)
    requires Begins(t)
    ensures ParseList(n, [t] + toks, nested) == ParseElement(n, false, t, toks, nested)
    ensures ParseList(n, [Word("!"), t] + toks, nested) == ParseElement(n, true, t, toks, nested)
  {
    hide ParseElement;
    var plain, bang := [t] + toks, [Word("!"), t] + toks;
    assert plain[1..] == toks;
    assert bang[1..] == [t] + toks && bang[1..][1..] == toks;
  }

  lemma SemicolonSkipped(n: Netip, toks: seq<Token>, nested: bool)
    ensures ParseList(n, [Semicolon] + toks, nested) == ParseList(n, toks, nested)
  {
    hide ParseElement;
    assert ([Semicolon] + toks)[1..] == toks;
  }

  /** What ParseElement does once the element itself is read. */
  lemma ElementRead(n: Netip, negated: bool, t: Token, toks: seq<Token>, nested: bool, f: Form, rest: seq<Token>)
    requires Begins(t) && |rest| <= |toks|
    requires if t.LBrace? then f.Group? && ParseList(n, toks, true) == Read(f.body, rest)
             else ParseItem(n, t, toks) == Read(f, rest)
    requires ParseList(n, rest, nested).Read?
    ensures ParseElement(n, negated, t, toks, nested) ==
            Read([Element(negated, f)] + ParseList(n, rest, nested).value, ParseList(n, rest, nested).rest)
  {
    hide ParseList, ParseItem;
  }

  lemma TokensSplit(es: seq<Element>, toks: seq<Token>)
    requires es != [] && ElementTokens(es[0]) != []
    ensures var ts := ElementTokens(es[0]);
            TokensOf(es) + toks ==
              (if es[0].negated then [Word("!"), ts[0]] else [ts[0]]) +
              (ts[1..] + ([Semicolon] + (TokensOf(es[1..]) + toks)))
  {
    hide ElementTokens;
    var ts, others := ElementTokens(es[0]), TokensOf(es[1..]);
    assert TokensOf(es) == (if es[0].negated then [Word("!")] else []) + ts + [Semicolon] + others;
    hide TokensOf;
    Regroup(es[0].negated, ts, others, toks);
  }

  lemma Regroup(negated: bool, ts: seq<Token>, others: seq<Token>, toks: seq<Token>)
    requires ts != []
    ensures (if negated then [Word("!")] else []) + ts + [Semicolon] + others + toks ==
            (if negated then [Word("!"), ts[0]] else [ts[0]]) + (ts[1..] + ([Semicolon] + (others + toks)))
  {
    assert ts == [ts[0]] + ts[1..];
  }

  /** Reading a printed list back, in front of the end of the text or a closing brace. */
  lemma {:induction false} TokensReadBack(n: Netip, es: seq<Element>, toks: seq<Token>, nested: bool)
    requires Written(n, es)
    requires if nested then toks != [] && toks[0].RBrace? else toks == []
    ensures ParseList(n, TokensOf(es) + toks, nested) == Read(es, if nested then toks[1..] else [])
    decreases es
  {
    if es == [] {
      assert TokensOf(es) + toks == toks;
    } else {
      hide ParseList, ParseElement;
      var e, others := es[0], TokensOf(es[1..]) + toks;
      var ts, tail := ElementTokens(e), [Semicolon] + others;
      TokensReadBack(n, es[1..], toks, nested);
      SemicolonSkipped(n, others, nested);
      ElementReadsBack(n, e, tail, nested);
      ElementStarts(n, ts[0], ts[1..] + tail, nested);
      TokensSplit(es, toks);
      assert [e] + es[1..] == es;
    }
  }

  lemma {:induction false} ElementReadsBack(n: Netip, e: Element, tail: seq<Token>, nested: bool)
    requires WrittenElement(n, e)
    requires ParseList(n, tail, nested).Read?
    ensures var ts := ElementTokens(e);
            && ts != [] && Begins(ts[0])
            && ParseElement(n, e.negated, ts[0], ts[1..] + tail, nested) ==
               Read([e] + ParseList(n, tail, nested).value, ParseList(n, tail, nested).rest)
    decreases e
  {
    hide ParseList, ParseElement, ParseItem;
    var ts := ElementTokens(e);
    if e.form.Group? {
      TokensReadBack(n, e.form.body, [RBrace] + tail, true);
      assert ts[1..] + tail == TokensOf(e.form.body) + ([RBrace] + tail);
      assert ([RBrace] + tail)[1..] == tail;
    } else {
      ItemReadsBack(n, e, tail);
    }
    ElementRead(n, e.negated, ts[0], ts[1..] + tail, nested, e.form, tail);
  }

  // ----- what the parser produces

  /** The library's texts are canonical: plain words that stand for themselves, never both kinds. */
  ghost predicate Canonical(n: Netip) {
    && (forall w :: n.prefix(w).Some? ==>
          AddressWord(n.prefix(w).value) && n.prefix(n.prefix(w).value) == n.prefix(w))
    && (forall w :: n.addr(w).Some? ==>
          AddressWord(n.addr(w).value) && n.addr(n.addr(w).value) == n.addr(w) && n.prefix(n.addr(w).value) == Option.None)
  }

  lemma GeoIsWritten(n: Netip, toks: seq<Token>, negated: bool)
    requires ParseGeo(toks).Read?
    ensures WrittenElement(n, Element(negated, ParseGeo(toks).value))
  {
    if ParseGeo(toks).value.leaf.Country? {
      var val := Trim(TextOf(toks[1]));
      assert IsoCountry(val) && ParseGeo(toks).value.leaf.code == Upper(val);
      UpperTwice(val);
    } else {
      hide Trim, DecimalValue;
    }
  }

  lemma UpperTwice(code: string)
    requires IsoCountry(code)
    ensures IsoCountry(Upper(code)) && Upper(Upper(code)) == Upper(code)
  {
  }

  lemma ItemIsWritten(n: Netip, t: Token, toks: seq<Token>, negated: bool)
    requires Canonical(n) && ParseItem(n, t, toks).Read?
    ensures WrittenElement(n, Element(negated, ParseItem(n, t, toks).value))
  {
    var word := TextOf(t);
    if Builtin(word).None? && !t.Str? && ToLower(word) == "geoip" {
      GeoIsWritten(n, toks, negated);
    }
    hide PlainWord, AddressWord, ParseGeo;
  }

  lemma {:induction false} ListIsWritten(n: Netip, toks: seq<Token>, nested: bool)
    requires Canonical(n) && ParseList(n, toks, nested).Read?
    ensures Written(n, ParseList(n, toks, nested).value)
    decreases |toks|, 1
  {
    hide Canonical, ParseElement;
    if toks != [] && !toks[0].RBrace? {
      var t, rest := toks[0], toks[1..];
      if t.Semicolon? {
        ListIsWritten(n, rest, nested);
      } else if t == Word("!") {
        if rest != [] && rest[0].Semicolon? {
          ListIsWritten(n, rest[1..], nested);
        } else if rest != [] && !rest[0].RBrace? {
          ElementIsWritten(n, true, rest[0], rest[1..], nested);
        }
      } else if t.Word? && StartsWithBang(t.text) {
        ElementIsWritten(n, true, Word(t.text[1..]), rest, nested);
      } else {
        ElementIsWritten(n, false, t, rest, nested);
      }
    }
  }

  lemma {:induction false} ElementIsWritten(n: Netip, negated: bool, t: Token, toks: seq<Token>, nested: bool)
    requires Canonical(n) && ParseElement(n, negated, t, toks, nested).Read?
    ensures Written(n, ParseElement(n, negated, t, toks, nested).value)
    decreases |toks|, 3
  {
    hide Canonical, ParseList, ParseItem;
    var form := ParseForm(n, t, toks);
    if t.LBrace? {
      ListIsWritten(n, toks, true);
    } else {
      ItemIsWritten(n, t, toks, negated);
    }
    ListIsWritten(n, form.rest, nested);
    var es := ParseList(n, form.rest, nested).value;
    assert ([Element(negated, form.value)] + es)[1..] == es;
  }

  // ----- text

  /** A quoted string, quotes and backslashes escaped. */
  function Escape(v: string): string {
    if v == [] then []
    else (if v[0] == '"' || v[0] == '\\' then ['\\', v[0]] else [v[0]]) + Escape(v[1..])
  }

  function ShowToken(t: Token): string {
    match t
    case Eof => ""
    case LBrace => "{"
    case RBrace => "}"
    case Semicolon => ";"
    case Word(w) => w
    case Str(v) => "\"" + Escape(v) + "\""
  }

  /** The tokens written out, a space after each. */
  function Show(toks: seq<Token>): string {
    if toks == [] then [] else ShowToken(toks[0]) + " " + Show(toks[1..])
  }

  predicate Writable(t: Token) {
    match t
    case Eof => false
    case Word(w) => PlainWord(w)
    case _ => true
  }

  lemma {:induction false} EscapeReadsBack(v: string, s: string)
    ensures ReadString(Escape(v) + "\"" + s) == (v, s)
  {
    var text := Escape(v) + "\"" + s;
    if v == [] {
      assert text == "\"" + s;
    } else if v[0] == '"' || v[0] == '\\' {
      EscapeReadsBack(v[1..], s);
      assert text[2..] == Escape(v[1..]) + "\"" + s;
      assert [v[0]] + v[1..] == v;
    } else {
      EscapeReadsBack(v[1..], s);
      assert text[1..] == Escape(v[1..]) + "\"" + s;
      assert [v[0]] + v[1..] == v;
    }
  }

  lemma {:induction false} WordReadsBack(w: string, s: string)
    requires forall i :: 0 <= i < |w| ==> !EndsWord(w[i..])
    ensures ReadWord(w + " " + s) == (w, " " + s)
  {
    var text := w + " " + s;
    if w == [] {
      assert text == " " + s;
    } else {
      assert w[0..] == w;
      assert text[1..] == w[1..] + " " + s;
      forall i | 0 <= i < |w[1..]| ensures !EndsWord(w[1..][i..]) {
        assert w[1..][i..] == w[i + 1..];
      }
      assert EndsWord(text) == EndsWord(w);
      WordReadsBack(w[1..], s);
      assert [w[0]] + w[1..] == w;
    }
  }

  lemma TokenReadsBack(t: Token, s: string)
    requires Writable(t)
    ensures Next(ShowToken(t) + " " + s) == (t, " " + s)
  {
    var text := ShowToken(t) + " " + s;
    match t
    case Word(w) => PlainWordReadsBack(w, s);
    case Str(v) => QuotedReadsBack(v, s);
    case Eof =>
    case LBrace => assert text[1..] == " " + s;
    case RBrace => assert text[1..] == " " + s;
    case Semicolon => assert text[1..] == " " + s;
  }

  lemma PlainWordReadsBack(w: string, s: string)
    requires PlainWord(w)
    ensures Next(w + " " + s) == (Word(w), " " + s)
  {
    var text := w + " " + s;
    assert w[0..] == w;
    assert EndsWord(text) == EndsWord(w);
    assert SkipSpace(text) == text;
    WordReadsBack(w, s);
  }

  lemma QuotedReadsBack(v: string, s: string)
    ensures Next("\"" + Escape(v) + "\"" + " " + s) == (Str(v), " " + s)
  {
    var text := "\"" + Escape(v) + "\"" + " " + s;
    assert text[1..] == Escape(v) + "\"" + (" " + s);
    EscapeReadsBack(v, " " + s);
    hide ReadString, Escape;
  }

  lemma {:induction false} ShowLexesBack(toks: seq<Token>, s: string)
    requires forall i :: 0 <= i < |toks| ==> Writable(toks[i])
    ensures Tokens(Show(toks) + s) == toks + Tokens(s)
  {
    hide Next, Show, ShowToken, Tokens;
    if toks == [] {
      ShowNothing(s);
    } else {
      var t, rest := toks[0], Show(toks[1..]) + s;
      ShowSplit(toks, s);
      ShowLexesBack(toks[1..], s);
      TokenStep(t, rest);
      assert [t] + (toks[1..] + Tokens(s)) == toks + Tokens(s);
    }
  }

  lemma ShowNothing(s: string)
    ensures Show([]) + s == s && Tokens(s) == [] + Tokens(s)
  {
    hide Tokens;
  }

  lemma TokenStep(t: Token, s: string)
    requires Writable(t)
    ensures Tokens(ShowToken(t) + " " + s) == [t] + Tokens(s)
  {
    TokenReadsBack(t, s);
    SpaceLexes(s);
    hide Next, ShowToken;
  }

  lemma ShowSplit(toks: seq<Token>, s: string)
    requires toks != []
    ensures Show(toks) + s == ShowToken(toks[0]) + " " + (Show(toks[1..]) + s)
  {
    hide ShowToken;
    assert Show(toks) == ShowToken(toks[0]) + " " + Show(toks[1..]);
  }

  lemma SpaceLexes(s: string)
    ensures Tokens(" " + s) == Tokens(s)
  {
    assert (" " + s)[1..] == s;
    BlankSkipped(s);
    BlankSkipped(" " + s);
    hide Next;
  }

  lemma {:induction false} PrintedTokensAreWritable(n: Netip, es: seq<Element>)
    requires Written(n, es)
    ensures forall i :: 0 <= i < |TokensOf(es)| ==> Writable(TokensOf(es)[i])
    decreases es
  {
    if es != [] {
      PrintedTokensAreWritable(n, es[1..]);
      ElementTokensAreWritable(n, es[0]);
      PlainWords();
    }
  }

  lemma {:induction false} ElementTokensAreWritable(n: Netip, e: Element)
    requires WrittenElement(n, e)
    ensures forall i :: 0 <= i < |ElementTokens(e)| ==> Writable(ElementTokens(e)[i])
    decreases e
  {
    PlainWords();
    match e.form
    case Group(body) => PrintedTokensAreWritable(n, body);
    case Test(Country(code)) => assert code[0..] == code && code[1..] == [code[1]];
    case _ =>
  }

  lemma LettersArePlain(w: string)
    requires w != [] && forall i :: 0 <= i < |w| ==> IsLetter(w[i])
    ensures PlainWord(w)
  {
    forall i | 0 <= i < |w| ensures !EndsWord(w[i..]) {
      assert w[i..][0] == w[i];
    }
  }

  lemma PlainWords()
    ensures PlainWord("any") && PlainWord("none") && PlainWord("localhost") && PlainWord("localnets")
    ensures PlainWord("geoip") && PlainWord("country") && PlainWord("asnum") && PlainWord("!")
  {
    LettersArePlain("any");
    LettersArePlain("none");
    LettersArePlain("localhost");
    LettersArePlain("localnets");
    LettersArePlain("geoip");
    LettersArePlain("country");
    LettersArePlain("asnum");
    assert "!"[0..] == "!";
  }

  function Print(es: seq<Element>): string {
    Show(TokensOf(es))
  }

  /** The whole text of an address-match list, parsed. */
  function ParseText(n: Netip, text: string): Parsed<seq<Element>> {
    ParseList(n, Tokens(text), false)
  }

  /** The round trip: every written list, nested and negated at will, is read back from its printed text. */
  lemma PrintReadsBack(n: Netip, es: seq<Element>)
    requires Written(n, es)
    ensures ParseText(n, Print(es)) == Read(es, [])
  {
    PrintedTokensAreWritable(n, es);
    ShowLexesBack(TokensOf(es), "");
    assert Print(es) + "" == Print(es) && TokensOf(es) + [] == TokensOf(es);
    assert Tokens("") == [];
    TokensReadBack(n, es, [], false);
  }

  /**
   Parse, print, parse: whatever text is accepted, printing what was read and reading it again
   gives the same list. The written lists are thus exactly the lists the parser produces.
   */
  lemma ParsePrintParse(n: Netip, text: string)
    requires Canonical(n) && ParseText(n, text).Read?
    ensures var es := ParseText(n, text).value;
            Written(n, es) && ParseText(n, Print(es)) == Read(es, [])
  {
    ListIsWritten(n, Tokens(text), false);
    PrintReadsBack(n, ParseText(n, text).value);
  }
}
