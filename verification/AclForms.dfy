/**
 What address-match-list text means, form by form (internal/config/match.go): how each kind of
 element is spelled, whom it accepts, and which texts are refused.
 */
module AclForms {
  import opened Wrappers
  import opened AclMatch
  import opened AclLexer
  import opened AclParse
  import opened NameText

  lemma NothingMore(n: Netip)
    ensures ParseList(n, [Semicolon], false) == Read([], [])
  {
    assert [Semicolon][1..] == [];
  }

  lemma Spread(negated: bool, t: Token, toks: seq<Token>)
    ensures (if negated then [Word("!")] else []) + [t] + toks + [Semicolon] ==
            if negated then [Word("!"), t] + (toks + [Semicolon]) else [t] + (toks + [Semicolon])
  {
  }

  /** A list of one element read from a token and the tokens behind it. */
  lemma OneElement(n: Netip, negated: bool, t: Token, toks: seq<Token>, f: Form)
    requires Begins(t) && !t.LBrace? && ParseItem(n, t, toks + [Semicolon]) == Read(f, [Semicolon])
    ensures ParseList(n, (if negated then [Word("!")] else []) + [t] + toks + [Semicolon], false) == Read([Element(negated, f)], [])
  {
    hide ParseList, ParseItem, Begins;
    NothingMore(n);
    Spread(negated, t, toks);
    ItemThenRest(n, t, toks + [Semicolon], f, [Semicolon], false);
    assert [Element(negated, f)] + [] == [Element(negated, f)];
  }

  /** The four built-in words, whatever their letter case and whether quoted or not. */
  lemma BuiltinWords(n: Netip, word: string, quoted: bool, negated: bool)
    requires word != "" && word[0] != '!'
    ensures var t := if quoted then Str(word) else Word(word);
            var read := ParseList(n, (if negated then [Word("!")] else []) + [t] + [] + [Semicolon], false);
            && (ToLower(word) == "any" ==> read == Read([Element(negated, Any)], []))
            && (ToLower(word) == "none" ==> read == Read([Element(negated, Form.None)], []))
            && (ToLower(word) == "localhost" ==> read == Read([Element(negated, Localhost)], []))
            && (ToLower(word) == "localnets" ==> read == Read([Element(negated, Localnets)], []))
  {
    var t := if quoted then Str(word) else Word(word);
    assert [] + [Semicolon] == [Semicolon];
    BuiltinCases(word);
    if Builtin(word).Some? {
      OneElement(n, negated, t, [], Builtin(word).value);
    }
    hide ParseList, Builtin, ToLower;
  }

  lemma BuiltinCases(word: string)
    ensures ToLower(word) == "any" ==> Builtin(word) == Some(Any)
    ensures ToLower(word) == "none" ==> Builtin(word) == Some(Form.None)
    ensures ToLower(word) == "localhost" ==> Builtin(word) == Some(Localhost)
    ensures ToLower(word) == "localnets" ==> Builtin(word) == Some(Localnets)
    ensures Builtin(word).Some? ==> ToLower(word) in {"any", "none", "localhost", "localnets"}
  {
    assert "localhost"[5] != "localnets"[5];
    hide ToLower;
  }

  /** Other words: a quoted one is a reference; a bare one is a prefix, else an address, else a reference. */
  lemma OtherWords(n: Netip, word: string, negated: bool)
    requires word != "" && word[0] != '!' && ToLower(word) !in {"any", "none", "localhost", "localnets"}
    ensures ParseList(n, (if negated then [Word("!")] else []) + [Str(word)] + [] + [Semicolon], false) ==
            Read([Element(negated, Ref(word, []))], [])
    ensures ToLower(word) != "geoip" ==>
              ParseList(n, (if negated then [Word("!")] else []) + [Word(word)] + [] + [Semicolon], false) ==
              Read([Element(negated, if n.prefix(word).Some? then Test(Cidr(n.prefix(word).value))
                                     else if n.addr(word).Some? then Test(Ip(n.addr(word).value))
                                     else Ref(word, []))], [])
  {
    assert [] + [Semicolon] == [Semicolon];
    BuiltinCases(word);
    OneElement(n, negated, Str(word), [], Ref(word, []));
    if ToLower(word) != "geoip" {
      OneElement(n, negated, Word(word), [],
                 if n.prefix(word).Some? then Test(Cidr(n.prefix(word).value))
                 else if n.addr(word).Some? then Test(Ip(n.addr(word).value)) else Ref(word, []));
    }
    hide ParseList, Builtin, ToLower;
  }

  /** The capital of a letter. */
  predicate CapitalOf(c: char, d: char) {
    (c == d && 'A' <= d <= 'Z') || ('a' <= c <= 'z' && d as int == c as int - 32)
  }

  /** Countries are two letters in either case, kept as capitals. */
  lemma CountryForm(n: Netip, code: string, capitals: string, negated: bool)
    requires |code| == |capitals| == 2 && CapitalOf(code[0], capitals[0]) && CapitalOf(code[1], capitals[1])
    ensures ParseList(n, (if negated then [Word("!")] else []) + [Word("geoip")] + [Word("country"), Word(code)] + [Semicolon], false) ==
            Read([Element(negated, Test(Country(capitals)))], [])
  {
    var toks := [Word("country"), Word(code)];
    var rest := toks + [Semicolon];
    WordClasses();
    TrimKeeps(code);
    assert IsoCountry(code) && Upper(code) == capitals;
    assert rest[1..] == [Word(code), Semicolon] && rest[1..][1..] == [Semicolon];
    hide Trim, IsoCountry, Upper, ParseAsn, Builtin, ToLower;
    assert ParseGeo(rest) == Read(Test(Country(capitals)), [Semicolon]);
    hide ParseGeo, ParseList;
    OneElement(n, negated, Word("geoip"), toks, Test(Country(capitals)));
  }

  /** AS numbers are "AS" and decimal digits, up to 4294967295. */
  lemma AsnForm(number: nat)
    ensures ParseAsn("AS" + ShowNat(number)) == if number <= 4294967295 then Read(number, []) else Failed(AsnOverflow)
  {
    var digits := ShowNat(number);
    var text := "AS" + digits;
    assert text[2..] == digits && text[..2] == "AS";
    DigitRunAll(digits);
    assert digits[..|digits|] == digits && text[2 + |digits|..] == [];
  }

  lemma {:induction false} DigitRunStops(digits: string, c: char, rest: string)
    requires (forall i :: 0 <= i < |digits| ==> IsDigit(digits[i])) && !IsDigit(c)
    ensures DigitRun(digits + [c] + rest) == |digits|
  {
    var all := digits + [c] + rest;
    if digits == [] {
      assert all == [c] + rest;
    } else {
      assert all[1..] == digits[1..] + [c] + rest;
      DigitRunStops(digits[1..], c, rest);
    }
  }

  /** Only white space may follow the digits, and only "AS" come before them. */
  lemma AsnEnds(number: nat, c: char, rest: string, raw: string)
    requires number <= 4294967295 && !('0' <= c <= '9')
    ensures ParseAsn("AS" + ShowNat(number) + [c] + rest) ==
            if c in {' ', '\t', '\n', '\r', 12 as char} then Read(number, []) else Failed(AsnInvalid)
    ensures |raw| >= 2 && (raw[0] != 'A' || raw[1] != 'S') ==> ParseAsn(raw) == Failed(AsnInvalid)
  {
    var digits := ShowNat(number);
    var text := "AS" + digits + [c] + rest;
    assert text[2..] == digits + [c] + rest && text[..2] == "AS";
    DigitRunStops(digits, c, rest);
    assert text[2..][..|digits|] == digits && text[2 + |digits|..] == [c] + rest;
    assert |raw| >= 2 ==> raw[..2] == [raw[0], raw[1]];
    assert "AS" == ['A', 'S'];
    hide ShowNat, DecimalValue;
  }

  predicate Blank(c: char) {
    c == ' ' || c == '\t' || c == '\n' || c == '\r' || c == 11 as char || c == 12 as char
  }

  /** White space around a value does not count, and nothing else is taken off. */
  lemma {:induction false} Trimmed(before: string, s: string, after: string)
    requires (forall i :: 0 <= i < |before| ==> Blank(before[i])) && forall i :: 0 <= i < |after| ==> Blank(after[i])
    requires s != [] && !Blank(s[0]) && !Blank(s[|s| - 1])
    ensures Trim(before + s + after) == s
  {
    TrimmedLeft(before, s + after);
    assert before + (s + after) == before + s + after;
    assert (s + after)[0] == s[0];
    TrimmedRight(s, after);
  }

  lemma {:induction false} TrimmedLeft(before: string, s: string)
    requires (forall i :: 0 <= i < |before| ==> Blank(before[i])) && s != [] && !Blank(s[0])
    ensures TrimLeft(before + s) == s
  {
    if before == [] {
      assert before + s == s;
    } else {
      assert (before + s)[1..] == before[1..] + s;
      TrimmedLeft(before[1..], s);
    }
  }

  lemma {:induction false} TrimmedRight(s: string, after: string)
    requires (forall i :: 0 <= i < |after| ==> Blank(after[i])) && s != [] && !Blank(s[|s| - 1])
    ensures TrimRight(s + after) == s
  {
    if after == [] {
      assert s + after == s;
    } else {
      var shorter := after[..|after| - 1];
      assert (s + after)[..|s + after| - 1] == s + shorter;
      TrimmedRight(s, shorter);
    }
  }

  /** Decimal digits have their usual values. */
  lemma DecimalDigits(s: string, d: nat)
    requires d < 10 && forall i :: 0 <= i < |s| ==> IsDigit(s[i])
    ensures var c := ('0' as int + d) as char;
            IsDigit(c) && DecimalValue([c]) == d && DecimalValue(s + [c]) == 10 * DecimalValue(s) + d
  {
    var c := ('0' as int + d) as char;
    assert [c][..0] == [] && (s + [c])[..|s|] == s;
  }

  /** A quoted word that is no built-in is a reference, a leading "!" included. */
  lemma QuotedReference(n: Netip, word: string, negated: bool)
    requires ToLower(word) !in {"any", "none", "localhost", "localnets"}
    ensures ParseList(n, (if negated then [Word("!")] else []) + [Str(word)] + [] + [Semicolon], false) ==
            Read([Element(negated, Ref(word, []))], [])
  {
    assert [] + [Semicolon] == [Semicolon];
    BuiltinCases(word);
    OneElement(n, negated, Str(word), [], Ref(word, []));
    hide ParseList, Builtin, ToLower;
  }

  // ----- how lists are put together

  /** A list read on from an element. */
  function With(e: Element, rest: Parsed<seq<Element>>): Parsed<seq<Element>> {
    match rest
    case Failed(error) => Failed(error)
    case Read(es, left) => Read([e] + es, left)
  }

  /** An item is followed by the rest of the list, with or without a semicolon in between. */
  lemma ItemThenRest(n: Netip, t: Token, toks: seq<Token>, f: Form, rest: seq<Token>, nested: bool)
    requires Begins(t) && !t.LBrace? && ParseItem(n, t, toks) == Read(f, rest)
    ensures ParseList(n, [t] + toks, nested) == With(Element(false, f), ParseList(n, rest, nested))
    ensures ParseList(n, [Word("!"), t] + toks, nested) == With(Element(true, f), ParseList(n, rest, nested))
    ensures ParseList(n, [Semicolon] + rest, nested) == ParseList(n, rest, nested)
  {
    ElementStarts(n, t, toks, nested);
    SemicolonSkipped(n, rest, nested);
    hide ParseList, ParseItem;
  }

  /** A group is what stands between its braces, followed by the rest of the list; if it does not read, nothing does. */
  lemma GroupThenRest(n: Netip, toks: seq<Token>, nested: bool)
    ensures var body := ParseList(n, toks, true);
            && (body.Read? ==>
                  && ParseList(n, [LBrace] + toks, nested) ==
                     With(Element(false, Group(body.value)), ParseList(n, body.rest, nested))
                  && ParseList(n, [Word("!"), LBrace] + toks, nested) ==
                     With(Element(true, Group(body.value)), ParseList(n, body.rest, nested)))
            && (body.Failed? ==> ParseList(n, [LBrace] + toks, nested) == Failed(body.error))
  {
    ElementStarts(n, LBrace, toks, nested);
    hide ParseList;
  }

  /** A closing brace ends a group, and leaves what follows. */
  lemma GroupEnds(n: Netip, toks: seq<Token>)
    ensures ParseList(n, [RBrace] + toks, true) == Read([], toks)
    ensures ParseList(n, [], false) == Read([], [])
  {
    assert ([RBrace] + toks)[1..] == toks;
  }

  /** A negation with nothing to negate is dropped. */
  lemma DanglingNegation(n: Netip, toks: seq<Token>, nested: bool)
    ensures ParseList(n, [Word("!"), Semicolon] + toks, nested) == ParseList(n, toks, nested)
    ensures ParseList(n, [Word("!")], nested) == ParseList(n, [], nested)
    ensures ParseList(n, [Word("!"), RBrace] + toks, nested) == ParseList(n, [RBrace] + toks, nested)
  {
    var semi, brace := [Word("!"), Semicolon] + toks, [Word("!"), RBrace] + toks;
    assert semi[1..] == [Semicolon] + toks && semi[1..][1..] == toks;
    assert brace[1..] == [RBrace] + toks && brace[1..][1..] == toks;
    assert [Word("!")][1..] == [] && ([RBrace] + toks)[1..] == toks;
    hide ParseElement;
  }

  // ----- refused texts

  /** A closing brace outside a group, a group that is not closed, and a double negation are errors. */
  lemma Refused(n: Netip, toks: seq<Token>, w: string)
    ensures ParseList(n, [RBrace] + toks, false) == Failed(UnexpectedBrace)
    ensures ParseList(n, [], true) == Failed(Unterminated)
    ensures ParseList(n, [LBrace], false) == Failed(Unterminated)
    ensures ParseList(n, [Word("!"), Word("!" + w)] + toks, false) == Failed(DoubleNegation)
    ensures ParseList(n, [Word("!!" + w)] + toks, false) == Failed(DoubleNegation)
  {
    assert [LBrace][1..] == [];
    assert ([Word("!"), Word("!" + w)] + toks)[1..] == [Word("!" + w)] + toks;
    assert ("!!" + w)[1..] == "!" + w && |"!!" + w| > 1;
    assert ([Word("!!" + w)] + toks)[1..] == toks && ([Word("!" + w)] + toks)[1..] == toks;
  }

  /** An error inside a list fails all of it. */
  lemma ErrorsSpread(n: Netip, t: Token, toks: seq<Token>, nested: bool)
    requires Begins(t) && !t.LBrace? && ParseItem(n, t, toks).Failed?
    ensures ParseList(n, [t] + toks, nested) == Failed(ParseItem(n, t, toks).error)
  {
    ElementStarts(n, t, toks, nested);
    hide ParseList, ParseItem;
  }

  /** The errors of a geographic element. */
  lemma GeoRefused(word: string, code: string, toks: seq<Token>)
    ensures ParseGeo([]) == Failed(GeoSubcommand) && ParseGeo([Str(word)] + toks) == Failed(GeoSubcommand)
    ensures ParseGeo([Word("country")]) == Failed(CountryMissing) && ParseGeo([Word("asnum")]) == Failed(AsnMissing)
    ensures ToLower(word) !in {"country", "asnum"} ==> ParseGeo([Word(word)] + toks) == Failed(GeoUnknown)
    ensures |code| == 2 && 'a' <= code[0] <= 'z' && '0' <= code[1] <= '9' ==>
              ParseGeo([Word("country"), Word(code)] + toks) == Failed(CountryInvalid)
  {
    WordClasses();
    assert [Word("country")][1..] == [] && [Word("asnum")][1..] == [];
    assert ([Word("country"), Word(code)] + toks)[1..] == [Word(code)] + toks;
    if |code| == 2 && 'a' <= code[0] <= 'z' && '0' <= code[1] <= '9' {
      TrimKeeps(code);
    }
    hide ToLower;
  }

  // ----- whom a text accepts

  /** The built-in words as whole lists: everyone, no one, the server itself, its networks. */
  lemma BuiltinListsAccept(n: Netip, c: Client)
    ensures var accepts := (word: string) =>
              var r := ParseList(n, [Word(word), Semicolon], false);
              r.Read? && ListAccepts(r.value, c, 0);
            accepts("any") && !accepts("none") && accepts("localhost") == c.localhost && accepts("localnets") == c.localnets
  {
    WordClasses();
    assert ToLower("any") == "any" && ToLower("none") == "none";
    assert ToLower("localhost") == "localhost" && ToLower("localnets") == "localnets";
    BuiltinWords(n, "any", false, false);
    BuiltinWords(n, "none", false, false);
    BuiltinWords(n, "localhost", false, false);
    BuiltinWords(n, "localnets", false, false);
    assert forall w: string :: [] + [Word(w)] + [] + [Semicolon] == [Word(w), Semicolon];
    SingleElementsAccept(c, Ip(""), "", []);
    hide ParseList, ListAccepts, ToLower, Builtin;
  }
}
