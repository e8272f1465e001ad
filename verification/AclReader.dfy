/**
 The parser as it runs (internal/config/match.go): it pulls tokens from the shared lexer and
 appends elements, and reads exactly what the parse of the remaining tokens says. A braced
 acl body (internal/config/zones.go) is cut out first and parsed on its own.
 */
module AclReader {
  import opened Wrappers
  import opened AclMatch
  import opened AclLexer
  import opened AclParse
  import opened NameText

  datatype Outcome<+T> = Done(value: T) | Fails(error: Error)

  /** The outcome o, with the tokens left, is the parse p. */
  ghost predicate Reads<T>(o: Outcome<T>, left: seq<Token>, p: Parsed<T>) {
    match p
    case Failed(e) => o == Fails(e)
    case Read(v, rest) => o == Done(v) && left == rest
  }

  /** A parse with elements read before it. */
  function Before(es: seq<Element>, p: Parsed<seq<Element>>): Parsed<seq<Element>> {
    match p
    case Failed(e) => Failed(e)
    case Read(v, rest) => Read(es + v, rest)
  }

  lemma BeforeOne(es: seq<Element>, e: Element, p: Parsed<seq<Element>>)
    ensures Before(es, Before([e], p)) == Before(es + [e], p)
  {
    if p.Read? {
      assert es + ([e] + p.value) == es + [e] + p.value;
    }
  }

  lemma BeforeNothing(p: Parsed<seq<Element>>)
    ensures Before([], p) == p
  {
    assert p.Read? ==> [] + p.value == p.value;
  }

  /** Reading one token off the text is reading it off its tokens. */
  lemma TokenTaken(s: string)
    ensures var r := Next(s); Tokens(s) == if r.0.Eof? then [] else [r.0] + Tokens(r.1)
    ensures Next(s).0.Eof? ==> Tokens(Next(s).1) == []
  {
    EofIsLast(s);
  }

  lemma {:induction false} EofIsLast(s: string)
    ensures Next(s).0.Eof? ==> Tokens(Next(s).1) == []
    decreases |s|
  {
    var t := SkipSpace(s);
    SpaceSkipped(s);
    BlankSkipped(s);
    if CommentStart(t) || (t != [] && t[0] == '#') {
      EofIsLast(AfterComment(t));
    }
  }

  /** What one turn of the element loop does. */
  datatype Step = Stop | Skip | Got(element: Element) | Bad(error: Error)

  /** Turn `step` took the tokens from `toks` to `left`. */
  ghost predicate Takes(step: Step, n: Netip, toks: seq<Token>, left: seq<Token>, nested: bool) {
    ParseList(n, toks, nested) ==
      match step
      case Stop => Read([], left)
      case Skip => ParseList(n, left, nested)
      case Got(e) => Before([e], ParseList(n, left, nested))
      case Bad(error) => Failed(error)
  }

  /** A token that ends the list, or may not stand here. */
  lemma EndTaken(n: Netip, toks: seq<Token>, nested: bool)
    ensures toks == [] ==> Takes(if nested then Bad(Unterminated) else Stop, n, toks, [], nested)
    ensures toks != [] && toks[0].RBrace? ==> Takes(if nested then Stop else Bad(UnexpectedBrace), n, toks, toks[1..], nested)
    ensures toks != [] && toks[0].Semicolon? ==> Takes(Skip, n, toks, toks[1..], nested)
  {
    hide ParseElement;
  }

  lemma BangEndTaken(n: Netip, toks: seq<Token>, nested: bool)
    requires toks != [] && toks[0] == Word("!")
    ensures var rest := toks[1..];
            && (rest == [] ==> Takes(if nested then Bad(Unterminated) else Stop, n, toks, [], nested))
            && (rest != [] && rest[0].RBrace? ==> Takes(if nested then Stop else Bad(UnexpectedBrace), n, toks, rest[1..], nested))
            && (rest != [] && rest[0].Semicolon? ==> Takes(Skip, n, toks, rest[1..], nested))
  {
    hide ParseElement;
  }

  /** The list starts with an element whose first token, negation off, is t, with `rest` after it. */
  ghost predicate StartsElement(toks: seq<Token>, negated: bool, t: Token, rest: seq<Token>) {
    && !t.Eof? && !t.RBrace? && !t.Semicolon?
    && (if !negated then toks == [t] + rest && !(t.Word? && StartsWithBang(t.text))
        else toks == [Word("!"), t] + rest || (t.Word? && t.text != "" && toks == [Word("!" + t.text)] + rest))
  }

  lemma ElementTaken(n: Netip, toks: seq<Token>, nested: bool, negated: bool, t: Token, rest: seq<Token>)
    requires StartsElement(toks, negated, t, rest)
    ensures ParseList(n, toks, nested) == ParseElement(n, negated, t, rest, nested)
  {
    hide ParseElement;
    if negated && toks == [Word("!"), t] + rest {
      assert toks[1..] == [t] + rest && toks[1..][1..] == rest;
    } else {
      assert toks[1..] == rest;
      assert negated ==> ("!" + t.text)[1..] == t.text && |"!" + t.text| > 1;
    }
  }

  /** Once the element's form is read, or has failed, the turn is done. */
  lemma FormTaken(n: Netip, toks: seq<Token>, nested: bool, negated: bool, t: Token, rest: seq<Token>,
                  o: Outcome<Form>, left: seq<Token>)
    requires StartsElement(toks, negated, t, rest) && !(t.Word? && StartsWithBang(t.text))
    requires Reads(o, left, ParseForm(n, t, rest))
    ensures Takes(if o.Done? then Got(Element(negated, o.value)) else Bad(o.error), n, toks, left, nested)
  {
    ElementTaken(n, toks, nested, negated, t, rest);
    hide ParseList, ParseForm;
  }

  lemma DoubleTaken(n: Netip, toks: seq<Token>, nested: bool, negated: bool, t: Token, rest: seq<Token>, left: seq<Token>)
    requires StartsElement(toks, negated, t, rest) && t.Word? && StartsWithBang(t.text)
    ensures Takes(Bad(DoubleNegation), n, toks, left, nested)
  {
    ElementTaken(n, toks, nested, negated, t, rest);
    hide ParseList;
  }

  /** Elements up to the end of the text, or up to the closing brace of a group. */
  method ParseElementList(lx: Lexer, n: Netip, nested: bool) returns (out: Outcome<seq<Element>>)
    requires lx.Valid()
    modifies lx
    ensures lx.Valid() && old(lx.pos) <= lx.pos
    ensures Reads(out, Tokens(lx.Remaining()), ParseList(n, Tokens(old(lx.Remaining())), nested))
    decreases |lx.input| - lx.pos, 2
  {
    ghost var whole := ParseList(n, Tokens(lx.Remaining()), nested);
    var elems: seq<Element> := [];
    BeforeNothing(whole);
    while true
      invariant lx.Valid() && old(lx.pos) <= lx.pos
      invariant whole == Before(elems, ParseList(n, Tokens(lx.Remaining()), nested))
      decreases |lx.input| - lx.pos
    {
      hide Tokens, ParseList;
      var step := ParseStep(lx, n, nested);
      match step
      case Stop =>
        assert elems + [] == elems;
        return Done(elems);
      case Skip =>
      case Bad(error) => return Fails(error);
      case Got(el) =>
        BeforeOne(elems, el, ParseList(n, Tokens(lx.Remaining()), nested));
        elems := elems + [el];
    }
  }

  /** One turn: a terminator, a separator, or an element with its negation. */
  method ParseStep(lx: Lexer, n: Netip, nested: bool) returns (step: Step)
    requires lx.Valid()
    modifies lx
    ensures lx.Valid() && old(lx.pos) <= lx.pos
    ensures step.Skip? || step.Got? ==> old(lx.pos) < lx.pos
    ensures Takes(step, n, Tokens(old(lx.Remaining())), Tokens(lx.Remaining()), nested)
    decreases |lx.input| - lx.pos, 1
  {
    hide Next, Tokens, Takes, Reads, StartsElement;
    ghost var text := lx.Remaining();
    ghost var toks := Tokens(text);
    var tok := lx.GetToken();
    TokenTaken(text);
    EndTaken(n, toks, nested);
    if tok.Eof? {
      return if nested then Bad(Unterminated) else Stop;
    }
    assert toks[1..] == Tokens(lx.Remaining());
    if tok.RBrace? {
      return if nested then Stop else Bad(UnexpectedBrace);
    }
    if tok.Semicolon? {
      return Skip;
    }
    var negated := false;
    if tok == Word("!") {
      negated := true;
      text := lx.Remaining();
      tok := lx.GetToken();
      TokenTaken(text);
      BangEndTaken(n, toks, nested);
      if tok.Eof? {
        return if nested then Bad(Unterminated) else Stop;
      }
      assert toks[1..][1..] == Tokens(lx.Remaining());
      if tok.RBrace? {
        return if nested then Stop else Bad(UnexpectedBrace);
      }
      if tok.Semicolon? {
        return Skip;
      }
      BangApart(toks, tok, Tokens(lx.Remaining()));
    } else if tok.Word? && StartsWithBang(tok.text) {
      negated := true;
      BangGlued(toks, tok, Tokens(lx.Remaining()));
      tok := Word(tok.text[1..]);
    } else {
      NoBang(toks, tok, Tokens(lx.Remaining()));
    }
    ghost var rest := Tokens(lx.Remaining());
    if tok.Word? && StartsWithBang(tok.text) {
      DoubleTaken(n, toks, nested, negated, tok, rest, rest);
      return Bad(DoubleNegation);
    }
    var form := ParseForms(lx, n, tok);
    FormTaken(n, toks, nested, negated, tok, rest, form, Tokens(lx.Remaining()));
    step := if form.Done? then Got(Element(negated, form.value)) else Bad(form.error);
  }

  lemma BangApart(toks: seq<Token>, t: Token, rest: seq<Token>)
    requires toks == [Word("!")] + ([t] + rest) && !t.Eof? && !t.RBrace? && !t.Semicolon?
    ensures StartsElement(toks, true, t, rest)
  {
  }

  lemma BangGlued(toks: seq<Token>, t: Token, rest: seq<Token>)
    requires toks == [t] + rest && t.Word? && StartsWithBang(t.text) && t != Word("!")
    ensures StartsElement(toks, true, Word(t.text[1..]), rest)
  {
    BangAndMore(t.text);
  }

  lemma BangAndMore(w: string)
    requires StartsWithBang(w) && w != "!"
    ensures w == "!" + w[1..] && w[1..] != ""
  {
    assert |w| == 1 ==> w == "!";
  }

  lemma NoBang(toks: seq<Token>, t: Token, rest: seq<Token>)
    requires toks == [t] + rest && !t.Eof? && !t.RBrace? && !t.Semicolon? && !(t.Word? && StartsWithBang(t.text))
    ensures StartsElement(toks, false, t, rest)
  {
  }

  /** A group, read recursively, or an item. */
  method ParseForms(lx: Lexer, n: Netip, tok: Token) returns (out: Outcome<Form>)
    requires lx.Valid()
    modifies lx
    ensures lx.Valid() && old(lx.pos) <= lx.pos
    ensures Reads(out, Tokens(lx.Remaining()), ParseForm(n, tok, Tokens(old(lx.Remaining()))))
    decreases |lx.input| - lx.pos, 3
  {
    if tok.LBrace? {
      hide ParseList, ParseItem, Tokens;
      var sub := ParseElementList(lx, n, true);
      match sub
      case Fails(e) => return Fails(e);
      case Done(body) => return Done(Group(body));
    }
    hide ParseList, ParseItem, Tokens;
    out := ParseItems(lx, n, tok);
  }

  method ParseItems(lx: Lexer, n: Netip, tok: Token) returns (out: Outcome<Form>)
    requires lx.Valid()
    modifies lx
    ensures lx.Valid() && old(lx.pos) <= lx.pos
    ensures Reads(out, Tokens(lx.Remaining()), ParseItem(n, tok, Tokens(old(lx.Remaining()))))
    decreases |lx.input| - lx.pos, 0
  {
    hide Builtin, ToLower, ParseGeo, Tokens;
    var word := TextOf(tok);
    var builtin := Builtin(word);
    if builtin.Some? {
      return Done(builtin.value);
    }
    if tok.Str? {
      return Done(Ref(word, []));
    }
    if ToLower(word) == "geoip" {
      out := ParseGeoIPElement(lx);
      return;
    }
    var prefix := n.prefix(word);
    if prefix.Some? {
      return Done(Test(Cidr(prefix.value)));
    }
    var addr := n.addr(word);
    if addr.Some? {
      return Done(Test(Ip(addr.value)));
    }
    out := Done(Ref(word, []));
  }

  method ParseGeoIPElement(lx: Lexer) returns (out: Outcome<Form>)
    requires lx.Valid()
    modifies lx
    ensures lx.Valid() && old(lx.pos) <= lx.pos
    ensures Reads(out, Tokens(lx.Remaining()), ParseGeo(Tokens(old(lx.Remaining()))))
  {
    hide Next, Tokens, ToLower, Trim, ParseAsn, IsoCountry, Upper;
    ghost var text := lx.Remaining();
    var sub := lx.GetToken();
    TokenTaken(text);
    if !sub.Word? {
      return Fails(GeoSubcommand);
    }
    ghost var rest := Tokens(lx.Remaining());
    assert Tokens(text)[1..] == rest;
    text := lx.Remaining();
    if ToLower(sub.text) == "country" {
      var val := lx.GetToken();
      TokenTaken(text);
      assert !val.Eof? ==> rest[1..] == Tokens(lx.Remaining());
      TrimNothing();
      var code := Trim(TextOf(val));
      if code == "" {
        return Fails(CountryMissing);
      }
      if !IsoCountry(code) {
        return Fails(CountryInvalid);
      }
      return Done(Test(Country(Upper(code))));
    }
    if ToLower(sub.text) == "asnum" {
      var val := lx.GetToken();
      TokenTaken(text);
      assert !val.Eof? ==> rest[1..] == Tokens(lx.Remaining());
      TrimNothing();
      NoAsn();
      var asn := ParseAsn(Trim(TextOf(val)));
      if asn.Failed? {
        return Fails(asn.error);
      }
      return Done(Test(Asn(asn.value)));
    }
    out := Fails(GeoUnknown);
  }

  lemma TrimNothing()
    ensures Trim("") == ""
  {
  }

  lemma NoAsn()
    ensures ParseAsn("").Failed?
  {
  }

  // ----- braced bodies

  /** The depth after some tokens, as long as it stays positive. */
  function Level(toks: seq<Token>, depth: nat): nat {
    if toks == [] || depth == 0 then depth
    else Level(toks[1..], if toks[0].LBrace? then depth + 1 else if toks[0].RBrace? then depth - 1 else depth)
  }

  lemma {:induction false} LevelConcat(x: seq<Token>, y: seq<Token>, depth: nat)
    requires Level(x, depth) > 0
    ensures Level(x + y, depth) == Level(y, Level(x, depth))
  {
    if x == [] {
      assert x + y == y;
    } else if depth > 0 {
      assert (x + y)[1..] == x[1..] + y;
      LevelConcat(x[1..], y, if x[0].LBrace? then depth + 1 else if x[0].RBrace? then depth - 1 else depth);
    }
  }

  lemma {:induction false} ListIsBalanced(es: seq<Element>, depth: nat)
    requires depth > 0
    ensures Level(TokensOf(es), depth) == depth
    decreases es
  {
    if es != [] {
      var ts := ElementTokens(es[0]);
      var bang := if es[0].negated then [Word("!")] else [];
      assert es decreases to es[0];
      ElementIsBalanced(es[0], depth);
      ListIsBalanced(es[1..], depth);
      hide ElementTokens;
      assert Level(bang, depth) == depth && Level([Semicolon], depth) == depth;
      LevelConcat(bang, ts, depth);
      LevelConcat(bang + ts, [Semicolon], depth);
      LevelConcat(bang + ts + [Semicolon], TokensOf(es[1..]), depth);
    }
  }

  lemma {:induction false} ElementIsBalanced(e: Element, depth: nat)
    requires depth > 0
    ensures Level(ElementTokens(e), depth) == depth
    decreases e
  {
    match e.form
    case Group(body) =>
      ListIsBalanced(body, depth + 1);
      var inner := TokensOf(body);
      assert Level([LBrace], depth) == depth + 1;
      LevelConcat([LBrace], inner, depth);
      LevelConcat([LBrace] + inner, [RBrace], depth);
    case Test(Country(code)) => FlatIsBalanced(ElementTokens(e), depth);
    case Test(Asn(number)) => FlatIsBalanced(ElementTokens(e), depth);
    case _ => FlatIsBalanced(ElementTokens(e), depth);
  }

  lemma {:induction false} FlatIsBalanced(toks: seq<Token>, depth: nat)
    requires depth > 0 && forall i :: 0 <= i < |toks| ==> !toks[i].LBrace? && !toks[i].RBrace?
    ensures Level(toks, depth) == depth
  {
    if toks != [] { FlatIsBalanced(toks[1..], depth); }
  }

  lemma {:induction false} ScanShown(toks: seq<Token>, s: string, depth: nat)
    requires depth > 0 && Level(toks, depth) > 0
    requires forall i :: 0 <= i < |toks| ==> Writable(toks[i])
    ensures Scan(Show(toks) + s, depth) == AclLexer.After(toks, Scan(s, Level(toks, depth)))
  {
    hide Show, ShowToken, Scan, Next, Writable;
    if toks == [] {
      ShowNothing(s);
      AfterNothing(Scan(s, depth));
    } else {
      var t, rest := toks[0], Show(toks[1..]) + s;
      ShowSplit(toks, s);
      TokenReadsBack(t, rest);
      ScanStep(ShowToken(t) + " " + rest, depth);
      var deeper := if t.LBrace? then depth + 1 else if t.RBrace? then depth - 1 else depth;
      assert deeper > 0;
      ScanSpace(rest, deeper);
      ScanShown(toks[1..], s, deeper);
      AfterBoth(t, toks[1..], Scan(s, Level(toks[1..], deeper)));
      assert [t] + toks[1..] == toks;
      WritableIsNotEof(t);
    }
  }

  lemma WritableIsNotEof(t: Token)
    requires Writable(t)
    ensures !t.Eof?
  {
  }

  lemma AfterBoth(t: Token, toks: seq<Token>, o: Option<Cut>)
    ensures AclLexer.After([t], AclLexer.After(toks, o)) == AclLexer.After([t] + toks, o)
  {
    if o.Some? {
      assert [t] + (toks + o.value.tokens) == [t] + toks + o.value.tokens;
    }
  }

  lemma ScanSpace(s: string, depth: nat)
    requires depth > 0
    ensures Scan(" " + s, depth) == Scan(s, depth)
  {
    assert (" " + s)[1..] == s;
    BlankSkipped(s);
    BlankSkipped(" " + s);
    ScanStep(s, depth);
    ScanStep(" " + s, depth);
    hide Next, Scan;
  }

  /**
   The round trip through a file: a list printed between braces, with anything after it, is cut
   out at its own closing brace, reads back as the list, and leaves what follows.
   */
  lemma BracedListReadsBack(n: Netip, es: seq<Element>, after: string)
    requires Written(n, es)
    ensures var text := "{" + Print(es) + "}" + after;
            && Next(text) == (LBrace, Print(es) + ("}" + after))
            && Scan(Next(text).1, 1) == Some(Cut(TokensOf(es), after))
            && ParseList(n, TokensOf(es), false) == Read(es, [])
  {
    var text, rest := "{" + Print(es) + "}" + after, "}" + after;
    assert text[1..] == Print(es) + rest;
    BraceNext(Print(es) + rest, '{');
    BraceNext(after, '}');
    assert "{" + (Print(es) + rest) == text;
    hide Next, Writable, Written, Level, Show, TokensOf, ParseList;
    PrintedTokensAreWritable(n, es);
    ListIsBalanced(es, 1);
    ScanShown(TokensOf(es), rest, 1);
    ScanStep(rest, 1);
    assert TokensOf(es) + [] == TokensOf(es);
    TokensReadBack(n, es, [], false);
    hide Scan;
  }

  lemma BraceNext(s: string, c: char)
    requires c == '{' || c == '}'
    ensures Next([c] + s) == (if c == '{' then LBrace else RBrace, s)
  {
    assert ([c] + s)[1..] == s;
  }

  /** Reads a braced list: the body is cut out by brace depth and parsed on its own. */
  method ReadBracedList(lx: Lexer, n: Netip) returns (out: Option<Outcome<seq<Element>>>)
    requires lx.Valid()
    modifies lx
    ensures lx.Valid()
    ensures var open := Next(old(lx.Remaining()));
            && (out.Some? <==> open.0.LBrace? && Scan(open.1, 1).Some?)
            && (out.Some? ==>
                  && lx.Remaining() == Scan(open.1, 1).value.rest
                  && Reads(out.value, [], ParseList(n, Scan(open.1, 1).value.tokens, false)))
  {
    hide Next, Tokens, Scan, ParseList;
    var body := lx.ReadBracedBodyRaw();
    if body.None? {
      return Option.None;
    }
    var inner := new Lexer(body.value);
    var elems := ParseElementList(inner, n, false);
    TopLevelReadsAll(n, Tokens(body.value));
    out := Some(elems);
  }

  lemma TopLevelReadsAll(n: Netip, toks: seq<Token>)
    ensures var p := ParseList(n, toks, false); p.Read? ==> p.rest == []
  {
  }
}
