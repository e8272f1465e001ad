/**
 How configuration text is laid out (internal/config/options.go): white space and the three kinds
 of comments between tokens do not matter, and where a word, a string or a comment ends. The
 characters are spelled out here, independently of the lexer's own definitions.
 */
module Layout {
  import opened Wrappers
  import opened AclLexer
  import opened AclParse

  // ----- gaps between tokens

  /** One piece of a gap: a blank, a line comment of either kind with its newline, a block comment. */
  datatype Piece = Blank(c: char) | Hash(text: string) | Slashes(text: string) | Block(text: string)

  /** A line comment holds no newline, a block comment no closing mark before its own. */
  predicate Fits(p: Piece) {
    match p
    case Blank(c) => c == ' ' || c == '\t' || c == '\r' || c == '\n'
    case Hash(text) => '\n' !in text
    case Slashes(text) => '\n' !in text
    case Block(text) =>
      forall i :: 0 <= i < |text| && text[i] == '*' ==> (text + "*")[i + 1] != '/'
  }

  function Spelling(p: Piece): string {
    match p
    case Blank(c) => [c]
    case Hash(text) => "#" + text + "\n"
    case Slashes(text) => "//" + text + "\n"
    case Block(text) => "/*" + text + "*/"
  }

  lemma {:induction false} LineEnds(text: string, s: string)
    requires '\n' !in text
    ensures SkipLine(text + "\n" + s) == "\n" + s
    ensures SkipLine(text) == []
  {
    var all := text + "\n" + s;
    if text != [] {
      LineEnds(text[1..], s);
      assert all[1..] == text[1..] + "\n" + s;
    } else {
      assert all == "\n" + s;
    }
  }

  lemma {:induction false} BlockEnds(text: string, s: string)
    requires Fits(Block(text))
    ensures SkipBlock(text + "*/" + s) == s
  {
    var all := text + "*/" + s;
    if text == [] {
      assert all == "*/" + s && all[2..] == s;
    } else {
      forall i | 0 <= i < |text[1..]| && text[1..][i] == '*' ensures (text[1..] + "*")[i + 1] != '/' {
        assert (text + "*")[i + 2] == (text[1..] + "*")[i + 1];
      }
      BlockEnds(text[1..], s);
      assert all[1..] == text[1..] + "*/" + s;
      assert (text + "*")[1] == all[1];
    }
  }

  lemma BlankIgnored(c: char, s: string)
    requires Fits(Blank(c))
    ensures Next([c] + s) == Next(s)
  {
    assert ([c] + s)[1..] == s;
    BlankSkipped(s);
    BlankSkipped([c] + s);
    hide Next;
  }

  /** A text that starts with a comment lexes like the text behind the comment. */
  lemma CommentSkipped(text: string, behind: string)
    requires text != [] && (text[0] == '#' || CommentStart(text))
    requires behind == if text[0] == '#' then SkipLine(text[1..]) else if text[1] == '/' then SkipLine(text[2..]) else SkipBlock(text[2..])
    ensures Next(text) == Next(behind)
  {
    NextBehindSpace(text, text);
    hide Next, SkipLine, SkipBlock;
  }

  /** A blank or a comment in front of a text does not matter. */
  lemma PieceIgnored(p: Piece, s: string)
    requires Fits(p)
    ensures Next(Spelling(p) + s) == Next(s) && Tokens(Spelling(p) + s) == Tokens(s)
  {
    var text := Spelling(p) + s;
    match p {
      case Blank(c) => BlankIgnored(c, s);
      case Hash(c) => HashIgnored(c, s);
      case Slashes(c) => SlashesIgnored(c, s);
      case Block(c) => BlockIgnored(c, s);
    }
    hide Next, Fits;
  }

  lemma HashIgnored(c: string, s: string)
    requires '\n' !in c
    ensures Next("#" + c + "\n" + s) == Next(s)
  {
    var text := "#" + c + "\n" + s;
    assert text[1..] == c + "\n" + s;
    LineEnds(c, s);
    NewlineIgnored(s);
    hide Next, SkipLine;
    CommentSkipped(text, "\n" + s);
  }

  lemma SlashesIgnored(c: string, s: string)
    requires '\n' !in c
    ensures Next("//" + c + "\n" + s) == Next(s)
  {
    var text := "//" + c + "\n" + s;
    assert text[2..] == c + "\n" + s;
    LineEnds(c, s);
    NewlineIgnored(s);
    hide Next, SkipLine;
    CommentSkipped(text, "\n" + s);
  }

  lemma BlockIgnored(c: string, s: string)
    requires Fits(Block(c))
    ensures Next("/*" + c + "*/" + s) == Next(s)
  {
    var text := "/*" + c + "*/" + s;
    assert text[2..] == c + "*/" + s;
    BlockEnds(c, s);
    hide Next, SkipBlock;
    CommentSkipped(text, s);
  }

  lemma NewlineIgnored(s: string)
    ensures Next("\n" + s) == Next(s)
  {
    assert ("\n" + s)[1..] == s;
    BlankSkipped(s);
    BlankSkipped("\n" + s);
  }

  function Gap(ps: seq<Piece>): string {
    if ps == [] then [] else Spelling(ps[0]) + Gap(ps[1..])
  }

  /** Blanks and comments may stand anywhere between tokens, in any number and any mix. */
  lemma {:induction false} GapIgnored(ps: seq<Piece>, s: string)
    requires forall i :: 0 <= i < |ps| ==> Fits(ps[i])
    ensures Next(Gap(ps) + s) == Next(s) && Tokens(Gap(ps) + s) == Tokens(s)
  {
    hide Next, Tokens, Spelling, Fits;
    if ps == [] {
      assert Gap(ps) + s == s;
    } else {
      GapIgnored(ps[1..], s);
      PieceIgnored(ps[0], Gap(ps[1..]) + s);
      assert Gap(ps) + s == Spelling(ps[0]) + (Gap(ps[1..]) + s);
    }
  }

  /** So may they behind a printed token. */
  lemma GapBehindToken(t: Token, ps: seq<Piece>, s: string)
    requires Writable(t) && forall i :: 0 <= i < |ps| ==> Fits(ps[i])
    ensures Tokens(ShowToken(t) + " " + (Gap(ps) + s)) == [t] + Tokens(s)
  {
    GapIgnored(ps, s);
    TokenStep(t, Gap(ps) + s);
  }

  /** A comment that the text ends in hides all the rest of it. */
  lemma OpenComment(c: string)
    ensures '\n' !in c ==> Tokens("#" + c) == [] && Tokens("//" + c) == []
    ensures (forall i :: 0 <= i < |c| - 1 ==> !(c[i] == '*' && c[i + 1] == '/')) ==> Tokens("/*" + c) == []
  {
    assert ("#" + c)[1..] == c && ("//" + c)[2..] == c && ("/*" + c)[2..] == c;
    assert Next("").0 == Eof;
    if '\n' !in c {
      LineEnds(c, "");
      hide Next, SkipLine, SkipBlock;
      CommentSkipped("#" + c, "");
      CommentSkipped("//" + c, "");
    }
    if forall i :: 0 <= i < |c| - 1 ==> !(c[i] == '*' && c[i + 1] == '/') {
      BlockNeverEnds(c);
      hide Next, SkipLine, SkipBlock;
      CommentSkipped("/*" + c, "");
    }
  }

  lemma {:induction false} BlockNeverEnds(c: string)
    requires forall i :: 0 <= i < |c| - 1 ==> !(c[i] == '*' && c[i + 1] == '/')
    ensures SkipBlock(c) == []
  {
    if |c| >= 2 {
      forall i | 0 <= i < |c[1..]| - 1 ensures !(c[1..][i] == '*' && c[1..][i + 1] == '/') {
        assert c[1..][i] == c[i + 1] && c[1..][i + 1] == c[i + 2];
      }
      BlockNeverEnds(c[1..]);
    }
  }

  // ----- where tokens end

  /** The characters that end a word. */
  predicate Ends(c: char) {
    c == ' ' || c == '\t' || c == '\r' || c == '\n' || c == '{' || c == '}' || c == ';' || c == '"' || c == '#'
  }

  /** A slash and a slash or star open a comment. */
  predicate Opens(s: string) {
    |s| > 1 && s[0] == '/' && (s[1] == '/' || s[1] == '*')
  }

  /** No character of w ends a word, and no comment opens at one, even with s behind. */
  predicate PlainBefore(w: string, s: string) {
    forall i :: 0 <= i < |w| ==> !Ends(w[i]) && !Opens(w[i..] + s)
  }

  /** A word goes on exactly up to the first blank, brace, semicolon, quote, hash or comment. */
  lemma {:induction false} WordEndsThere(w: string, s: string)
    requires PlainBefore(w, s) && (s == [] || Ends(s[0]) || Opens(s))
    ensures ReadWord(w + s) == (w, s)
  {
    if w == [] {
      assert w + s == s;
    } else {
      var text := w + s;
      assert w[0..] == w && text[1..] == w[1..] + s;
      forall i | 0 <= i < |w[1..]| ensures !Ends(w[1..][i]) && !Opens(w[1..][i..] + s) {
        assert w[1..][i] == w[i + 1] && w[1..][i..] == w[i + 1..];
      }
      WordEndsThere(w[1..], s);
      assert [w[0]] + w[1..] == w;
    }
  }

  lemma WordToken(w: string, s: string)
    requires w != [] && PlainBefore(w, s) && (s == [] || Ends(s[0]) || Opens(s))
    ensures Next(w + s) == (Word(w), s)
  {
    WordEndsThere(w, s);
    assert w[0..] == w;
    NextBehindSpace(w + s, w + s);
    hide Next, ReadWord;
  }

  /** A blank or a comment right behind a word ends it and does not matter otherwise. */
  lemma PieceBehindWord(w: string, p: Piece, s: string)
    requires Fits(p) && w != [] && PlainBefore(w, Spelling(p) + s)
    ensures Tokens(w + (Spelling(p) + s)) == [Word(w)] + Tokens(s)
  {
    var behind := Spelling(p) + s;
    assert Ends(behind[0]) || Opens(behind);
    WordToken(w, behind);
    PieceIgnored(p, s);
    hide Next, Spelling, PlainBefore;
  }

  /** Braces and semicolons are tokens of their own. */
  lemma MarkTokens(s: string)
    ensures Next("{" + s) == (LBrace, s) && Next("}" + s) == (RBrace, s) && Next(";" + s) == (Semicolon, s)
  {
    assert ("{" + s)[1..] == s && ("}" + s)[1..] == s && (";" + s)[1..] == s;
  }

  /** Text between quotes, or up to the end of the text, without quotes and backslashes in it. */
  lemma {:induction false} PlainString(a: string, s: string)
    requires '"' !in a && '\\' !in a
    ensures ReadString(a + "\"" + s) == (a, s)
    ensures ReadString(a) == (a, "")
  {
    var text := a + "\"" + s;
    if a == [] {
      assert text == "\"" + s && text[1..] == s;
    } else {
      PlainString(a[1..], s);
      assert text[1..] == a[1..] + "\"" + s;
      assert [a[0]] + a[1..] == a;
    }
  }

  /** A backslash stands for the character behind it, whatever that is. */
  lemma {:induction false} EscapedString(a: string, c: char, b: string, s: string)
    requires '"' !in a && '\\' !in a && '"' !in b && '\\' !in b
    ensures ReadString(a + ['\\', c] + b + "\"" + s) == (a + [c] + b, s)
  {
    var text := a + ['\\', c] + b + "\"" + s;
    if a == [] {
      PlainString(b, s);
      assert text[2..] == b + "\"" + s;
      assert [] + [c] + b == [c] + b;
    } else {
      EscapedString(a[1..], c, b, s);
      assert text[1..] == a[1..] + ['\\', c] + b + "\"" + s;
      assert [a[0]] + (a[1..] + [c] + b) == a + [c] + b;
    }
  }

  lemma StringTokens(a: string, c: char, b: string, s: string)
    requires '"' !in a && '\\' !in a && '"' !in b && '\\' !in b
    ensures Next("\"" + (a + "\"" + s)) == (Str(a), s)
    ensures Next("\"" + (a + ['\\', c] + b + "\"" + s)) == (Str(a + [c] + b), s)
    ensures Next("\"" + a) == (Str(a), "")
  {
    PlainString(a, s);
    EscapedString(a, c, b, s);
    QuoteStarts(a + "\"" + s);
    QuoteStarts(a + ['\\', c] + b + "\"" + s);
    QuoteStarts(a);
    hide *;
  }

  lemma QuoteStarts(s: string)
    ensures Next("\"" + s) == (Str(ReadString(s).0), ReadString(s).1)
  {
    assert ("\"" + s)[1..] == s;
    NextBehindSpace("\"" + s, "\"" + s);
    hide ReadString;
  }
}
