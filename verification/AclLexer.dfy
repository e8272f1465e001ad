/**
 The configuration lexer (internal/config/options.go): its tokens as a function of the
 remaining text, the object that walks the text, and the brace scanner of
 internal/config/zones.go. Line numbers are not modelled.
 */
module AclLexer {
  import opened Wrappers

  datatype Token = Eof | LBrace | RBrace | Semicolon | Word(text: string) | Str(value: string)

  predicate IsSpace(c: char) {
    c == ' ' || c == '\t' || c == '\r' || c == '\n'
  }

  function SkipSpace(s: string): (r: string)
    ensures |r| <= |s|
    ensures r != [] ==> !IsSpace(r[0])
  {
    if s != [] && IsSpace(s[0]) then SkipSpace(s[1..]) else s
  }

  /** A line comment ends before its newline. */
  function SkipLine(s: string): (r: string)
    ensures |r| <= |s|
  {
    if s == [] || s[0] == '\n' then s else SkipLine(s[1..])
  }

  /** The text after a block comment, given the text after its opening; all of it if unclosed. */
  function SkipBlock(s: string): (r: string)
    ensures |r| <= |s|
  {
    if |s| < 2 then []
    else if s[0] == '*' && s[1] == '/' then s[2..]
    else SkipBlock(s[1..])
  }

  /** A quoted string after its opening quote: its value, backslashes taken off, and what follows. */
  function ReadString(s: string): (r: (string, string))
    ensures |r.1| <= |s|
  {
    if s == [] then ([], [])
    else if s[0] == '"' then ([], s[1..])
    else if s[0] == '\\' && |s| > 1 then
      var r := ReadString(s[2..]);
      ([s[1]] + r.0, r.1)
    else
      var r := ReadString(s[1..]);
      ([s[0]] + r.0, r.1)
  }

  predicate CommentStart(s: string) {
    |s| > 1 && s[0] == '/' && (s[1] == '/' || s[1] == '*')
  }

  predicate EndsWord(s: string) {
    s == [] || IsSpace(s[0]) || s[0] in {'{', '}', ';', '"', '#'} || CommentStart(s)
  }

  function ReadWord(s: string): (r: (string, string))
    ensures |r.0| + |r.1| == |s|
    ensures !EndsWord(s) ==> |r.1| < |s|
  {
    if EndsWord(s) then ([], s)
    else
      var r := ReadWord(s[1..]);
      ([s[0]] + r.0, r.1)
  }

  /** The next token and the text after it. */
  function Next(s: string): (r: (Token, string))
    ensures |r.1| <= |s|
    ensures !r.0.Eof? ==> |r.1| < |s|
    decreases |s|
  {
    var t := SkipSpace(s);
    if t == [] then (Eof, [])
    else if CommentStart(t) && t[1] == '/' then Next(SkipLine(t[2..]))
    else if CommentStart(t) then Next(SkipBlock(t[2..]))
    else if t[0] == '#' then Next(SkipLine(t[1..]))
    else TokenHere(t)
  }

  /** The token a text starts with, when that is neither white space nor a comment. */
  function TokenHere(t: string): (r: (Token, string))
    requires t != [] && !IsSpace(t[0]) && !CommentStart(t) && t[0] != '#'
    ensures !r.0.Eof? && |r.1| < |t|
  {
    if t[0] == '{' then (LBrace, t[1..])
    else if t[0] == '}' then (RBrace, t[1..])
    else if t[0] == ';' then (Semicolon, t[1..])
    else if t[0] == '"' then
      var r := ReadString(t[1..]);
      (Str(r.0), r.1)
    else
      var r := ReadWord(t);
      (Word(r.0), r.1)
  }

  /** The token, once white space is skipped. */
  lemma NextBehindSpace(s: string, t: string)
    requires t == SkipSpace(s)
    ensures t == [] ==> Next(s) == (Eof, [])
    ensures t != [] && CommentStart(t) ==> Next(s) == Next(if t[1] == '/' then SkipLine(t[2..]) else SkipBlock(t[2..]))
    ensures t != [] && t[0] == '#' ==> Next(s) == Next(SkipLine(t[1..]))
    ensures t != [] && !CommentStart(t) && t[0] != '#' ==> !IsSpace(t[0]) && Next(s) == TokenHere(t)
  {
    hide SkipLine, SkipBlock, ReadString, ReadWord;
  }

  /** Every token up to the end of the text. */
  function Tokens(s: string): seq<Token>
    decreases |s|
  {
    var r := Next(s);
    if r.0.Eof? then [] else [r.0] + Tokens(r.1)
  }

  // ----- cutting out a braced body

  datatype Cut = Cut(tokens: seq<Token>, rest: string)

  /** The tokens up to the brace that closes `depth` open ones, and the text after that brace. */
  function Scan(s: string, depth: nat): (r: Option<Cut>)
    requires depth >= 1
    ensures r.Some? ==> |r.value.rest| < |s|
    decreases |s|
  {
    var n := Next(s);
    if n.0.Eof? then None
    else if n.0.RBrace? && depth == 1 then Some(Cut([], n.1))
    else
      var deeper := if n.0.LBrace? then depth + 1 else if n.0.RBrace? then depth - 1 else depth;
      match Scan(n.1, deeper)
      case None => None
      case Some(c) => Some(Cut([n.0] + c.tokens, c.rest))
  }

  class Lexer {
    const input: string
    var pos: nat

    predicate Valid()
      reads this
    {
      pos <= |input|
    }

    /** The text not yet read. */
    function Remaining(): string
      requires Valid()
      reads this
    {
      input[pos..]
    }

    constructor (text: string)
      ensures Valid() && input == text && Remaining() == text
    {
      input, pos := text, 0;
    }

    /** The next token, skipping white space and comments. */
    method GetToken() returns (tok: Token)
      requires Valid()
      modifies this
      ensures Valid() && old(pos) <= pos
      ensures (tok, Remaining()) == Next(old(Remaining()))
    {
      ghost var start := Remaining();
      hide Next, TokenHere, SkipSpace, SkipLine, SkipBlock, EndsWord, IsSpace;
      while true
        invariant Valid() && old(pos) <= pos
        invariant Next(Remaining()) == Next(start)
        decreases |input| - pos
      {
        ghost var before := Remaining();
        SkipWhitespace();
        NextBehindSpace(before, Remaining());
        if pos >= |input| {
          return Eof;
        }
        var ch := input[pos];
        if ch == '/' && pos + 1 < |input| {
          var next := input[pos + 1];
          if next == '/' {
            SkipLineComment(2);
            continue;
          }
          if next == '*' {
            SkipBlockComment();
            continue;
          }
        }
        if ch == '#' {
          SkipLineComment(1);
          continue;
        }
        tok := ReadTokenHere();
        return;
      }
    }

    /** The token at the present position. */
    method ReadTokenHere() returns (tok: Token)
      requires Valid() && pos < |input|
      requires !IsSpace(input[pos]) && !CommentStart(Remaining()) && input[pos] != '#'
      modifies this
      ensures Valid() && old(pos) <= pos
      ensures (tok, Remaining()) == TokenHere(old(Remaining()))
    {
      hide IsSpace, CommentStart, ReadString, ReadWord;
      var ch := input[pos];
      if ch == '{' {
        pos := pos + 1;
        return LBrace;
      }
      if ch == '}' {
        pos := pos + 1;
        return RBrace;
      }
      if ch == ';' {
        pos := pos + 1;
        return Semicolon;
      }
      if ch == '"' {
        tok := ReadQuotedString();
        return;
      }
      tok := ReadWordToken();
    }

    /** The next token, left in place. */
    method Peek() returns (tok: Token)
      requires Valid()
      modifies this
      ensures Valid() && pos == old(pos) && tok == Next(Remaining()).0
    {
      var saved := pos;
      tok := GetToken();
      pos := saved;
    }

    method SkipWhitespace()
      requires Valid()
      modifies this
      ensures Valid() && old(pos) <= pos && Remaining() == SkipSpace(old(Remaining()))
      ensures pos < |input| ==> !IsSpace(input[pos])
      ensures Next(Remaining()) == Next(old(Remaining()))
    {
      ghost var start := Remaining();
      while pos < |input| && IsSpace(input[pos])
        invariant Valid() && old(pos) <= pos
        invariant SkipSpace(Remaining()) == SkipSpace(start)
      {
        pos := pos + 1;
      }
      BlankSkipped(start);
    }

    /** Skips a line comment whose opening takes `opening` characters, which are not newlines. */
    method SkipLineComment(ghost opening: nat)
      requires Valid() && 1 <= opening && pos + opening <= |input|
      requires forall i :: pos <= i < pos + opening ==> input[i] != '\n'
      modifies this
      ensures Valid() && old(pos) < pos && Remaining() == SkipLine(old(Remaining())[opening..])
    {
      ghost var start := Remaining();
      assert SkipLine(start) == SkipLine(start[opening..]) by { SkipLineOpening(start, opening); }
      while pos < |input| && input[pos] != '\n'
        invariant Valid() && old(pos) <= pos
        invariant SkipLine(Remaining()) == SkipLine(start)
        invariant pos == old(pos) ==> input[pos] != '\n'
      {
        pos := pos + 1;
      }
    }

    method SkipBlockComment()
      requires Valid() && pos + 2 <= |input|
      modifies this
      ensures Valid() && old(pos) < pos && Remaining() == SkipBlock(old(Remaining())[2..])
    {
      ghost var start := Remaining()[2..];
      pos := pos + 2;
      while pos + 1 < |input|
        invariant Valid() && old(pos) + 2 <= pos
        invariant SkipBlock(Remaining()) == SkipBlock(start)
      {
        if input[pos] == '*' && input[pos + 1] == '/' {
          pos := pos + 2;
          return;
        }
        pos := pos + 1;
      }
      pos := |input|;
    }

    method ReadQuotedString() returns (tok: Token)
      requires Valid() && pos < |input|
      modifies this
      ensures Valid() && old(pos) < pos
      ensures var r := ReadString(old(Remaining())[1..]); tok == Str(r.0) && Remaining() == r.1
    {
      ghost var start := Remaining()[1..];
      pos := pos + 1;
      var sb := "";
      assert Remaining() == start && sb + ReadString(start).0 == ReadString(start).0;
      while pos < |input|
        invariant Valid() && old(pos) < pos
        invariant ReadString(start) == (sb + ReadString(Remaining()).0, ReadString(Remaining()).1)
      {
        ghost var here := Remaining();
        var ch := input[pos];
        if ch == '"' {
          pos := pos + 1;
          return Str(sb);
        }
        if ch == '\\' && pos + 1 < |input| {
          pos := pos + 1;
          sb := sb + [input[pos]];
          pos := pos + 1;
          assert Remaining() == here[2..];
          PushFront(sb[..|sb| - 1], here[1], ReadString(here[2..]).0);
          continue;
        }
        sb := sb + [ch];
        pos := pos + 1;
        assert Remaining() == here[1..];
        PushFront(sb[..|sb| - 1], ch, ReadString(here[1..]).0);
      }
      tok := Str(sb);
    }

    method ReadWordToken() returns (tok: Token)
      requires Valid()
      modifies this
      ensures Valid() && old(pos) <= pos
      ensures var r := ReadWord(old(Remaining())); tok == Word(r.0) && Remaining() == r.1
    {
      ghost var origin := Remaining();
      var start := pos;
      assert input[start..pos] + ReadWord(origin).0 == ReadWord(origin).0;
      while pos < |input|
        invariant Valid() && start <= pos
        invariant ReadWord(origin) == (input[start..pos] + ReadWord(Remaining()).0, ReadWord(Remaining()).1)
      {
        var ch := input[pos];
        if IsSpace(ch) || ch in {'{', '}', ';', '"'} {
          break;
        }
        if ch == '/' && pos + 1 < |input| && (input[pos + 1] == '/' || input[pos + 1] == '*') {
          break;
        }
        if ch == '#' {
          break;
        }
        ghost var here := Remaining();
        assert !EndsWord(here);
        pos := pos + 1;
        assert Remaining() == here[1..];
        assert input[start..pos] == input[start..pos - 1] + [ch];
        PushFront(input[start..pos - 1], ch, ReadWord(here[1..]).0);
      }
      tok := Word(input[start..pos]);
    }

    /**
     Reads a braced block and returns the raw text between its braces, which lexes on its own
     to the tokens met in place.
     */
    method ReadBracedBodyRaw() returns (body: Option<string>)
      requires Valid()
      modifies this
      ensures Valid()
      ensures var open := Next(old(Remaining()));
              && (body.Some? <==> open.0.LBrace? && Scan(open.1, 1).Some?)
              && (body.Some? ==>
                    var cut := Scan(open.1, 1).value;
                    && Remaining() == cut.rest
                    && open.1 == body.value + "}" + cut.rest
                    && Tokens(body.value) == cut.tokens)
    {
      hide Scan, Next, After, Tokens;
      var openTok := GetToken();
      if !openTok.LBrace? {
        return None;
      }
      var bodyStart := pos;
      ghost var inside := Remaining();
      ghost var met: seq<Token> := [];
      var depth := 1;
      AfterNothing(Scan(inside, 1));
      while true
        invariant Valid() && bodyStart <= pos && depth >= 1 && inside == input[bodyStart..]
        invariant Scan(inside, 1) == After(met, Scan(Remaining(), depth))
        decreases |input| - pos
      {
        ghost var before := Remaining();
        var tok := GetToken();
        ScanStep(before, depth);
        if tok.Eof? {
          AfterNone(met);
          return None;
        }
        if tok.LBrace? {
          depth := depth + 1;
        } else if tok.RBrace? {
          depth := depth - 1;
          if depth == 0 {
            BodyEnds(input, bodyStart, pos, met);
            return Some(input[bodyStart..pos - 1]);
          }
        }
        AfterOne(met, tok, Scan(Remaining(), depth));
        met := met + [tok];
      }
    }
  }

  lemma PushFront(s: string, c: char, x: string)
    ensures (s + [c]) + x == s + ([c] + x)
  {
  }

  /** A scan's result with the tokens met before it. */
  function After(met: seq<Token>, o: Option<Cut>): Option<Cut> {
    match o
    case None => None
    case Some(c) => Some(Cut(met + c.tokens, c.rest))
  }

  lemma AfterNothing(o: Option<Cut>)
    ensures After([], o) == o
  {
    assert o.Some? ==> [] + o.value.tokens == o.value.tokens;
  }

  lemma AfterOne(met: seq<Token>, t: Token, o: Option<Cut>)
    ensures After(met, After([t], o)) == After(met + [t], o)
  {
    if o.Some? {
      assert met + ([t] + o.value.tokens) == met + [t] + o.value.tokens;
    }
  }

  lemma ScanStep(s: string, depth: nat)
    requires depth >= 1
    ensures var n := Next(s);
            Scan(s, depth) ==
              if n.0.Eof? then None
              else if n.0.RBrace? && depth == 1 then Some(Cut([], n.1))
              else After([n.0], Scan(n.1, if n.0.LBrace? then depth + 1 else if n.0.RBrace? then depth - 1 else depth))
  {
  }

  lemma AfterNone(met: seq<Token>)
    ensures After(met, None) == None
  {
  }

  lemma BodyEnds(input: string, from: nat, to: nat, met: seq<Token>)
    requires from <= to <= |input|
    requires Scan(input[from..], 1) == After(met, Some(Cut([], input[to..])))
    ensures from < to && Scan(input[from..], 1) == Some(Cut(met, input[to..]))
    ensures input[from..] == input[from..to - 1] + "}" + input[to..]
    ensures Tokens(input[from..to - 1]) == Scan(input[from..], 1).value.tokens
  {
    assert met + [] == met;
    var body := CutBodyLexesTheSame(input[from..], 1);
    assert |input[from..]| == |body| + 1 + |input[to..]|;
    assert body == input[from..][..|body|] == input[from..to - 1];
  }

  lemma {:induction false} SkipLineOpening(s: string, k: nat)
    requires k <= |s| && forall i :: 0 <= i < k ==> s[i] != '\n'
    ensures SkipLine(s) == SkipLine(s[k..])
  {
    if k > 0 {
      SkipLineOpening(s[1..], k - 1);
      assert s[1..][k - 1..] == s[k..];
    } else {
      assert s[0..] == s;
    }
  }

  // Text that stops before a closing brace lexes like the text that goes on.

  lemma BraceText(b: string, x: string)
    ensures var s := b + "}" + x;
            && (b == [] ==> s[0] == '}' && s[1..] == x)
            && (b != [] ==> s[0] == b[0] && s[1..] == b[1..] + "}" + x)
            && (|b| == 1 ==> s[1] == '}' && s[2..] == x)
            && (|b| > 1 ==> s[1] == b[1] && s[2..] == b[2..] + "}" + x)
  {
  }

  lemma {:induction false} SkipSpaceBefore(b: string, x: string)
    ensures SkipSpace(b + "}" + x) == SkipSpace(b) + "}" + x
  {
    BraceText(b, x);
    if b != [] {
      SkipSpaceBefore(b[1..], x);
    }
  }

  lemma {:induction false} SkipLineBefore(b: string, x: string)
    requires |SkipLine(b + "}" + x)| > |x|
    ensures SkipLine(b + "}" + x) == SkipLine(b) + "}" + x
  {
    BraceText(b, x);
    if b != [] && b[0] != '\n' {
      SkipLineBefore(b[1..], x);
    }
  }

  lemma {:induction false} SkipBlockBefore(b: string, x: string)
    requires |SkipBlock(b + "}" + x)| > |x|
    ensures SkipBlock(b + "}" + x) == SkipBlock(b) + "}" + x
  {
    BraceText(b, x);
    if b != [] && !(|b| > 1 && b[0] == '*' && b[1] == '/') {
      SkipBlockBefore(b[1..], x);
    }
  }

  lemma {:induction false} ReadStringBefore(b: string, x: string)
    requires |ReadString(b + "}" + x).1| > |x|
    ensures ReadString(b + "}" + x) == (ReadString(b).0, ReadString(b).1 + "}" + x)
    decreases |b|
  {
    BraceText(b, x);
    if b != [] && b[0] == '\\' && |b| > 1 {
      ReadStringBefore(b[2..], x);
    } else if b != [] && b[0] !in {'"', '\\'} {
      ReadStringBefore(b[1..], x);
    }
  }

  lemma {:induction false} ReadWordBefore(b: string, x: string)
    ensures ReadWord(b + "}" + x) == (ReadWord(b).0, ReadWord(b).1 + "}" + x)
  {
    BraceText(b, x);
    if b != [] {
      ReadWordBefore(b[1..], x);
    }
  }

  /** A token that ends before a closing brace is the same when the text stops at the brace. */
  lemma {:induction false} NextBefore(b: string, x: string)
    requires |Next(b + "}" + x).1| > |x|
    ensures Next(b + "}" + x) == (Next(b).0, Next(b).1 + "}" + x) && !Next(b).0.Eof?
    decreases |b|
  {
    SkipSpaceBefore(b, x);
    var u := SkipSpace(b);
    var t := u + "}" + x;
    BraceText(u, x);
    if CommentStart(u) && t[1] == '/' {
      SkipLineBefore(u[2..], x);
      NextBefore(SkipLine(u[2..]), x);
    } else if CommentStart(u) {
      SkipBlockBefore(u[2..], x);
      NextBefore(SkipBlock(u[2..]), x);
    } else if u != [] && t[0] == '#' {
      SkipLineBefore(u[1..], x);
      NextBefore(SkipLine(u[1..]), x);
    } else if u != [] && t[0] == '"' {
      ReadStringBefore(u[1..], x);
    } else if u != [] && t[0] !in {'{', '}', ';'} {
      ReadWordBefore(u, x);
    }
  }

  /** A closing brace comes after white space and comments only. */
  lemma {:induction false} BlankBefore(b: string, x: string)
    requires Next(b + "}" + x) == (RBrace, x)
    ensures Next(b).0.Eof?
    decreases |b|
  {
    SkipSpaceBefore(b, x);
    var u := SkipSpace(b);
    var t := u + "}" + x;
    BraceText(u, x);
    if CommentStart(u) && t[1] == '/' {
      SkipLineBefore(u[2..], x);
      BlankBefore(SkipLine(u[2..]), x);
    } else if CommentStart(u) {
      SkipBlockBefore(u[2..], x);
      BlankBefore(SkipBlock(u[2..]), x);
    } else if u != [] && t[0] == '#' {
      SkipLineBefore(u[1..], x);
      BlankBefore(SkipLine(u[1..]), x);
    }
  }

  // What a token leaves is a tail of the text.

  ghost predicate IsTail(r: string, s: string) {
    exists k :: 0 <= k <= |s| && s[k..] == r
  }

  lemma Tail(s: string, k: nat)
    requires k <= |s|
    ensures IsTail(s[k..], s)
  {
  }

  lemma TailTrans(a: string, b: string, c: string)
    requires IsTail(a, b) && IsTail(b, c)
    ensures IsTail(a, c)
  {
    var k :| 0 <= k <= |b| && b[k..] == a;
    var l :| 0 <= l <= |c| && c[l..] == b;
    assert c[l + k..] == a;
  }

  lemma TailEnds(s: string)
    ensures IsTail(s, s) && IsTail([], s)
  {
    assert s[0..] == s && s[|s|..] == [];
  }

  lemma {:induction false} SkipsAreTails(s: string)
    ensures IsTail(SkipSpace(s), s) && IsTail(SkipLine(s), s) && IsTail(SkipBlock(s), s)
  {
    hide IsTail;
    TailEnds(s);
    if |s| > 1 { Tail(s, 2); }
    if s != [] {
      SkipsAreTails(s[1..]);
      Tail(s, 1);
      TailTrans(SkipSpace(s[1..]), s[1..], s);
      TailTrans(SkipLine(s[1..]), s[1..], s);
      TailTrans(SkipBlock(s[1..]), s[1..], s);
    }
  }

  lemma {:induction false} WordLeavesTail(s: string)
    ensures IsTail(ReadWord(s).1, s)
  {
    hide IsTail;
    TailEnds(s);
    if s != [] {
      WordLeavesTail(s[1..]);
      Tail(s, 1);
      TailTrans(ReadWord(s[1..]).1, s[1..], s);
    }
  }

  lemma {:induction false} StringLeavesTail(s: string)
    ensures IsTail(ReadString(s).1, s)
    decreases |s|
  {
    hide IsTail;
    TailEnds(s);
    if s != [] {
      StringLeavesTail(s[1..]);
      Tail(s, 1);
      TailTrans(ReadString(s[1..]).1, s[1..], s);
    }
    if |s| > 1 {
      StringLeavesTail(s[2..]);
      Tail(s, 2);
      TailTrans(ReadString(s[2..]).1, s[2..], s);
    }
  }

  /** The text after the comment that starts t, which is not blank. */
  function AfterComment(t: string): (u: string)
    requires CommentStart(t) || (t != [] && t[0] == '#')
    ensures |u| < |t|
  {
    if t[0] == '#' then SkipLine(t[1..]) else if t[1] == '/' then SkipLine(t[2..]) else SkipBlock(t[2..])
  }

  lemma AfterCommentIsTail(t: string)
    requires CommentStart(t) || (t != [] && t[0] == '#')
    ensures IsTail(AfterComment(t), t)
  {
    Tail(t, 1);
    SkipsAreTails(t[1..]);
    TailTrans(SkipLine(t[1..]), t[1..], t);
    if |t| > 1 {
      Tail(t, 2);
      SkipsAreTails(t[2..]);
      TailTrans(SkipLine(t[2..]), t[2..], t);
      TailTrans(SkipBlock(t[2..]), t[2..], t);
    }
  }

  /** Leading white space and comments do not matter. */
  lemma BlankSkipped(s: string)
    ensures Next(s) == Next(SkipSpace(s))
    ensures var t := SkipSpace(s); CommentStart(t) || (t != [] && t[0] == '#') ==> Next(s) == Next(AfterComment(t))
  {
    SpaceSkipped(s);
  }

  lemma {:induction false} NextLeavesTail(s: string)
    ensures IsTail(Next(s).1, s)
    ensures Next(s).0.RBrace? ==> IsTail("}" + Next(s).1, s)
    decreases |s|
  {
    var t := SkipSpace(s);
    SkipsAreTails(s);
    SpaceSkipped(s);
    BlankSkipped(s);
    if CommentStart(t) || (t != [] && t[0] == '#') {
      NextLeavesTail(AfterComment(t));
      AfterCommentIsTail(t);
      hide *;
      TailTrans(AfterComment(t), t, s);
      TailTrans(Next(s).1, AfterComment(t), s);
      if Next(s).0.RBrace? { TailTrans("}" + Next(s).1, AfterComment(t), s); }
    } else {
      TokenLeavesTail(t);
      hide *;
      TailTrans(Next(s).1, t, s);
    }
  }

  lemma TokenLeavesTail(t: string)
    requires t == [] || (!CommentStart(t) && !IsSpace(t[0]) && t[0] != '#')
    ensures IsTail(Next(t).1, t)
    ensures Next(t).0.RBrace? ==> "}" + Next(t).1 == t
  {
    hide IsTail, ReadString, ReadWord;
    TailEnds(t);
    if t != [] {
      Tail(t, 1);
      assert SkipSpace(t) == t;
      StringLeavesTail(t[1..]);
      WordLeavesTail(t);
      TailTrans(ReadString(t[1..]).1, t[1..], t);
      assert t == [t[0]] + t[1..];
    }
  }

  lemma {:induction false} SpaceSkipped(s: string)
    ensures SkipSpace(s) == [] || !IsSpace(SkipSpace(s)[0])
  {
    if s != [] { SpaceSkipped(s[1..]); }
  }

  /**
   The brace scanner is right: the text up to the closing brace, lexed on its own, gives exactly
   the tokens met in place. Braces inside comments and quoted strings do not count.
   */
  lemma {:induction false} CutBodyLexesTheSame(s: string, depth: nat) returns (body: string)
    requires depth >= 1 && Scan(s, depth).Some?
    ensures s == body + "}" + Scan(s, depth).value.rest
    ensures Tokens(body) == Scan(s, depth).value.tokens
    decreases |s|
  {
    var n, rest := Next(s), Scan(s, depth).value.rest;
    if n.0.RBrace? && depth == 1 {
      body := CutAtBrace(s);
    } else {
      var deeper := if n.0.LBrace? then depth + 1 else if n.0.RBrace? then depth - 1 else depth;
      var tail := CutBodyLexesTheSame(n.1, deeper);
      hide Scan, Next;
      body := CutAfterToken(s, tail, rest);
    }
  }

  lemma CutAtBrace(s: string) returns (body: string)
    requires Next(s).0.RBrace?
    ensures s == body + "}" + Next(s).1 && Tokens(body) == []
  {
    var rest := Next(s).1;
    NextLeavesTail(s);
    hide Next;
    var k :| 0 <= k <= |s| && s[k..] == "}" + rest;
    body := s[..k];
    assert s == body + "}" + rest;
    BlankBefore(body, rest);
  }

  lemma CutAfterToken(s: string, tail: string, rest: string) returns (body: string)
    requires Next(s).1 == tail + "}" + rest
    ensures s == body + "}" + rest && Tokens(body) == [Next(s).0] + Tokens(tail)
  {
    NextLeavesTail(s);
    hide Next;
    var k :| 0 <= k <= |s| && s[k..] == Next(s).1;
    body := s[..k] + tail;
    assert s == body + "}" + rest;
    NextBefore(body, rest);
    SameFront(Next(body).1, tail, rest);
  }

  lemma SameFront(a: string, b: string, x: string)
    requires a + "}" + x == b + "}" + x
    ensures a == b
  {
    assert |a| == |b|;
    assert a == (a + "}" + x)[..|a|];
    assert b == (b + "}" + x)[..|b|];
  }
}
