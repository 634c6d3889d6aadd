/** Model of source/monkey/lexer.c: a hand-written scanner over a C string that recognises
    `= ; ( ) , + { }`, identifiers (with keyword lookup) and decimal numbers; everything else is ILLEGAL. */
module Lexing {
  import opened Wrappers
  import opened LibC
  import opened Tokens

  /** The scanner state: the input (the C string, without its terminator), the index of the
      current character, the index of the next one, and the current character (NUL past the end). */
  datatype Lexer = Lexer(input: string, position: nat, readPosition: nat, ch: char) {
    predicate Valid() {
      && '\0' !in input
      && readPosition == position + 1
      && ch == CharAt(input, position)
    }
  }

  /** The character at `i`, or NUL at and past the end of the input. */
  function CharAt(input: string, i: nat): char
  {
    if i < |input| then input[i] else '\0'
  }

  /** isLetter: ASCII letters and underscore. */
  predicate IsLetter(c: char) {
    ('a' <= c <= 'z') || ('A' <= c <= 'Z') || c == '_'
  }

  /** The characters skipWhitespace passes over. */
  predicate IsWhitespace(c: char) {
    c == ' ' || c == '\t' || c == '\n' || c == '\r'
  }

  /** The token type of the eight one-character tokens. */
  function SingleCharKind(c: char): Option<TokenType>
  {
    match c
    case '=' => Some(Assign)
    case ';' => Some(Semicolon)
    case '(' => Some(LParen)
    case ')' => Some(RParen)
    case ',' => Some(Comma)
    case '+' => Some(Plus)
    case '{' => Some(LBrace)
    case '}' => Some(RBrace)
    case _ => None
  }

  /** readChar: make the next character current. */
  function ReadChar(l: Lexer): (r: Lexer)
    requires l.Valid()
    ensures r.Valid() && r.input == l.input && r.position == l.position + 1
  {
    Lexer(l.input, l.readPosition, l.readPosition + 1, CharAt(l.input, l.readPosition))
  }

  /** CreateLexer: the input is the C string up to its NUL, and the first character is current. */
  function CreateLexer(input: string): (l: Lexer)
    ensures l.Valid() && l.input == CString(input) && l.position == 0
  {
    // position and readPosition start at 0; the first readChar makes input[0] current
    Lexer(CString(input), 0, 1, CharAt(CString(input), 0))
  }

  /** The loops of readIdentifier, readNumber and skipWhitespace: advance while the current
      character satisfies `p`, which NUL never does. */
  function ReadWhile(l: Lexer, p: char -> bool): (r: Lexer)
    requires l.Valid() && !p('\0')
    ensures r.Valid() && r.input == l.input
    ensures l.position <= r.position
    ensures l.position < |l.input| ==> r.position <= |l.input|
    ensures r.position > l.position ==> r.position <= |l.input|
    ensures forall k | l.position <= k < r.position :: k < |l.input| && p(l.input[k])
    ensures !p(r.ch)
    decreases |l.input| - l.position
  {
    if p(l.ch) then ReadWhile(ReadChar(l), p) else l
  }

  /** skipWhitespace. */
  function SkipWhitespace(l: Lexer): (r: Lexer)
    requires l.Valid()
    ensures r.Valid() && r.input == l.input && l.position <= r.position
    ensures forall k | l.position <= k < r.position :: k < |l.input| && IsWhitespace(l.input[k])
    ensures !IsWhitespace(CharAt(l.input, r.position))
  {
    ReadWhile(l, IsWhitespace)
  }

  /** LexerNextToken: skip white space, then read one token starting at the current character.
      One-character and ILLEGAL tokens move past their character; identifiers and numbers end
      at the first character that cannot continue them; at the end, EOF is returned with an
      empty literal (and the position still advances, as readChar does). */
  function NextToken(l: Lexer): (res: (Token, Lexer))
    requires l.Valid()
    ensures res.1.Valid() && res.1.input == l.input
    ensures SkipWhitespace(l).position < res.1.position
    ensures res.0.kind == EndOfFile <==> SkipWhitespace(l).position >= |l.input|
    ensures res.0.kind == EndOfFile ==> res.0.literal == "" && res.1.position == SkipWhitespace(l).position + 1
    ensures res.0.kind != EndOfFile ==>
      res.1.position <= |l.input| && res.0.literal == l.input[SkipWhitespace(l).position..res.1.position]
    ensures var c := CharAt(l.input, SkipWhitespace(l).position);
      SingleCharKind(c).Some? ==> res.0 == Token(SingleCharKind(c).value, [c]) && res.1.position == SkipWhitespace(l).position + 1
    ensures var c := CharAt(l.input, SkipWhitespace(l).position);
      IsLetter(c) ==>
        && (forall k | SkipWhitespace(l).position <= k < res.1.position :: IsLetter(l.input[k]))
        && !IsLetter(CharAt(l.input, res.1.position))
        && res.0.kind == LookupIdent(res.0.literal)
    ensures var c := CharAt(l.input, SkipWhitespace(l).position);
      IsDigit(c) ==>
        && (forall k | SkipWhitespace(l).position <= k < res.1.position :: IsDigit(l.input[k]))
        && !IsDigit(CharAt(l.input, res.1.position))
        && res.0.kind == Int
    ensures var c := CharAt(l.input, SkipWhitespace(l).position);
      c != '\0' && SingleCharKind(c).None? && !IsLetter(c) && !IsDigit(c) ==>
        res.0 == Token(Illegal, [c]) && res.1.position == SkipWhitespace(l).position + 1
  {
    var l1 := SkipWhitespace(l);
    var c := l1.ch;
    if SingleCharKind(c).Some? then
      (Token(SingleCharKind(c).value, [c]), ReadChar(l1))
    else if c == '\0' then
      (Token(EndOfFile, ""), ReadChar(l1))
    else if IsLetter(c) then
      var l2 := ReadWhile(l1, IsLetter);
      assert l1.position < |l1.input|;
      var literal := l1.input[l1.position..l2.position];
      (Token(LookupIdent(literal), literal), l2)
    else if IsDigit(c) then
      var l2 := ReadWhile(l1, IsDigit);
      (Token(Int, l1.input[l1.position..l2.position]), l2)
    else
      (Token(Illegal, [c]), ReadChar(l1))
  }

  /** The tokens from the current position up to and including the first EOF. */
  function Tokenize(l: Lexer): (tokens: seq<Token>)
    requires l.Valid() && l.position <= |l.input|
    ensures |tokens| >= 1 && tokens[|tokens| - 1].kind == EndOfFile
    ensures forall i | 0 <= i < |tokens| - 1 :: tokens[i].kind != EndOfFile
    decreases |l.input| - l.position
  {
    var (tok, r) := NextToken(l);
    if tok.kind == EndOfFile then [tok] else [tok] + Tokenize(r)
  }

  /** The tokens of a whole input. */
  function Lex(input: string): seq<Token>
  {
    Tokenize(CreateLexer(input))
  }

  /** `s` with the characters skipWhitespace passes over removed. */
  function StripWhitespace(s: string): string
  {
    if s == [] then [] else (if IsWhitespace(s[0]) then [] else [s[0]]) + StripWhitespace(s[1..])
  }

  lemma {:induction false} StripWhitespaceAppend(a: string, b: string)
    ensures StripWhitespace(a + b) == StripWhitespace(a) + StripWhitespace(b)
  {
    if a == [] {
      assert a + b == b;
    } else {
      assert (a + b)[1..] == a[1..] + b;
      StripWhitespaceAppend(a[1..], b);
    }
  }

  lemma {:induction false} StripAllWhitespace(s: string)
    requires forall k | 0 <= k < |s| :: IsWhitespace(s[k])
    ensures StripWhitespace(s) == []
  {
    if s != [] {
      StripAllWhitespace(s[1..]);
    }
  }

  lemma {:induction false} StripNoWhitespace(s: string)
    requires forall k | 0 <= k < |s| :: !IsWhitespace(s[k])
    ensures StripWhitespace(s) == s
  {
    if s != [] {
      StripNoWhitespace(s[1..]);
    }
  }

  /** The literals of a token list, concatenated. */
  function Literals(tokens: seq<Token>): string
  {
    if tokens == [] then "" else tokens[0].literal + Literals(tokens[1..])
  }

  /** At the end of the input, what is left is white space only, and EOF's literal is empty. */
  lemma EndOfFileLiteral(l: Lexer)
    requires l.Valid() && l.position <= |l.input| && NextToken(l).0.kind == EndOfFile
    ensures NextToken(l).0.literal == StripWhitespace(l.input[l.position..])
  {
    var rest := l.input[l.position..];
    var s := SkipWhitespace(l);
    forall k | 0 <= k < |rest|
      ensures IsWhitespace(rest[k])
    {
      assert rest[k] == l.input[l.position + k];
    }
    StripAllWhitespace(rest);
  }

  /** Any other token's literal holds exactly the non-white-space characters the call consumed. */
  lemma TokenLiteral(l: Lexer)
    requires l.Valid() && l.position <= |l.input| && NextToken(l).0.kind != EndOfFile
    ensures NextToken(l).1.position <= |l.input|
    ensures NextToken(l).0.literal == StripWhitespace(l.input[l.position..NextToken(l).1.position])
  {
    var next := NextToken(l);
    var tok, r := next.0, next.1;
    var s := SkipWhitespace(l).position;
    var ws := l.input[l.position..s];
    forall k | 0 <= k < |ws|
      ensures IsWhitespace(ws[k])
    {
      assert ws[k] == l.input[l.position + k];
    }
    StripAllWhitespace(ws);
    forall k | 0 <= k < |tok.literal|
      ensures !IsWhitespace(tok.literal[k])
    {
      assert tok.literal[k] == l.input[s + k];
    }
    StripNoWhitespace(tok.literal);
    SplitRange(l.input, l.position, s, r.position);
    StripWhitespaceAppend(ws, tok.literal);
  }

  /** Lexing loses nothing but white space: the literals before EOF, concatenated, are the rest
      of the input with its white space removed. */
  lemma TokenizeStep(l: Lexer)
    requires l.Valid() && l.position <= |l.input|
    requires NextToken(l).0.kind != EndOfFile
    ensures Tokenize(l) == [NextToken(l).0] + Tokenize(NextToken(l).1)
  {
  }

  lemma TokenizeEnd(l: Lexer)
    requires l.Valid() && l.position <= |l.input|
    requires NextToken(l).0.kind == EndOfFile
    ensures Tokenize(l) == [NextToken(l).0]
  {
  }

  lemma LiteralsCons(t: Token, rest: seq<Token>)
    ensures Literals([t] + rest) == t.literal + Literals(rest)
  {
    assert ([t] + rest)[1..] == rest;
  }

  lemma SplitRange(s: string, a: nat, b: nat, c: nat)
    requires a <= b <= c <= |s|
    ensures s[a..b] + s[b..c] == s[a..c]
  {
  }

  lemma SplitAt(s: string, a: nat, b: nat)
    requires a <= b <= |s|
    ensures s[a..b] + s[b..] == s[a..]
  {
  }

  lemma TokenizeLiteralsStep(l: Lexer)
    requires l.Valid() && l.position <= |l.input| && NextToken(l).0.kind != EndOfFile
    requires NextToken(l).1.position <= |l.input|
    requires Literals(Tokenize(NextToken(l).1)) == StripWhitespace(l.input[NextToken(l).1.position..])
    ensures Literals(Tokenize(l)) == StripWhitespace(l.input[l.position..])
  {
    var next := NextToken(l);
    var tok, r := next.0, next.1;
    var consumed := l.input[l.position..r.position];
    var rest := l.input[r.position..];
    calc {
      Literals(Tokenize(l));
      { TokenizeStep(l); }
      Literals([tok] + Tokenize(r));
      { LiteralsCons(tok, Tokenize(r)); }
      tok.literal + Literals(Tokenize(r));
      { TokenLiteral(l); }
      StripWhitespace(consumed) + StripWhitespace(rest);
      { StripWhitespaceAppend(consumed, rest); }
      StripWhitespace(consumed + rest);
      { TokenLiteral(l); SplitAt(l.input, l.position, r.position); }
      StripWhitespace(l.input[l.position..]);
    }
  }

  lemma {:induction false} TokenizeLiterals(l: Lexer)
    requires l.Valid() && l.position <= |l.input|
    ensures Literals(Tokenize(l)) == StripWhitespace(l.input[l.position..])
    decreases |l.input| - l.position
  {
    var next := NextToken(l);
    if next.0.kind == EndOfFile {
      EndOfFileLiteral(l);
      TokenizeEnd(l);
      LiteralsCons(next.0, []);
    } else {
      TokenLiteral(l);
      TokenizeLiterals(next.1);
      TokenizeLiteralsStep(l);
    }
  }

  /** Once the lexer has returned EOF, every later call returns EOF again. */
  lemma EndOfFileForever(l: Lexer)
    requires l.Valid() && NextToken(l).0.kind == EndOfFile
    ensures NextToken(NextToken(l).1).0 == Token(EndOfFile, "")
  {
  }

  lemma LexIllegalSteps()
    ensures NextToken(Lexer("@", 0, 1, '@')) == (Token(Illegal, "@"), Lexer("@", 1, 2, '\0'))
    ensures NextToken(Lexer("@", 1, 2, '\0')) == (Token(EndOfFile, ""), Lexer("@", 2, 3, '\0'))
  {
    assert SkipWhitespace(Lexer("@", 0, 1, '@')) == Lexer("@", 0, 1, '@');
    assert SkipWhitespace(Lexer("@", 1, 2, '\0')) == Lexer("@", 1, 2, '\0');
  }

  /** Lexing "@" starts from the lexer whose current character is "@". */
  lemma LexIllegalStart()
    ensures Lex("@") == Tokenize(Lexer("@", 0, 1, '@'))
  {
    hide Tokenize;
    assert CString("@") == "@";
    assert CreateLexer("@") == Lexer("@", 0, 1, '@');
  }

  /** The input of the illegal-token test: `@` is a single ILLEGAL token followed by EOF. */
  lemma LexIllegal()
    ensures Lex("@") == [Token(Illegal, "@"), Token(EndOfFile, "")]
  {
    hide Lex, Tokenize, NextToken, SkipWhitespace, CreateLexer, CString;
    var l := Lexer("@", 0, 1, '@');
    var l1 := Lexer("@", 1, 2, '\0');
    LexIllegalStart();
    LexIllegalSteps();
    TokenizeEnd(l1);
    TokenizeStep(l);
  }
}
