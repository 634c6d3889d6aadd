/** Model of source/monkey/parser.c: a Pratt parser over the token stream, collecting error
    messages as it goes. The stream is a sequence of tokens; every position past its end reads as
    EOF with an empty literal, as the lexer keeps returning EOF once the input is exhausted. */
module Parsing {
  import opened Wrappers
  import opened LibC
  import opened Strings
  import opened Tokens
  import opened Ast

  /** The binding powers, weakest first. */
  datatype Precedence = Lowest | Equals | LessGreater | Sum | Product | PrefixPrec | CallPrec {
    function Rank(): nat {
      match this
      case Lowest => 0
      case Equals => 1
      case LessGreater => 2
      case Sum => 3
      case Product => 4
      case PrefixPrec => 5
      case CallPrec => 6
    }
  }

  /** getInfixPrecedence: the binding power of a token as an infix operator. */
  function InfixPrecedence(t: TokenType): (p: Precedence)
    ensures p != Lowest <==> IsBinaryOperator(t) || t == LParen
    ensures IsBinaryOperator(t) ==> Lowest.Rank() < p.Rank() < PrefixPrec.Rank()
    ensures t == LParen ==> p == CallPrec
  {
    match t
    case Eq => Equals
    case NotEq => Equals
    case Lt => LessGreater
    case Gt => LessGreater
    case Plus => Sum
    case Minus => Sum
    case Asterisk => Product
    case Slash => Product
    case LParen => CallPrec
    case _ => Lowest
  }

  /** The token types getInfixParser maps to parseInfixExpression. */
  predicate IsBinaryOperator(t: TokenType) {
    t == Plus || t == Minus || t == Asterisk || t == Slash || t == Eq || t == NotEq || t == Lt || t == Gt
  }

  /** The token types getPrefixParser has a parse function for. */
  predicate HasPrefixParser(t: TokenType) {
    t == Ident || t == Int || t == True || t == False || t == Bang || t == Minus
    || t == LParen || t == If || t == Function
  }

  /** The tokens the lexer hands the parser, in order. */
  datatype Input = Input(items: seq<Token>)

  /** The parser: the token stream, the index of the current token (the peek token is the next
      one) and the error messages collected so far. */

  datatype State = State(input: Input, pos: nat, errors: seq<string>) {
    const tokens: seq<Token> := input.items

    predicate Valid() { pos <= |tokens| }

    function At(i: nat): Token {
      if i < |tokens| then tokens[i] else Token(EndOfFile, "")
    }

    function Cur(): Token { At(pos) }

    function Peek(): Token { At(pos + 1) }
  }

  /** `r` is a later state of the same parse: the same tokens, a position no earlier, and the
      errors of `s` followed by any new ones. */
  predicate Follows(s: State, r: State) {
    r.Valid() && r.input == s.input && s.pos <= r.pos && s.errors <= r.errors
  }

  /** The result of a parse function: the node built (None for NULL) and the parser afterwards. */
  datatype Parsed<T> = Parsed(node: T, st: State)

  /** The parser of a token stream, positioned at its first token. */
  function CreateParser(tokens: seq<Token>): (s: State)
    ensures s.Valid() && s.Cur() == (if tokens == [] then Token(EndOfFile, "") else tokens[0]) && s.errors == []
  {
    State(Input(tokens), 0, [])
  }

  /** nextToken: the peek token becomes current (at the end of the stream nothing changes, as
      every later token is EOF anyway). */
  function Next(s: State): (r: State)
    requires s.Valid()
    ensures Follows(s, r) && r.errors == s.errors
    ensures r.Cur() == s.Peek()
    ensures s.pos < |s.tokens| ==> r.pos == s.pos + 1
  {
    if s.pos < |s.tokens| then s.(pos := s.pos + 1) else s
  }

  function AddError(s: State, message: string): (r: State)
    ensures r.input == s.input && r.pos == s.pos && r.errors == s.errors + [message]
  {
    s.(errors := s.errors + [message])
  }

  /** The message of peekError. */
  function PeekErrorMessage(expected: TokenType, got: TokenType): string
  {
    "expected next token to be " + TokenTypeText(expected) + ", got " + TokenTypeText(got) + " instead"
  }

  /** The message of noPrefixParseFnError. */
  function NoPrefixMessage(t: TokenType): string
  {
    "no prefix parse function for " + TokenTypeText(t) + " found"
  }

  /** The message parseIntegerLiteral records for a literal strtoll does not consume entirely. */
  function IntegerErrorMessage(literal: string): string
  {
    "could not parse \"" + literal + "\" as integer"
  }

  /** expectPeek: advance exactly when the peek token has the expected type; otherwise record
      the peek error and stay. */
  function ExpectPeek(s: State, t: TokenType): (r: (bool, State))
    requires s.Valid()
    ensures Follows(s, r.1)
    ensures r.0 <==> s.Peek().kind == t
    ensures r.0 ==> r.1.Cur() == s.Peek() && r.1.errors == s.errors
    ensures r.0 && t != EndOfFile ==> r.1.pos == s.pos + 1
    ensures !r.0 ==> r.1.pos == s.pos && r.1.errors == s.errors + [PeekErrorMessage(t, s.Peek().kind)]
  {
    if s.Peek().kind == t then (true, Next(s)) else (false, AddError(s, PeekErrorMessage(t, s.Peek().kind)))
  }

  /** A new identifier node for the current token. */
  function CurIdentifier(s: State): Identifier
  {
    Identifier(CopyToken(s.Cur()), Strdup(s.Cur().literal))
  }

  /** The termination measure of the parse functions: tokens left, then a rank that decreases
      along calls that do not advance. */
  function Remaining(s: State): nat requires s.Valid() { |s.tokens| - s.pos }

  /** parseIdentifier. */
  function ParseIdentifier(s: State): (r: Parsed<Option<Expr>>)
    requires s.Valid() && s.Cur().kind == Ident
    ensures r.st == s && r.node == Some(Name(CurIdentifier(s)))
  {
    Parsed(Some(Name(CurIdentifier(s))), s)
  }

  /** parseIntegerLiteral: strtoll in base 10 over the literal; a literal it does not consume to
      the end is an error and yields no expression. */
  function ParseIntegerLiteral(s: State): (r: Parsed<Option<Expr>>)
    requires s.Valid() && s.Cur().kind == Int
    ensures Follows(s, r.st) && r.st.pos == s.pos
    ensures r.node.Some? <==> r.st.errors == s.errors
    ensures r.node.Some? ==> r.node.value.IntegerLit? && InInt64(r.node.value.intValue)
    ensures r.node.None? ==> r.st.errors == s.errors + [IntegerErrorMessage(CString(s.Cur().literal))]
  {
    var token := CopyToken(s.Cur());
    var conversion := StrToLL(token.literal);
    if conversion.end < |token.literal| then
      Parsed(None, AddError(s, IntegerErrorMessage(token.literal)))
    else
      Parsed(Some(IntegerLit(token, conversion.value)), s)
  }

  /** parseBoolean: true exactly for a TRUE token. */
  function ParseBoolean(s: State): (r: Parsed<Option<Expr>>)
    requires s.Valid() && (s.Cur().kind == True || s.Cur().kind == False)
    ensures r.st == s && r.node.Some? && r.node.value.BooleanLit?
    ensures r.node.value.boolValue <==> s.Cur().kind == True
  {
    Parsed(Some(BooleanLit(CopyToken(s.Cur()), s.Cur().kind == True)), s)
  }

  /** parsePrefixExpression: the operand is parsed at PREFIX precedence; it may be missing. */
  function ParsePrefixExpression(s: State): (r: Parsed<Option<Expr>>)
    requires s.Valid() && (s.Cur().kind == Bang || s.Cur().kind == Minus)
    ensures Follows(s, r.st)
    ensures r.node.Some? && r.node.value.PrefixExpr?
    decreases Remaining(s), 0
  {
    var token := CopyToken(s.Cur());
    var right := ParseExpression(Next(s), PrefixPrec);
    Parsed(Some(PrefixExpr(token, Strdup(token.literal), right.node)), right.st)
  }

  /** parseGroupedExpression: an expression at LOWEST precedence, then ")". The parentheses
      leave no node behind. */
  function ParseGroupedExpression(s: State): (r: Parsed<Option<Expr>>)
    requires s.Valid() && s.Cur().kind == LParen
    ensures Follows(s, r.st)
    ensures r.st.errors == s.errors ==> r.node.Some?
    decreases Remaining(s), 0
  {
    var inner := ParseExpression(Next(s), Lowest);
    var (ok, s2) := ExpectPeek(inner.st, RParen);
    if !ok then Parsed(None, s2) else Parsed(inner.node, s2)
  }

  /** parseIfExpression: "(" condition ")", then the blocks (ParseIfBlocks). */
  function ParseIfExpression(s: State): (r: Parsed<Option<Expr>>)
    requires s.Valid() && s.Cur().kind == If
    ensures Follows(s, r.st)
    ensures r.node.Some? ==> r.node.value.IfExpr?
    ensures r.st.errors == s.errors ==> r.node.Some?
    decreases Remaining(s), 0
  {
    var token := CopyToken(s.Cur());
    var (ok1, s1) := ExpectPeek(s, LParen);
    if !ok1 then Parsed(None, s1)
    else
      var condition := ParseExpression(Next(s1), Lowest);
      var (ok2, s2) := ExpectPeek(condition.st, RParen);
      if !ok2 then Parsed(None, s2) else ParseIfBlocks(s2, token, condition.node)
  }

  /** The rest of parseIfExpression, from the ")" after the condition: "{" block, then optionally
      else "{" block. */
  function ParseIfBlocks(s: State, token: Token, condition: Option<Expr>): (r: Parsed<Option<Expr>>)
    requires s.Valid()
    ensures Follows(s, r.st)
    ensures r.node.Some? ==> r.node.value.IfExpr? && r.node.value.token == token && r.node.value.condition == condition
    ensures r.st.errors == s.errors ==> r.node.Some?
    decreases Remaining(s), 0
  {
    var (ok3, s3) := ExpectPeek(s, LBrace);
    if !ok3 then Parsed(None, s3)
    else
      var consequence := ParseBlockStatement(s3);
      if consequence.st.Peek().kind == Else then
        var (ok4, s4) := ExpectPeek(Next(consequence.st), LBrace);
        if !ok4 then Parsed(None, s4)
        else
          var alternative := ParseBlockStatement(s4);
          Parsed(Some(IfExpr(token, condition, consequence.node, Some(alternative.node))), alternative.st)
      else
        Parsed(Some(IfExpr(token, condition, consequence.node, None)), consequence.st)
  }

  /** The loop of parseFunctionParameters: while the peek token is ",", skip it and take the token
      after it as the next parameter (its type is not checked). */
  function ParametersLoop(s: State, parameters: seq<Identifier>): (r: Parsed<seq<Identifier>>)
    requires s.Valid()
    ensures Follows(s, r.st) && r.st.errors == s.errors
    ensures parameters <= r.node
    ensures r.st.Peek().kind != Comma
    decreases Remaining(s)
  {
    if s.Peek().kind == Comma then
      var s1 := Next(Next(s));
      ParametersLoop(s1, parameters + [CurIdentifier(s1)])
    else
      Parsed(parameters, s)
  }

  /** parseFunctionParameters: "()" gives no parameters; otherwise a comma-separated list closed
      by ")". None when the ")" is missing. */
  function ParseFunctionParameters(s: State): (r: Parsed<Option<seq<Identifier>>>)
    requires s.Valid()
    ensures Follows(s, r.st)
    ensures r.node.Some? <==> r.st.errors == s.errors
    ensures r.node.Some? ==> r.st.Cur().kind == RParen
  {
    if s.Peek().kind == RParen then
      Parsed(Some([]), Next(s))
    else
      var s1 := Next(s);
      var loop := ParametersLoop(s1, [CurIdentifier(s1)]);
      var (ok, s2) := ExpectPeek(loop.st, RParen);
      if !ok then Parsed(None, s2) else Parsed(Some(loop.node), s2)
  }

  /** parseFunctionLiteral: "(" parameters ")" "{" body. */
  function ParseFunctionLiteral(s: State): (r: Parsed<Option<Expr>>)
    requires s.Valid() && s.Cur().kind == Function
    ensures Follows(s, r.st)
    ensures r.node.Some? ==> r.node.value.FunctionLit?
    ensures r.st.errors == s.errors ==> r.node.Some?
    decreases Remaining(s), 0
  {
    var token := CopyToken(s.Cur());
    var (ok1, s1) := ExpectPeek(s, LParen);
    if !ok1 then Parsed(None, s1)
    else
      var parameters := ParseFunctionParameters(s1);
      if parameters.node.None? then Parsed(None, parameters.st)
      else
        var (ok2, s2) := ExpectPeek(parameters.st, LBrace);
        if !ok2 then Parsed(None, s2)
        else
          var body := ParseBlockStatement(s2);
          Parsed(Some(FunctionLit(token, parameters.node.value, body.node)), body.st)
  }

  /** parseInfixExpression: the right operand is parsed at the operator's own precedence, so
      operators of equal precedence associate to the left. */
  function ParseInfixExpression(s: State, left: Option<Expr>): (r: Parsed<Option<Expr>>)
    requires s.Valid() && IsBinaryOperator(s.Cur().kind)
    ensures Follows(s, r.st)
    ensures r.node.Some? && r.node.value.InfixExpr? && r.node.value.left == left
    decreases Remaining(s), 0
  {
    var token := CopyToken(s.Cur());
    var right := ParseExpression(Next(s), InfixPrecedence(s.Cur().kind));
    Parsed(Some(InfixExpr(token, left, Strdup(token.literal), right.node)), right.st)
  }

  /** The loop of parseCallArguments: while the peek token is ",", skip it and parse the next
      argument at LOWEST precedence. */
  function ArgumentsLoop(s: State, arguments: seq<Option<Expr>>): (r: Parsed<seq<Option<Expr>>>)
    requires s.Valid()
    ensures Follows(s, r.st)
    ensures arguments <= r.node
    ensures r.st.errors == s.errors ==> forall i | |arguments| <= i < |r.node| :: r.node[i].Some?
    decreases Remaining(s), 0
  {
    if s.Peek().kind == Comma then
      var argument := ParseExpression(Next(Next(s)), Lowest);
      ArgumentsLoop(argument.st, arguments + [argument.node])
    else
      Parsed(arguments, s)
  }

  /** parseCallArguments: "()" gives no arguments; otherwise a comma-separated list closed by ")".
      None when the ")" is missing. */
  function ParseCallArguments(s: State): (r: Parsed<Option<seq<Option<Expr>>>>)
    requires s.Valid() && s.Cur().kind == LParen
    ensures Follows(s, r.st)
    ensures r.st.errors == s.errors ==>
      r.node.Some? && forall i | 0 <= i < |r.node.value| :: r.node.value[i].Some?
    ensures r.node.None? ==> r.st.errors != s.errors
    decreases Remaining(s), 0
  {
    if s.Peek().kind == RParen then
      Parsed(Some([]), Next(s))
    else
      var first := ParseExpression(Next(s), Lowest);
      var loop := ArgumentsLoop(first.st, [first.node]);
      var (ok, s2) := ExpectPeek(loop.st, RParen);
      if !ok then Parsed(None, s2) else Parsed(Some(loop.node), s2)
  }

  /** parseCallExpression: the callee is the expression to the left of "(". */
  function ParseCallExpression(s: State, callee: Option<Expr>): (r: Parsed<Option<Expr>>)
    requires s.Valid() && s.Cur().kind == LParen
    ensures Follows(s, r.st)
    ensures r.node.Some? ==> r.node.value.CallExpr? && r.node.value.callee == callee
    ensures r.st.errors == s.errors ==> r.node.Some?
    decreases Remaining(s), 1
  {
    var token := CopyToken(s.Cur());
    var arguments := ParseCallArguments(s);
    if arguments.node.None? then Parsed(None, arguments.st)
    else Parsed(Some(CallExpr(token, callee, arguments.node.value)), arguments.st)
  }

  /** parseExpression: with no prefix parse function for the current token, record the error
      and yield nothing; otherwise parse the prefix, then absorb infix operators while the peek
      token is not ";" and binds more tightly than `precedence`. */
  function ParseExpression(s: State, precedence: Precedence): (r: Parsed<Option<Expr>>)
    requires s.Valid()
    ensures Follows(s, r.st)
    ensures !HasPrefixParser(s.Cur().kind) ==> r == Parsed(None, AddError(s, NoPrefixMessage(s.Cur().kind)))
    ensures r.st.errors == s.errors ==> r.node.Some?
    ensures HasPrefixParser(s.Cur().kind) ==>
      r.st.Peek().kind == Semicolon || InfixPrecedence(r.st.Peek().kind).Rank() <= precedence.Rank()
    decreases Remaining(s), 2
  {
    var kind := s.Cur().kind;
    if !HasPrefixParser(kind) then
      Parsed(None, AddError(s, NoPrefixMessage(kind)))
    else
      var left := ParsePrefix(s);
      InfixLoop(left.st, left.node, precedence)
  }

  /** getPrefixParser followed by the call: the prefix parse function of the current token. */
  function ParsePrefix(s: State): (r: Parsed<Option<Expr>>)
    requires s.Valid() && HasPrefixParser(s.Cur().kind)
    ensures Follows(s, r.st)
    ensures r.st.errors == s.errors ==> r.node.Some?
    decreases Remaining(s), 1
  {
    match s.Cur().kind
    case Ident => ParseIdentifier(s)
    case Int => ParseIntegerLiteral(s)
    case True => ParseBoolean(s)
    case False => ParseBoolean(s)
    case Bang => ParsePrefixExpression(s)
    case Minus => ParsePrefixExpression(s)
    case LParen => ParseGroupedExpression(s)
    case If => ParseIfExpression(s)
    case Function => ParseFunctionLiteral(s)
  }

  /** The loop of parseExpression. Every token whose precedence exceeds LOWEST has an infix parse
      function, so the loop's `break` for a missing one cannot be reached. */
  function InfixLoop(s: State, left: Option<Expr>, precedence: Precedence): (r: Parsed<Option<Expr>>)
    requires s.Valid()
    ensures Follows(s, r.st)
    ensures r.st.errors == s.errors && left.Some? ==> r.node.Some?
    ensures r.st.Peek().kind == Semicolon || InfixPrecedence(r.st.Peek().kind).Rank() <= precedence.Rank()
    decreases Remaining(s), 1
  {
    var peek := s.Peek().kind;
    if peek != Semicolon && precedence.Rank() < InfixPrecedence(peek).Rank() then
      var s1 := Next(s);
      var combined := if peek == LParen then ParseCallExpression(s1, left) else ParseInfixExpression(s1, left);
      InfixLoop(combined.st, combined.node, precedence)
    else
      Parsed(left, s)
  }

  /** The statement ended cleanly: either its ";" was consumed, or none follows. */
  predicate SemicolonSettled(s: State) {
    s.Cur().kind == Semicolon || s.Peek().kind != Semicolon
  }

  /** The optional trailing ";" of let, return and expression statements. */
  function SkipSemicolon(s: State): (r: State)
    requires s.Valid()
    ensures Follows(s, r) && r.errors == s.errors && SemicolonSettled(r)
    ensures s.Peek().kind == Semicolon ==> r == Next(s)
    ensures s.Peek().kind != Semicolon ==> r == s
  {
    if s.Peek().kind == Semicolon then Next(s) else s
  }

  /** parseLetStatement: IDENT, then "=", then the value; a missing name or "=" records an error
      and yields no statement. */
  function ParseLetStatement(s: State): (r: Parsed<Option<Stmt>>)
    requires s.Valid() && s.Cur().kind == Let
    ensures Follows(s, r.st)
    ensures r.node.None? <==> (s.Peek().kind != Ident || s.At(s.pos + 2).kind != Assign)
    ensures s.Peek().kind != Ident ==>
      r.st.pos == s.pos && r.st.errors == s.errors + [PeekErrorMessage(Ident, s.Peek().kind)]
    ensures s.Peek().kind == Ident && s.At(s.pos + 2).kind != Assign ==>
      r.st.pos == s.pos + 1 && r.st.errors == s.errors + [PeekErrorMessage(Assign, s.At(s.pos + 2).kind)]
    ensures r.node.Some? ==>
      r.node.value.LetStmt? && SemicolonSettled(r.st) && r.node.value.name == CurIdentifier(Next(s))
    ensures r.st.errors == s.errors ==> r.node.Some? && r.node.value.value.Some?
    decreases Remaining(s), 3
  {
    var token := CopyToken(s.Cur());
    var (ok1, s1) := ExpectPeek(s, Ident);
    if !ok1 then Parsed(None, s1)
    else
      var name := CurIdentifier(s1);
      var (ok2, s2) := ExpectPeek(s1, Assign);
      if !ok2 then Parsed(None, s2)
      else
        ParseLetValue(s2, token, name)
  }

  /** The rest of parseLetStatement once "=" is current: the value and the optional ";". */
  function ParseLetValue(s: State, token: Token, name: Identifier): (r: Parsed<Option<Stmt>>)
    requires s.Valid() && s.Cur().kind == Assign
    ensures Follows(s, r.st)
    ensures r.node.Some? && r.node.value.LetStmt? && SemicolonSettled(r.st)
    ensures r.node.value.token == token && r.node.value.name == name
    ensures r.st.errors == s.errors ==> r.node.value.value.Some?
    decreases Remaining(s), 3
  {
    var value := ParseExpression(Next(s), Lowest);
    Parsed(Some(LetStmt(token, name, value.node)), SkipSemicolon(value.st))
  }

  /** parseReturnStatement: the value follows the keyword; it may be missing. */
  function ParseReturnStatement(s: State): (r: Parsed<Option<Stmt>>)
    requires s.Valid() && s.Cur().kind == Return
    ensures Follows(s, r.st)
    ensures r.node.Some? && r.node.value.ReturnStmt? && SemicolonSettled(r.st)
    ensures r.st.errors == s.errors ==> r.node.value.returnValue.Some?
    decreases Remaining(s), 3
  {
    var token := CopyToken(s.Cur());
    var value := ParseExpression(Next(s), Lowest);
    Parsed(Some(ReturnStmt(token, value.node)), SkipSemicolon(value.st))
  }

  /** parseExpressionStatement: an expression starting at the current token; it may be missing. */
  function ParseExpressionStatement(s: State): (r: Parsed<Option<Stmt>>)
    requires s.Valid()
    ensures Follows(s, r.st)
    ensures r.node.Some? && r.node.value.ExpressionStmt? && SemicolonSettled(r.st)
    ensures r.st.errors == s.errors ==> r.node.value.expression.Some?
    decreases Remaining(s), 3
  {
    var token := CopyToken(s.Cur());
    var expression := ParseExpression(s, Lowest);
    Parsed(Some(ExpressionStmt(token, expression.node)), SkipSemicolon(expression.st))
  }

  /** parseStatement: dispatch on the current token. The parser never builds a block statement. */
  function ParseStatement(s: State): (r: Parsed<Option<Stmt>>)
    requires s.Valid()
    ensures Follows(s, r.st)
    ensures r.node.Some? ==> !r.node.value.BlockStmt? && SemicolonSettled(r.st)
    ensures r.node.None? ==> s.Cur().kind == Let && r.st.errors != s.errors
    ensures r.st.errors == s.errors ==> r.node.Some?
    decreases Remaining(s), 4
  {
    match s.Cur().kind
    case Let => ParseLetStatement(s)
    case Return => ParseReturnStatement(s)
    case _ => ParseExpressionStatement(s)
  }

  /** Statements the parser built: never a block statement. */
  predicate ParsedStatements(statements: seq<Stmt>) {
    forall i | 0 <= i < |statements| :: !statements[i].BlockStmt?
  }

  /** The loop of parseBlockStatement: parse statements until "}" or EOF, keeping those that were
      built and moving past the last token of each. */
  function BlockLoop(s: State, statements: seq<Stmt>): (r: Parsed<seq<Stmt>>)
    requires s.Valid()
    ensures Follows(s, r.st)
    ensures statements <= r.node
    ensures r.st.Cur().kind == RBrace || r.st.Cur().kind == EndOfFile
    ensures ParsedStatements(statements) ==> ParsedStatements(r.node)
    decreases Remaining(s), 5
  {
    var kind := s.Cur().kind;
    if kind == RBrace || kind == EndOfFile then
      Parsed(statements, s)
    else
      var statement := ParseStatement(s);
      var kept := if statement.node.Some? then statements + [statement.node.value] else statements;
      BlockLoop(Next(statement.st), kept)
  }

  /** parseBlockStatement: from "{" to the matching "}" (or EOF). */
  function ParseBlockStatement(s: State): (r: Parsed<Block>)
    requires s.Valid() && s.Cur().kind == LBrace
    ensures Follows(s, r.st)
    ensures r.st.Cur().kind == RBrace || r.st.Cur().kind == EndOfFile
    ensures ParsedStatements(r.node.statements)
    decreases Remaining(s), 0
  {
    var token := CopyToken(s.Cur());
    var loop := BlockLoop(Next(s), []);
    Parsed(Block(token, loop.node), loop.st)
  }

  /** The loop of ParseProgram: parse statements until EOF, keeping those that were built in
      source order and moving past the last token of each. */
  function ProgramLoop(s: State, statements: seq<Stmt>): (r: Parsed<seq<Stmt>>)
    requires s.Valid()
    ensures Follows(s, r.st)
    ensures statements <= r.node
    ensures r.st.Cur().kind == EndOfFile
    ensures ParsedStatements(statements) ==> ParsedStatements(r.node)
    decreases Remaining(s)
  {
    if s.Cur().kind == EndOfFile then
      Parsed(statements, s)
    else
      var statement := ParseStatement(s);
      var kept := if statement.node.Some? then statements + [statement.node.value] else statements;
      ProgramLoop(Next(statement.st), kept)
  }

  /** CreateParser followed by ParseProgram: the program and the errors collected. */
  function ParseProgram(tokens: seq<Token>): (r: (Program, seq<string>))
    ensures ParsedStatements(r.0.statements)
  {
    var loop := ProgramLoop(CreateParser(tokens), []);
    (Program(loop.node), loop.st.errors)
  }
}
