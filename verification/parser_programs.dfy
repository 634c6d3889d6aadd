/** Properties of ParseProgram: a program of let, return and expression statements, each closed
    by ";", parses back to exactly those statements in source order without errors; and the
    error paths of a let statement with a missing name or "=". */
module ParserPrograms {
  import opened Wrappers
  import opened LibC
  import opened Tokens
  import opened Ast
  import opened Parsing
  import opened ParserProperties

  const SemicolonToken := Token(Semicolon, ";")
  const AssignToken := Token(Assign, "=")

  /** The statements the round trip covers: each one carries a complete value and the NUL-free
      tokens the parser would have built it from. An expression statement's token is the first
      token of its expression. */
  predicate WellFormedStmt(s: Stmt)
  {
    match s
    case LetStmt(t, name, value) =>
      t.kind == Let && '\0' !in t.literal
      && name.token.kind == Ident && name.value == name.token.literal && '\0' !in name.token.literal
      && value.Some? && WellFormed(value.value)
    case ReturnStmt(t, value) =>
      t.kind == Return && '\0' !in t.literal && value.Some? && WellFormed(value.value)
    case ExpressionStmt(t, expression) =>
      expression.Some? && WellFormed(expression.value) && t == ExprTokens(expression.value)[0]
    case BlockStmt(_) => false
  }

  /** The token form of a statement, closed by ";". */
  function StmtTokens(s: Stmt): (ts: seq<Token>)
    requires WellFormedStmt(s)
  {
    match s
    case LetStmt(t, name, value) => [t, name.token, AssignToken] + ExprTokens(value.value) + [SemicolonToken]
    case ReturnStmt(t, value) => [t] + ExprTokens(value.value) + [SemicolonToken]
    case ExpressionStmt(_, expression) => ExprTokens(expression.value) + [SemicolonToken]
  }

  /** The token form of a sequence of statements: their token forms one after another. */
  function ProgramTokens(statements: seq<Stmt>): seq<Token>
    requires forall k | 0 <= k < |statements| :: WellFormedStmt(statements[k])
  {
    if statements == [] then [] else StmtTokens(statements[0]) + ProgramTokens(statements[1..])
  }

  /** `tokens` holds `a + b` from `i` on: `a` from `i`, then `b` right after it. */
  lemma SplitTokens(tokens: seq<Token>, i: nat, a: seq<Token>, b: seq<Token>)
    requires TokensAt(tokens, i, a + b)
    ensures TokensAt(tokens, i, a) && TokensAt(tokens, i + |a|, b)
  {
    forall k | 0 <= k < |a| ensures tokens[i + k] == a[k] {
      assert tokens[i + k] == (a + b)[k];
    }
    forall k | 0 <= k < |b| ensures tokens[i + |a| + k] == b[k] {
      assert tokens[i + (|a| + k)] == (a + b)[|a| + k];
    }
  }

  /** The positions of the parts of `head + expression + [";"]`: the expression starts at `o`
      and ends at `k`, and ";" is at `j`. */
  lemma StatementLayout(tokens: seq<Token>, i: nat, head: seq<Token>, e: WellFormedExpr, o: nat, k: nat, j: nat)
    requires TokensAt(tokens, i, head + ExprTokens(e) + [SemicolonToken])
    requires o == i + |head| && k + 1 == o + |ExprTokens(e)| && j == k + 1
    ensures TokensAt(tokens, i, head) && TokensAt(tokens, o, ExprTokens(e))
    ensures j < |tokens| && tokens[j] == SemicolonToken
  {
    SplitTokens(tokens, i, head + ExprTokens(e), [SemicolonToken]);
    SplitTokens(tokens, i, head, ExprTokens(e));
    assert tokens[j + 0] == [SemicolonToken][0];
  }

  /** The value of a let statement, read from `o` up to ";" at `j`, which is consumed. */
  lemma LetValueStep(tokens: seq<Token>, a: nat, o: nat, errors: seq<string>, s: Stmt, k: nat, j: nat)
    requires s.LetStmt? && s.value.Some? && o == a + 1 && j == k + 1 && a < k && j < |tokens|
    requires ParseExpression(State(Input(tokens), o, errors), Lowest) == Parsed(s.value, State(Input(tokens), k, errors))
    requires tokens[a].kind == Assign && tokens[j].kind == Semicolon
    ensures ParseLetValue(State(Input(tokens), a, errors), s.token, s.name) == Parsed(Some(s), State(Input(tokens), j, errors))
  {
    hide ParseExpression, ParseStatement, ParseLetStatement, TokensAt, ExprTokens, WellFormed;
    assert Next(State(Input(tokens), a, errors)) == State(Input(tokens), o, errors);
    assert SkipSemicolon(State(Input(tokens), k, errors)) == State(Input(tokens), j, errors);
  }

  /** "let", then the name at `i + 1` and "=" at `a`: the statement is its value's. */
  lemma LetStep(tokens: seq<Token>, i: nat, a: nat, errors: seq<string>, s: Stmt, j: nat)
    requires WellFormedStmt(s) && s.LetStmt? && a == i + 2 && a <= j < |tokens|
    requires tokens[i] == s.token && tokens[i + 1] == s.name.token && tokens[a].kind == Assign
    requires ParseLetValue(State(Input(tokens), a, errors), s.token, s.name) == Parsed(Some(s), State(Input(tokens), j, errors))
    ensures ParseStatement(State(Input(tokens), i, errors)) == Parsed(Some(s), State(Input(tokens), j, errors))
  {
    hide ParseStatement, ParseLetStatement, ParseLetValue, ParseExpression, TokensAt, ExprTokens, WellFormed;
    LetHeader(tokens, i, errors);
    assert CopyToken(tokens[i]) == s.token;
    assert CurIdentifier(State(Input(tokens), i + 1, errors)) == s.name;
  }

  /** "let", a name and "=": the statement is parsed by the rest of parseLetStatement from "=",
      with copies of the keyword token and of the name. */
  lemma LetHeader(tokens: seq<Token>, i: nat, errors: seq<string>)
    requires i + 2 < |tokens| && tokens[i].kind == Let && tokens[i + 1].kind == Ident && tokens[i + 2].kind == Assign
    ensures ParseStatement(State(Input(tokens), i, errors))
      == ParseLetValue(State(Input(tokens), i + 2, errors), CopyToken(tokens[i]), CurIdentifier(State(Input(tokens), i + 1, errors)))
  {
    hide ParseLetValue, ParseReturnStatement, ParseExpressionStatement, ParseExpression;
    var st := State(Input(tokens), i, errors);
    var s1 := State(Input(tokens), i + 1, errors);
    assert ExpectPeek(st, Ident) == (true, s1);
    assert ExpectPeek(s1, Assign) == (true, State(Input(tokens), i + 2, errors));
    assert ParseStatement(st) == ParseLetStatement(st);
  }

  /** A let statement read back from its token form; the parse ends on its ";" at `j`. */
  lemma LetRoundTrip(tokens: seq<Token>, i: nat, errors: seq<string>, s: Stmt, j: nat)
    requires WellFormedStmt(s) && s.LetStmt?
    requires TokensAt(tokens, i, StmtTokens(s)) && j + 1 == i + |StmtTokens(s)|
    ensures ParseStatement(State(Input(tokens), i, errors)) == Parsed(Some(s), State(Input(tokens), j, errors))
  {
    hide ParseStatement, ParseExpression, ExprTokens, WellFormed;
    LetLayout(tokens, i, s, j);
    LetParts(tokens, i, errors, s, j);
  }

  /** Where the parts of a let statement's token form lie: "let" at `i`, the name after it, "="
      at `i + 2`, the value from `i + 3` and ";" at `j`. */
  lemma LetLayout(tokens: seq<Token>, i: nat, s: Stmt, j: nat)
    requires WellFormedStmt(s) && s.LetStmt?
    requires TokensAt(tokens, i, StmtTokens(s)) && j + 1 == i + |StmtTokens(s)|
    ensures tokens[i] == s.token && tokens[i + 1] == s.name.token && tokens[i + 2].kind == Assign
    ensures TokensAt(tokens, i + 3, ExprTokens(s.value.value)) && j == i + 3 + |ExprTokens(s.value.value)|
    ensures j < |tokens| && tokens[j].kind == Semicolon
  {
    var e: WellFormedExpr := s.value.value;
    var head := [s.token, s.name.token, AssignToken];
    StatementLayout(tokens, i, head, e, i + 3, j - 1, j);
    assert tokens[i + 0] == head[0] && tokens[i + 1] == head[1] && tokens[i + 2] == head[2];
  }

  /** A let statement whose parts lie as LetLayout says parses back to itself. */
  lemma LetParts(tokens: seq<Token>, i: nat, errors: seq<string>, s: Stmt, j: nat)
    requires WellFormedStmt(s) && s.LetStmt?
    requires TokensAt(tokens, i + 3, ExprTokens(s.value.value)) && j == i + 3 + |ExprTokens(s.value.value)|
    requires j < |tokens| && tokens[j].kind == Semicolon
    requires tokens[i] == s.token && tokens[i + 1] == s.name.token && tokens[i + 2].kind == Assign
    ensures ParseStatement(State(Input(tokens), i, errors)) == Parsed(Some(s), State(Input(tokens), j, errors))
  {
    hide ParseStatement, ParseExpression, ExprTokens, WellFormed;
    LetValueParts(tokens, i + 2, errors, s, j);
    LetStep(tokens, i, i + 2, errors, s, j);
  }

  /** The value of a let statement, from after "=" at `a` up to ";" at `j`, parses back to the
      statement. */
  lemma LetValueParts(tokens: seq<Token>, a: nat, errors: seq<string>, s: Stmt, j: nat)
    requires WellFormedStmt(s) && s.LetStmt?
    requires TokensAt(tokens, a + 1, ExprTokens(s.value.value)) && j == a + 1 + |ExprTokens(s.value.value)|
    requires j < |tokens| && tokens[j].kind == Semicolon && tokens[a].kind == Assign
    ensures ParseLetValue(State(Input(tokens), a, errors), s.token, s.name) == Parsed(Some(s), State(Input(tokens), j, errors))
  {
    hide ParseExpression, TokensAt, ExprTokens, WellFormed;
    var e: WellFormedExpr := s.value.value;
    ExpressionRoundTrip(tokens, a + 1, errors, e, Lowest, j - 1);
    LetValueStep(tokens, a, a + 1, errors, s, j - 1, j);
  }

  /** "return", then the value from `o` up to ";" at `j`, which is consumed. */
  lemma ReturnStep(tokens: seq<Token>, i: nat, o: nat, errors: seq<string>, s: Stmt, k: nat, j: nat)
    requires s.ReturnStmt? && s.returnValue.Some? && s.token.kind == Return && '\0' !in s.token.literal
    requires o == i + 1 && j == k + 1 && i < k && j < |tokens| && tokens[i] == s.token
    requires ParseExpression(State(Input(tokens), o, errors), Lowest) == Parsed(s.returnValue, State(Input(tokens), k, errors))
    requires tokens[j].kind == Semicolon
    ensures ParseStatement(State(Input(tokens), i, errors)) == Parsed(Some(s), State(Input(tokens), j, errors))
  {
    hide ParseExpression, ParseReturnStatement, ParseLetStatement, ParseExpressionStatement, TokensAt, ExprTokens, WellFormed;
    ReturnBody(tokens, i, o, errors, s, k, j);
  }

  /** The body of ReturnStep once the statement parser has dispatched on "return". */
  lemma ReturnBody(tokens: seq<Token>, i: nat, o: nat, errors: seq<string>, s: Stmt, k: nat, j: nat)
    requires s.ReturnStmt? && s.returnValue.Some? && s.token.kind == Return && '\0' !in s.token.literal
    requires o == i + 1 && j == k + 1 && i < k && j < |tokens| && tokens[i] == s.token
    requires ParseExpression(State(Input(tokens), o, errors), Lowest) == Parsed(s.returnValue, State(Input(tokens), k, errors))
    requires tokens[j].kind == Semicolon
    ensures ParseReturnStatement(State(Input(tokens), i, errors)) == Parsed(Some(s), State(Input(tokens), j, errors))
  {
    hide ParseExpression, ParseStatement, ParseLetStatement, ParseExpressionStatement, TokensAt, ExprTokens, WellFormed;
    assert Next(State(Input(tokens), i, errors)) == State(Input(tokens), o, errors);
    assert SkipSemicolon(State(Input(tokens), k, errors)) == State(Input(tokens), j, errors);
  }

  /** A return statement read back from its token form; the parse ends on its ";" at `j`. */
  lemma ReturnRoundTrip(tokens: seq<Token>, i: nat, errors: seq<string>, s: Stmt, j: nat)
    requires WellFormedStmt(s) && s.ReturnStmt?
    requires TokensAt(tokens, i, StmtTokens(s)) && j + 1 == i + |StmtTokens(s)|
    ensures ParseStatement(State(Input(tokens), i, errors)) == Parsed(Some(s), State(Input(tokens), j, errors))
  {
    hide ParseStatement, ParseExpression, ExprTokens, WellFormed;
    ReturnLayout(tokens, i, s, j);
    ReturnParts(tokens, i, errors, s, j);
  }

  /** Where the parts of a return statement's token form lie: "return" at `i`, the value from
      `i + 1` and ";" at `j`. */
  lemma ReturnLayout(tokens: seq<Token>, i: nat, s: Stmt, j: nat)
    requires WellFormedStmt(s) && s.ReturnStmt?
    requires TokensAt(tokens, i, StmtTokens(s)) && j + 1 == i + |StmtTokens(s)|
    ensures tokens[i] == s.token
    ensures TokensAt(tokens, i + 1, ExprTokens(s.returnValue.value)) && j == i + 1 + |ExprTokens(s.returnValue.value)|
    ensures j < |tokens| && tokens[j].kind == Semicolon
  {
    var e: WellFormedExpr := s.returnValue.value;
    StatementLayout(tokens, i, [s.token], e, i + 1, j - 1, j);
    assert tokens[i + 0] == [s.token][0];
  }

  /** A return statement whose parts lie as ReturnLayout says parses back to itself. */
  lemma ReturnParts(tokens: seq<Token>, i: nat, errors: seq<string>, s: Stmt, j: nat)
    requires WellFormedStmt(s) && s.ReturnStmt?
    requires TokensAt(tokens, i + 1, ExprTokens(s.returnValue.value)) && j == i + 1 + |ExprTokens(s.returnValue.value)|
    requires j < |tokens| && tokens[j].kind == Semicolon && tokens[i] == s.token
    ensures ParseStatement(State(Input(tokens), i, errors)) == Parsed(Some(s), State(Input(tokens), j, errors))
  {
    hide ParseStatement, ParseExpression, ExprTokens, WellFormed;
    ReturnValue(tokens, i + 1, errors, s, j);
    ReturnStep(tokens, i, i + 1, errors, s, j - 1, j);
  }

  /** The value of a return statement, read from `o` up to ";" at `j`. */
  lemma ReturnValue(tokens: seq<Token>, o: nat, errors: seq<string>, s: Stmt, j: nat)
    requires WellFormedStmt(s) && s.ReturnStmt?
    requires TokensAt(tokens, o, ExprTokens(s.returnValue.value)) && j == o + |ExprTokens(s.returnValue.value)|
    requires j < |tokens| && tokens[j].kind == Semicolon
    ensures o < j
    ensures ParseExpression(State(Input(tokens), o, errors), Lowest) == Parsed(s.returnValue, State(Input(tokens), j - 1, errors))
  {
    hide ParseExpression, TokensAt, ExprTokens, WellFormed;
    var e: WellFormedExpr := s.returnValue.value;
    ExpressionRoundTrip(tokens, o, errors, e, Lowest, j - 1);
  }

  /** An expression statement: the expression from `i` up to ";" at `j`, which is consumed. */
  lemma ExpressionStmtStep(tokens: seq<Token>, i: nat, errors: seq<string>, s: Stmt, k: nat, j: nat)
    requires s.ExpressionStmt? && s.expression.Some? && j == k + 1 && i <= k && j < |tokens|
    requires tokens[i] == s.token && '\0' !in s.token.literal && tokens[i].kind != Let && tokens[i].kind != Return
    requires ParseExpression(State(Input(tokens), i, errors), Lowest) == Parsed(s.expression, State(Input(tokens), k, errors))
    requires tokens[j].kind == Semicolon
    ensures ParseStatement(State(Input(tokens), i, errors)) == Parsed(Some(s), State(Input(tokens), j, errors))
  {
    hide ParseExpression, ParseExpressionStatement, ParseLetStatement, ParseReturnStatement, TokensAt, ExprTokens, WellFormed;
    ExpressionStmtBody(tokens, i, errors, s, k, j);
  }

  /** The body of ExpressionStmtStep once the statement parser has dispatched. */
  lemma ExpressionStmtBody(tokens: seq<Token>, i: nat, errors: seq<string>, s: Stmt, k: nat, j: nat)
    requires s.ExpressionStmt? && s.expression.Some? && j == k + 1 && i <= k && j < |tokens|
    requires tokens[i] == s.token && '\0' !in s.token.literal
    requires ParseExpression(State(Input(tokens), i, errors), Lowest) == Parsed(s.expression, State(Input(tokens), k, errors))
    requires tokens[j].kind == Semicolon
    ensures ParseExpressionStatement(State(Input(tokens), i, errors)) == Parsed(Some(s), State(Input(tokens), j, errors))
  {
    hide ParseExpression, ParseStatement, ParseLetStatement, ParseReturnStatement, TokensAt, ExprTokens, WellFormed;
    assert SkipSemicolon(State(Input(tokens), k, errors)) == State(Input(tokens), j, errors);
  }

  /** An expression statement read back from its token form; the parse ends on its ";" at `j`. */
  lemma ExpressionStmtRoundTrip(tokens: seq<Token>, i: nat, errors: seq<string>, s: Stmt, j: nat)
    requires WellFormedStmt(s) && s.ExpressionStmt?
    requires TokensAt(tokens, i, StmtTokens(s)) && j + 1 == i + |StmtTokens(s)|
    ensures ParseStatement(State(Input(tokens), i, errors)) == Parsed(Some(s), State(Input(tokens), j, errors))
  {
    hide ParseStatement, ParseExpression, ExprTokens, WellFormed;
    ExpressionStmtLayout(tokens, i, s, j);
    ExpressionStmtParts(tokens, i, errors, s, j);
  }

  /** Where the parts of an expression statement's token form lie: the expression from `i`,
      starting with the statement's token, and ";" at `j`. */
  lemma ExpressionStmtLayout(tokens: seq<Token>, i: nat, s: Stmt, j: nat)
    requires WellFormedStmt(s) && s.ExpressionStmt?
    requires TokensAt(tokens, i, StmtTokens(s)) && j + 1 == i + |StmtTokens(s)|
    ensures TokensAt(tokens, i, ExprTokens(s.expression.value)) && j == i + |ExprTokens(s.expression.value)|
    ensures j < |tokens| && tokens[j].kind == Semicolon
    ensures tokens[i] == s.token && HasPrefixParser(tokens[i].kind)
  {
    var e: WellFormedExpr := s.expression.value;
    assert [] + ExprTokens(e) + [SemicolonToken] == StmtTokens(s);
    StatementLayout(tokens, i, [], e, i, j - 1, j);
    assert tokens[i + 0] == ExprTokens(e)[0];
  }

  /** An expression statement whose parts lie as ExpressionStmtLayout says parses back to itself. */
  lemma ExpressionStmtParts(tokens: seq<Token>, i: nat, errors: seq<string>, s: Stmt, j: nat)
    requires WellFormedStmt(s) && s.ExpressionStmt?
    requires TokensAt(tokens, i, ExprTokens(s.expression.value)) && j == i + |ExprTokens(s.expression.value)|
    requires j < |tokens| && tokens[j].kind == Semicolon
    requires tokens[i] == s.token && HasPrefixParser(tokens[i].kind)
    ensures ParseStatement(State(Input(tokens), i, errors)) == Parsed(Some(s), State(Input(tokens), j, errors))
  {
    hide ParseStatement, ParseExpression;
    ExpressionStmtValue(tokens, i, errors, s, j);
    ExpressionStmtStep(tokens, i, errors, s, j - 1, j);
  }

  /** The expression of an expression statement, read from `i` up to ";" at `j`. */
  lemma ExpressionStmtValue(tokens: seq<Token>, i: nat, errors: seq<string>, s: Stmt, j: nat)
    requires WellFormedStmt(s) && s.ExpressionStmt?
    requires TokensAt(tokens, i, ExprTokens(s.expression.value)) && j == i + |ExprTokens(s.expression.value)|
    requires j < |tokens| && tokens[j].kind == Semicolon
    ensures i < j
    ensures ParseExpression(State(Input(tokens), i, errors), Lowest) == Parsed(s.expression, State(Input(tokens), j - 1, errors))
  {
    hide ParseExpression, TokensAt, ExprTokens, WellFormed;
    var e: WellFormedExpr := s.expression.value;
    ExpressionRoundTrip(tokens, i, errors, e, Lowest, j - 1);
  }

  /** A statement read back from its token form; the parse ends on its closing ";" at `j`. */
  lemma StmtRoundTrip(tokens: seq<Token>, i: nat, errors: seq<string>, s: Stmt, j: nat)
    requires WellFormedStmt(s)
    requires TokensAt(tokens, i, StmtTokens(s)) && j + 1 == i + |StmtTokens(s)|
    ensures ParseStatement(State(Input(tokens), i, errors)) == Parsed(Some(s), State(Input(tokens), j, errors))
  {
    match s
    case LetStmt(_, _, _) => LetRoundTrip(tokens, i, errors, s, j);
    case ReturnStmt(_, _) => ReturnRoundTrip(tokens, i, errors, s, j);
    case ExpressionStmt(_, _) => ExpressionStmtRoundTrip(tokens, i, errors, s, j);
  }

  /** One turn of the program loop over a statement that ends on the token at `j`: a statement
      that was built is kept, a missing one is dropped; the next turn starts at `n`. */
  lemma ProgramLoopStep(tokens: seq<Token>, i: nat, errors: seq<string>, after: seq<string>, statements: seq<Stmt>, node: Option<Stmt>, j: nat, n: nat)
    requires i <= j < |tokens| && n == j + 1 && tokens[i].kind != EndOfFile
    requires ParseStatement(State(Input(tokens), i, errors)) == Parsed(node, State(Input(tokens), j, after))
    ensures ProgramLoop(State(Input(tokens), i, errors), statements)
      == ProgramLoop(State(Input(tokens), n, after), if node.Some? then statements + [node.value] else statements)
  {
    assert Next(State(Input(tokens), j, after)) == State(Input(tokens), n, after);
  }

  /** At the end of the stream the program loop stops with what it has kept. */
  lemma ProgramLoopEnd(tokens: seq<Token>, errors: seq<string>, statements: seq<Stmt>)
    ensures ProgramLoop(State(Input(tokens), |tokens|, errors), statements)
      == Parsed(statements, State(Input(tokens), |tokens|, errors))
  {
  }

  /** The first token of a statement's token form is never EOF. */
  lemma StmtTokensStart(s: Stmt)
    requires WellFormedStmt(s)
    ensures |StmtTokens(s)| >= 2 && StmtTokens(s)[0].kind != EndOfFile
  {
    if s.ExpressionStmt? {
      assert StmtTokens(s)[0] == ExprTokens(s.expression.value)[0];
    }
  }

  /** The program loop over the token forms of `statements`, from `i` to the end of the stream,
      appends exactly those statements and records no error. */
  lemma {:induction false} ProgramLoopRoundTrip(tokens: seq<Token>, i: nat, errors: seq<string>, statements: seq<Stmt>, kept: seq<Stmt>)
    requires forall k | 0 <= k < |statements| :: WellFormedStmt(statements[k])
    requires TokensAt(tokens, i, ProgramTokens(statements)) && i + |ProgramTokens(statements)| == |tokens|
    ensures ProgramLoop(State(Input(tokens), i, errors), kept) == Parsed(kept + statements, State(Input(tokens), |tokens|, errors))
    decreases |statements|
  {
    if statements == [] {
      assert kept + statements == kept;
    } else {
      hide ParseStatement, ParseExpression, ProgramLoop;
      var s := statements[0];
      var rest := statements[1..];
      var j := i + |StmtTokens(s)| - 1;
      var n := j + 1;
      StmtTokensStart(s);
      SplitTokens(tokens, i, StmtTokens(s), ProgramTokens(rest));
      assert tokens[i + 0] == StmtTokens(s)[0];
      StmtRoundTrip(tokens, i, errors, s, j);
      ProgramLoopStep(tokens, i, errors, errors, kept, Some(s), j, n);
      ProgramLoopRoundTrip(tokens, n, errors, rest, kept + [s]);
      AppendFirst(kept, statements);
    }
  }

  /** Keeping the first statement and then the rest keeps them all. */
  lemma AppendFirst(kept: seq<Stmt>, statements: seq<Stmt>)
    requires statements != []
    ensures kept + [statements[0]] + statements[1..] == kept + statements
  {
    assert [statements[0]] + statements[1..] == statements;
  }

  /** ParseProgram reads a program of let, return and expression statements, each closed by ";",
      back from its token form: the same statements in source order, and no errors. */
  lemma ProgramRoundTrip(statements: seq<Stmt>)
    requires forall k | 0 <= k < |statements| :: WellFormedStmt(statements[k])
    ensures ParseProgram(ProgramTokens(statements)) == (Program(statements), [])
  {
    var tokens := ProgramTokens(statements);
    ProgramLoopRoundTrip(tokens, 0, [], statements, []);
    assert [] + statements == statements;
  }

  // ---------------------------------------------------------------------------------------------
  // Error paths of a let statement

  /** The expression statement `5;` at `i`. */
  lemma FiveStatement(tokens: seq<Token>, i: nat, errors: seq<string>)
    requires i + 1 < |tokens| && tokens[i] == Token(Int, "5") && tokens[i + 1] == SemicolonToken
    ensures ParseStatement(State(Input(tokens), i, errors)) == Parsed(Some(Five()), State(Input(tokens), i + 1, errors))
  {
    assert FormatInt64(5) == "5";
    StrToLLInvertsFormat(5);
    assert StmtTokens(Five()) == [Token(Int, "5"), SemicolonToken];
    assert tokens[i + 0] == Token(Int, "5") && tokens[i + 1] == SemicolonToken;
    ExpressionStmtRoundTrip(tokens, i, errors, Five(), i + 1);
  }

  /** The statement `5;` as the parser builds it. */
  function Five(): (s: Stmt)
    ensures WellFormedStmt(s)
  {
    assert FormatInt64(5) == "5";
    StrToLLInvertsFormat(5);
    ExpressionStmt(Token(Int, "5"), Some(IntegerLit(Token(Int, "5"), 5)))
  }

  /** A let statement whose name is missing records the peek error, builds nothing and leaves
      the parser on "let". */
  lemma LetNameMissing(tokens: seq<Token>, i: nat, errors: seq<string>)
    requires i + 1 < |tokens| && tokens[i].kind == Let && tokens[i + 1].kind != Ident
    ensures ParseStatement(State(Input(tokens), i, errors))
      == Parsed(None, State(Input(tokens), i, errors + [PeekErrorMessage(Ident, tokens[i + 1].kind)]))
  {
  }

  /** A let statement whose "=" is missing records the peek error, builds nothing and leaves
      the parser on the name. */
  lemma LetAssignMissing(tokens: seq<Token>, i: nat, errors: seq<string>)
    requires i + 2 < |tokens| && tokens[i].kind == Let && tokens[i + 1].kind == Ident && tokens[i + 2].kind != Assign
    ensures ParseStatement(State(Input(tokens), i, errors))
      == Parsed(None, State(Input(tokens), i + 1, errors + [PeekErrorMessage(Assign, tokens[i + 2].kind)]))
  {
  }

  /** A token that starts no statement and no expression gives an expression statement without
      an expression, after recording the no-prefix error. */
  lemma ExpressionMissing(tokens: seq<Token>, i: nat, errors: seq<string>)
    requires i + 1 < |tokens| && '\0' !in tokens[i].literal && tokens[i + 1].kind != Semicolon
    requires tokens[i].kind != Let && tokens[i].kind != Return && !HasPrefixParser(tokens[i].kind)
    ensures ParseStatement(State(Input(tokens), i, errors))
      == Parsed(Some(ExpressionStmt(tokens[i], None)), State(Input(tokens), i, errors + [NoPrefixMessage(tokens[i].kind)]))
  {
  }

  /** `let = 5;`: the missing name is reported by expectPeek without advancing and no statement
      is built; the program loop then reads "=" as an expression statement with no expression
      (a second error) and `5;` as another expression statement. */
  lemma LetMissingName()
    ensures var r := ParseProgram([Token(Let, "let"), AssignToken, Token(Int, "5"), SemicolonToken]);
      r.1 == [PeekErrorMessage(Ident, Assign), NoPrefixMessage(Assign)]
      && r.0.statements == [ExpressionStmt(AssignToken, None), Five()]
  {
    hide ParseStatement, ParseExpression;
    var tokens := [Token(Let, "let"), AssignToken, Token(Int, "5"), SemicolonToken];
    var e2 := [PeekErrorMessage(Ident, Assign), NoPrefixMessage(Assign)];
    var missing := ExpressionStmt(AssignToken, None);
    MissingNameHead(tokens);
    FiveStatement(tokens, 2, e2);
    ProgramLoopStep(tokens, 2, e2, e2, [missing], Some(Five()), 3, 4);
    ProgramLoopEnd(tokens, e2, [missing, Five()]);
  }

  /** The first two turns of the program loop over `let = 5;`: "let" builds nothing, "=" builds
      an expression statement without an expression. */
  lemma MissingNameHead(tokens: seq<Token>)
    requires tokens == [Token(Let, "let"), AssignToken, Token(Int, "5"), SemicolonToken]
    ensures ProgramLoop(State(Input(tokens), 0, []), [])
      == ProgramLoop(State(Input(tokens), 2, [PeekErrorMessage(Ident, Assign), NoPrefixMessage(Assign)]),
                     [ExpressionStmt(AssignToken, None)])
  {
    hide ParseStatement, ParseExpression, ProgramLoop;
    var e1 := [PeekErrorMessage(Ident, Assign)];
    var e2 := e1 + [NoPrefixMessage(Assign)];
    LetNameMissing(tokens, 0, []);
    ProgramLoopStep(tokens, 0, [], e1, [], None, 0, 1);
    ExpressionMissing(tokens, 1, e1);
    ProgramLoopStep(tokens, 1, e1, e2, [], Some(ExpressionStmt(AssignToken, None)), 1, 2);
    assert e2 == [PeekErrorMessage(Ident, Assign), NoPrefixMessage(Assign)];
    assert [] + [ExpressionStmt(AssignToken, None)] == [ExpressionStmt(AssignToken, None)];
  }

  /** `let x 5;`: the missing "=" is reported once the name has been read and no statement is
      built; the program loop then reads `5;` as an expression statement. */
  lemma LetMissingAssign()
    ensures var r := ParseProgram([Token(Let, "let"), Token(Ident, "x"), Token(Int, "5"), SemicolonToken]);
      r.1 == [PeekErrorMessage(Assign, Int)] && r.0.statements == [Five()]
  {
    hide ParseStatement, ParseExpression;
    var tokens := [Token(Let, "let"), Token(Ident, "x"), Token(Int, "5"), SemicolonToken];
    var e1 := [PeekErrorMessage(Assign, Int)];
    LetAssignMissing(tokens, 0, []);
    ProgramLoopStep(tokens, 0, [], e1, [], None, 1, 2);
    FiveStatement(tokens, 2, e1);
    ProgramLoopStep(tokens, 2, e1, e1, [], Some(Five()), 3, 4);
    ProgramLoopEnd(tokens, e1, [Five()]);
  }
}
