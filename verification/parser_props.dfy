/** Properties of the parser model: the precedence ladder and associativity of the Pratt loop,
    the error paths of let statements, and a round trip between the printer and the parser for
    fully parenthesised operator expressions. */
module ParserProperties {
  import opened Wrappers
  import opened LibC
  import opened Tokens
  import opened Ast
  import opened Parsing
  import opened Lexing

  // ---------------------------------------------------------------------------------------------
  // The Pratt loop on two operators

  /** A leaf operand as parseIdentifier builds it from its token. */
  function Leaf(t: Token): Expr
  {
    Name(Identifier(CopyToken(t), Strings.Strdup(t.literal)))
  }

  /** A binary node as parseInfixExpression builds it from its operator token. */
  function Binary(op: Token, left: Expr, right: Expr): Expr
  {
    InfixExpr(CopyToken(op), Some(left), Strings.Strdup(CopyToken(op).literal), Some(right))
  }

  /** The token stream of `x o1 y o2 z` for identifiers x, y, z and binary operators o1, o2. */
  predicate TwoOperators(tokens: seq<Token>)
  {
    |tokens| == 5 && tokens[0].kind == Ident && tokens[2].kind == Ident && tokens[4].kind == Ident
    && IsBinaryOperator(tokens[1].kind) && IsBinaryOperator(tokens[3].kind)
  }

  /** An identifier whose successor does not bind more tightly than `p` parses on its own. */
  lemma IdentifierStops(s: State, p: Precedence)
    requires s.Valid() && s.Cur().kind == Ident
    requires InfixPrecedence(s.Peek().kind).Rank() <= p.Rank()
    ensures ParseExpression(s, p) == Parsed(Some(Leaf(s.Cur())), s)
  {
    assert ParsePrefix(s) == Parsed(Some(Leaf(s.Cur())), s);
  }

  /** One turn of the Pratt loop over a binary operator: its right operand is parsed at the
      operator's own precedence from the token after it. */
  lemma AbsorbStep(tokens: seq<Token>, j: nat, o: nat, errors: seq<string>, left: Expr, p: Precedence, right: Option<Expr>, k: nat)
    requires o == j + 2 && j + 1 < |tokens| && IsBinaryOperator(tokens[j + 1].kind)
    requires p.Rank() < InfixPrecedence(tokens[j + 1].kind).Rank()
    requires ParseExpression(State(Input(tokens), o, errors), InfixPrecedence(tokens[j + 1].kind)) == Parsed(right, State(Input(tokens), k, errors))
    ensures var op := tokens[j + 1];
      InfixLoop(State(Input(tokens), j, errors), Some(left), p)
      == InfixLoop(State(Input(tokens), k, errors), Some(InfixExpr(CopyToken(op), Some(left), Strings.Strdup(CopyToken(op).literal), right)), p)
  {
    hide ParseExpression, ParsePrefix, ParseCallExpression, ParseInfixExpression;
    assert Next(State(Input(tokens), j, errors)) == State(Input(tokens), j + 1, errors);
    InfixOperatorStep(tokens, j, o, errors, left, right, k);
  }

  /** parseInfixExpression on a binary operator at `j + 1`: the node over `left` and the right
      operand the Pratt loop read from the token after the operator. */
  lemma InfixOperatorStep(tokens: seq<Token>, j: nat, o: nat, errors: seq<string>, left: Expr, right: Option<Expr>, k: nat)
    requires o == j + 2 && j + 1 < |tokens| && IsBinaryOperator(tokens[j + 1].kind)
    requires ParseExpression(State(Input(tokens), o, errors), InfixPrecedence(tokens[j + 1].kind)) == Parsed(right, State(Input(tokens), k, errors))
    ensures var op := tokens[j + 1];
      ParseInfixExpression(State(Input(tokens), j + 1, errors), Some(left))
      == Parsed(Some(InfixExpr(CopyToken(op), Some(left), Strings.Strdup(CopyToken(op).literal), right)), State(Input(tokens), k, errors))
  {
    hide ParseExpression, ParsePrefix, ParseCallExpression, InfixLoop;
    assert Next(State(Input(tokens), j + 1, errors)) == State(Input(tokens), o, errors);
  }

  /** One turn of the Pratt loop over a binary operator whose right operand is a lone identifier. */
  lemma AbsorbOperator(tokens: seq<Token>, j: nat, left: Expr, p: Precedence)
    requires j + 2 < |tokens| && IsBinaryOperator(tokens[j + 1].kind)
    requires p.Rank() < InfixPrecedence(tokens[j + 1].kind).Rank()
    requires tokens[j + 2].kind == Ident
    requires InfixPrecedence(State(Input(tokens), j + 2, []).Peek().kind).Rank() <= InfixPrecedence(tokens[j + 1].kind).Rank()
    ensures InfixLoop(State(Input(tokens), j, []), Some(left), p)
      == InfixLoop(State(Input(tokens), j + 2, []), Some(Binary(tokens[j + 1], left, Leaf(tokens[j + 2]))), p)
  {
    hide InfixLoop, ParseExpression, ParsePrefix, ParseInfixExpression, ParseCallExpression;
    IdentifierStops(State(Input(tokens), j + 2, []), InfixPrecedence(tokens[j + 1].kind));
    AbsorbStep(tokens, j, j + 2, [], left, p, Some(Leaf(tokens[j + 2])), j + 2);
  }

  /** The Pratt loop stops when the next token binds no more tightly than `p`. */
  lemma LoopStops(s: State, left: Option<Expr>, p: Precedence)
    requires s.Valid() && InfixPrecedence(s.Peek().kind).Rank() <= p.Rank()
    ensures InfixLoop(s, left, p) == Parsed(left, s)
  {
  }

  /** An expression starting with an identifier enters the Pratt loop with that identifier. */
  lemma IdentifierStarts(s: State, p: Precedence)
    requires s.Valid() && s.Cur().kind == Ident
    ensures ParseExpression(s, p) == InfixLoop(s, Some(Leaf(s.Cur())), p)
  {
    assert ParsePrefix(s) == Parsed(Some(Leaf(s.Cur())), s);
  }

  /** `x o1 y` is the first operand when o1 binds at least as tightly as o2. */
  lemma GroupsLeft(tokens: seq<Token>)
    requires TwoOperators(tokens)
    requires InfixPrecedence(tokens[1].kind).Rank() >= InfixPrecedence(tokens[3].kind).Rank()
    ensures ParseExpression(State(Input(tokens), 0, []), Lowest)
      == Parsed(Some(Binary(tokens[3], Binary(tokens[1], Leaf(tokens[0]), Leaf(tokens[2])), Leaf(tokens[4]))),
                State(Input(tokens), 4, []))
  {
    var whole := Binary(tokens[3], Binary(tokens[1], Leaf(tokens[0]), Leaf(tokens[2])), Leaf(tokens[4]));
    IdentifierStarts(State(Input(tokens), 0, []), Lowest);
    LeftAbsorbed(tokens);
    LoopStops(State(Input(tokens), 4, []), Some(whole), Lowest);
  }

  /** The Pratt loop at LOWEST over `x o1 y o2 z` absorbs o1 and then o2 when o1 binds at least as
      tightly as o2. */
  lemma LeftAbsorbed(tokens: seq<Token>)
    requires TwoOperators(tokens)
    requires InfixPrecedence(tokens[1].kind).Rank() >= InfixPrecedence(tokens[3].kind).Rank()
    ensures InfixLoop(State(Input(tokens), 0, []), Some(Leaf(tokens[0])), Lowest)
      == InfixLoop(State(Input(tokens), 4, []), Some(Binary(tokens[3], Binary(tokens[1], Leaf(tokens[0]), Leaf(tokens[2])), Leaf(tokens[4]))), Lowest)
  {
    hide InfixLoop, ParseExpression, ParsePrefix, ParseInfixExpression, ParseCallExpression;
    var left := Binary(tokens[1], Leaf(tokens[0]), Leaf(tokens[2]));
    AbsorbOperator(tokens, 0, Leaf(tokens[0]), Lowest);
    AbsorbOperator(tokens, 2, left, Lowest);
  }

  /** The right operand of `x o1 y o2 z` when o2 binds more tightly than o1. */
  lemma TighterOperand(tokens: seq<Token>)
    requires TwoOperators(tokens)
    requires InfixPrecedence(tokens[1].kind).Rank() < InfixPrecedence(tokens[3].kind).Rank()
    ensures ParseExpression(State(Input(tokens), 2, []), InfixPrecedence(tokens[1].kind))
      == Parsed(Some(Binary(tokens[3], Leaf(tokens[2]), Leaf(tokens[4]))), State(Input(tokens), 4, []))
  {
    var y := Leaf(tokens[2]);
    var p1 := InfixPrecedence(tokens[1].kind);
    var right := Binary(tokens[3], y, Leaf(tokens[4]));
    calc {
      ParseExpression(State(Input(tokens), 2, []), p1);
      { IdentifierStarts(State(Input(tokens), 2, []), p1); }
      InfixLoop(State(Input(tokens), 2, []), Some(y), p1);
      { AbsorbOperator(tokens, 2, y, p1); }
      InfixLoop(State(Input(tokens), 4, []), Some(right), p1);
      { LoopStops(State(Input(tokens), 4, []), Some(right), p1); }
      Parsed(Some(right), State(Input(tokens), 4, []));
    }
  }

  /** The Pratt loop at LOWEST over `x o1 y o2 z` takes `y o2 z` as the right operand of o1 when
      o2 binds more tightly than o1. */
  lemma TighterAbsorbed(tokens: seq<Token>)
    requires TwoOperators(tokens)
    requires InfixPrecedence(tokens[1].kind).Rank() < InfixPrecedence(tokens[3].kind).Rank()
    ensures InfixLoop(State(Input(tokens), 0, []), Some(Leaf(tokens[0])), Lowest)
      == InfixLoop(State(Input(tokens), 4, []), Some(Binary(tokens[1], Leaf(tokens[0]), Binary(tokens[3], Leaf(tokens[2]), Leaf(tokens[4])))), Lowest)
  {
    TighterOperand(tokens);
    AbsorbStep(tokens, 0, 2, [], Leaf(tokens[0]), Lowest, Some(Binary(tokens[3], Leaf(tokens[2]), Leaf(tokens[4]))), 4);
  }

  /** `y o2 z` is the second operand when o2 binds more tightly than o1. */
  lemma GroupsRight(tokens: seq<Token>)
    requires TwoOperators(tokens)
    requires InfixPrecedence(tokens[1].kind).Rank() < InfixPrecedence(tokens[3].kind).Rank()
    ensures ParseExpression(State(Input(tokens), 0, []), Lowest)
      == Parsed(Some(Binary(tokens[1], Leaf(tokens[0]), Binary(tokens[3], Leaf(tokens[2]), Leaf(tokens[4])))),
                State(Input(tokens), 4, []))
  {
    var whole := Binary(tokens[1], Leaf(tokens[0]), Binary(tokens[3], Leaf(tokens[2]), Leaf(tokens[4])));
    IdentifierStarts(State(Input(tokens), 0, []), Lowest);
    TighterAbsorbed(tokens);
    LoopStops(State(Input(tokens), 4, []), Some(whole), Lowest);
  }

  /** `x o1 y o2 z` groups to the left when o1 binds at least as tightly as o2, and to the right
      otherwise: equal precedences associate to the left and higher precedence binds tighter.
      Either way no error is recorded and the parse ends on z. */
  lemma OperatorGrouping(tokens: seq<Token>)
    requires TwoOperators(tokens)
    ensures var e := ParseExpression(State(Input(tokens), 0, []), Lowest);
      var r1 := InfixPrecedence(tokens[1].kind).Rank();
      var r2 := InfixPrecedence(tokens[3].kind).Rank();
      e.st.errors == [] && e.st.pos == 4
      && (r1 >= r2 ==> e.node == Some(Binary(tokens[3], Binary(tokens[1], Leaf(tokens[0]), Leaf(tokens[2])), Leaf(tokens[4]))))
      && (r1 < r2 ==> e.node == Some(Binary(tokens[1], Leaf(tokens[0]), Binary(tokens[3], Leaf(tokens[2]), Leaf(tokens[4])))))
  {
    if InfixPrecedence(tokens[1].kind).Rank() >= InfixPrecedence(tokens[3].kind).Rank() {
      GroupsLeft(tokens);
    } else {
      GroupsRight(tokens);
    }
  }

  // ---------------------------------------------------------------------------------------------
  // Round trip: the token form of a fully parenthesised expression parses back to it

  /** The operator expressions the round trip covers: identifiers, integer and boolean literals,
      prefix and infix operators, every node carrying the NUL-free token the parser would have
      built it from. */
  predicate WellFormed(e: Expr)
  {
    match e
    case Name(id) => id.token.kind == Ident && id.value == id.token.literal && '\0' !in id.token.literal
    case IntegerLit(t, v) => t.kind == Int && '\0' !in t.literal && StrToLL(t.literal) == Conversion(v, |t.literal|)
    case BooleanLit(t, b) => (t.kind == True || t.kind == False) && b == (t.kind == True) && '\0' !in t.literal
    case PrefixExpr(t, op, right) =>
      (t.kind == Bang || t.kind == Minus) && op == t.literal && '\0' !in t.literal
      && right.Some? && WellFormed(right.value)
    case InfixExpr(t, left, op, right) =>
      IsBinaryOperator(t.kind) && op == t.literal && '\0' !in t.literal
      && left.Some? && WellFormed(left.value) && right.Some? && WellFormed(right.value)
    case _ => false
  }

  /** The expressions the round trip covers. */
  type WellFormedExpr = e: Expr | WellFormed(e) witness Name(Identifier(Token(Ident, "x"), "x"))

  const OpenParen := Token(LParen, "(")
  const CloseParen := Token(RParen, ")")

  /** The tokens of an expression written the way ExpressionString prints it, every operator
      node in parentheses. Only complete operator expressions have a token form. */
  function ExprTokens(e: Expr): (ts: seq<Token>)
    ensures WellFormed(e) ==> |ts| >= 1 && HasPrefixParser(ts[0].kind)
  {
    match e
    case Name(id) => [id.token]
    case IntegerLit(t, _) => [t]
    case BooleanLit(t, _) => [t]
    case PrefixExpr(t, _, Some(right)) => [OpenParen, t] + ExprTokens(right) + [CloseParen]
    case InfixExpr(t, Some(left), _, Some(right)) =>
      [OpenParen] + ExprTokens(left) + [t] + ExprTokens(right) + [CloseParen]
    case _ => []
  }

  /** `tokens` holds `ts` from index `i` on. */
  predicate TokensAt(tokens: seq<Token>, i: nat, ts: seq<Token>)
  {
    i + |ts| <= |tokens| && forall k | 0 <= k < |ts| :: tokens[i + k] == ts[k]
  }

  /** The positions of the parts of a stream segment `[first] + middle + [last]`. */
  lemma Enclosed(tokens: seq<Token>, i: nat, first: Token, middle: seq<Token>, last: Token)
    requires TokensAt(tokens, i, [first] + middle + [last])
    ensures tokens[i] == first && i + 1 + |middle| < |tokens| && tokens[i + 1 + |middle|] == last
    ensures TokensAt(tokens, i + 1, middle)
  {
    var ts := [first] + middle + [last];
    assert tokens[i + 0] == ts[0];
    assert tokens[i + (|ts| - 1)] == ts[|ts| - 1];
    forall k | 0 <= k < |middle| ensures tokens[i + 1 + k] == middle[k] {
      assert tokens[i + (k + 1)] == ts[k + 1];
    }
  }

  /** The positions of the parts of a stream segment `left + [middle] + right`. */
  lemma Separated(tokens: seq<Token>, i: nat, left: seq<Token>, middle: Token, right: seq<Token>)
    requires TokensAt(tokens, i, left + [middle] + right)
    ensures TokensAt(tokens, i, left) && tokens[i + |left|] == middle && TokensAt(tokens, i + |left| + 1, right)
  {
    var ts := left + [middle] + right;
    assert tokens[i + |left|] == ts[|left|];
    forall k | 0 <= k < |left| ensures tokens[i + k] == left[k] {
      assert tokens[i + k] == ts[k];
    }
    forall k | 0 <= k < |right| ensures tokens[i + |left| + 1 + k] == right[k] {
      assert tokens[i + (|left| + 1 + k)] == ts[|left| + 1 + k];
    }
  }

  /** The token form of a prefix expression, one level down. */
  lemma PrefixTokens(e: Expr)
    requires e.PrefixExpr? && e.right.Some?
    ensures ExprTokens(e) == [OpenParen] + ([e.token] + ExprTokens(e.right.value)) + [CloseParen]
  {
  }

  /** The token form of an infix expression, one level down. */
  lemma InfixTokens(e: Expr)
    requires e.InfixExpr? && e.left.Some? && e.right.Some?
    ensures ExprTokens(e) == [OpenParen] + (ExprTokens(e.left.value) + [e.token] + ExprTokens(e.right.value)) + [CloseParen]
  {
  }

  // The lemmas below name every position they mention, so that the parser states in one
  // lemma's conclusion are literally the states in the next one's premises; the arithmetic
  // between positions is stated on its own.

  /** The positions of the parts of `( op right )`: the operand starts at `o` and ends at `j`. */
  lemma PrefixLayout(tokens: seq<Token>, i: nat, o: nat, e: WellFormedExpr, j: nat)
    requires e.PrefixExpr? && TokensAt(tokens, i, ExprTokens(e))
    requires o == i + 2 && j + 1 == o + |ExprTokens(e.right.value)|
    ensures j + 2 == i + |ExprTokens(e)| && i + 1 < j && j + 1 < |tokens|
    ensures tokens[i] == OpenParen && tokens[i + 1] == e.token && tokens[j + 1] == CloseParen
    ensures TokensAt(tokens, o, ExprTokens(e.right.value))
  {
    var rt := ExprTokens(e.right.value);
    PrefixTokens(e);
    Enclosed(tokens, i, OpenParen, [e.token] + rt, CloseParen);
    assert [] + [e.token] + rt == [e.token] + rt;
    Separated(tokens, i + 1, [], e.token, rt);
  }

  /** The positions of the parts of `( left op right )`: the left operand starts at `a` and ends
      at `j`, the right one starts at `o` and ends at `k`. */
  lemma InfixLayout(tokens: seq<Token>, i: nat, a: nat, e: WellFormedExpr, j: nat, o: nat, k: nat)
    requires e.InfixExpr? && TokensAt(tokens, i, ExprTokens(e))
    requires a == i + 1 && j + 1 == a + |ExprTokens(e.left.value)|
    requires o == j + 2 && k + 1 == o + |ExprTokens(e.right.value)|
    ensures k + 2 == i + |ExprTokens(e)| && a <= j && j + 1 < k && k + 1 < |tokens|
    ensures tokens[i] == OpenParen && tokens[j + 1] == e.token && tokens[k + 1] == CloseParen
    ensures TokensAt(tokens, a, ExprTokens(e.left.value)) && TokensAt(tokens, o, ExprTokens(e.right.value))
  {
    var lt := ExprTokens(e.left.value);
    var rt := ExprTokens(e.right.value);
    InfixTokens(e);
    Enclosed(tokens, i, OpenParen, lt + [e.token] + rt, CloseParen);
    Separated(tokens, i + 1, lt, e.token, rt);
  }

  /** The prefix parse function of the first token reads exactly the token form back. */
  lemma {:induction false} PrefixRoundTrip(tokens: seq<Token>, i: nat, errors: seq<string>, e: WellFormedExpr, j: nat)
    requires TokensAt(tokens, i, ExprTokens(e)) && j + 1 == i + |ExprTokens(e)|
    ensures HasPrefixParser(tokens[i].kind)
    ensures ParsePrefix(State(Input(tokens), i, errors)) == Parsed(Some(e), State(Input(tokens), j, errors))
    decreases e, 3
  {
    assert tokens[i + 0] == ExprTokens(e)[0];
    match e
    case Name(id) =>
    case IntegerLit(t, v) =>
    case BooleanLit(t, b) =>
    case PrefixExpr(t, op, right) =>
      PrefixOperandRoundTrip(tokens, i, errors, e, j);
    case InfixExpr(t, left, op, right) =>
      InfixOperandsRoundTrip(tokens, i, errors, e, j);
  }

  /** A grouped expression: "(" at `i`, then an expression from `a` that stops just before the
      ")" at `k`. */
  lemma GroupedStep(tokens: seq<Token>, i: nat, a: nat, errors: seq<string>, e: Expr, j: nat, k: nat)
    requires a == i + 1 && k == j + 1 && i < k < |tokens| && tokens[i].kind == LParen && tokens[k].kind == RParen
    requires ParseExpression(State(Input(tokens), a, errors), Lowest) == Parsed(Some(e), State(Input(tokens), j, errors))
    ensures ParsePrefix(State(Input(tokens), i, errors)) == Parsed(Some(e), State(Input(tokens), k, errors))
  {
    assert Next(State(Input(tokens), i, errors)) == State(Input(tokens), a, errors);
    assert ParseGroupedExpression(State(Input(tokens), i, errors)) == Parsed(Some(e), State(Input(tokens), k, errors));
  }

  /** A prefix operator at `a` applied to the operand the parser reads from `o`. */
  lemma PrefixStep(tokens: seq<Token>, a: nat, o: nat, errors: seq<string>, e: Expr, j: nat)
    requires e.PrefixExpr? && e.op == e.token.literal && '\0' !in e.token.literal
    requires o == a + 1 && a < j && j + 1 < |tokens| && tokens[a] == e.token && (e.token.kind == Bang || e.token.kind == Minus)
    requires ParseExpression(State(Input(tokens), o, errors), PrefixPrec) == Parsed(e.right, State(Input(tokens), j, errors))
    requires tokens[j + 1].kind == RParen
    ensures ParseExpression(State(Input(tokens), a, errors), Lowest) == Parsed(Some(e), State(Input(tokens), j, errors))
  {
    var s := State(Input(tokens), a, errors);
    assert Next(s) == State(Input(tokens), o, errors);
    assert ParsePrefixExpression(s) == Parsed(Some(e), State(Input(tokens), j, errors));
    assert ParsePrefix(s) == Parsed(Some(e), State(Input(tokens), j, errors));
    LoopStops(State(Input(tokens), j, errors), Some(e), Lowest);
  }

  /** `( op right )` read back from its operand: the prefix node, then ")". */
  lemma GroupedPrefix(tokens: seq<Token>, i: nat, a: nat, o: nat, errors: seq<string>, e: Expr, j: nat, k: nat)
    requires e.PrefixExpr? && e.op == e.token.literal && '\0' !in e.token.literal
    requires a == i + 1 && o == a + 1 && k == j + 1 && a < j && k < |tokens| && tokens[i].kind == LParen
    requires tokens[a] == e.token && (e.token.kind == Bang || e.token.kind == Minus)
    requires ParseExpression(State(Input(tokens), o, errors), PrefixPrec) == Parsed(e.right, State(Input(tokens), j, errors))
    requires tokens[k].kind == RParen
    ensures ParsePrefix(State(Input(tokens), i, errors)) == Parsed(Some(e), State(Input(tokens), k, errors))
  {
    hide ParsePrefix, ParseExpression, InfixLoop;
    PrefixStep(tokens, a, o, errors, e, j);
    GroupedStep(tokens, i, a, errors, e, j, k);
  }

  /** The operand of `( op right )`, read at prefix precedence from `o` up to ")"; it ends at `j`. */
  lemma {:induction false} PrefixOperand(tokens: seq<Token>, o: nat, errors: seq<string>, e: WellFormedExpr, j: nat)
    requires e.PrefixExpr? && TokensAt(tokens, o, ExprTokens(e.right.value)) && j + 1 == o + |ExprTokens(e.right.value)|
    requires j + 1 < |tokens| && tokens[j + 1] == CloseParen
    ensures ParseExpression(State(Input(tokens), o, errors), PrefixPrec) == Parsed(e.right, State(Input(tokens), j, errors))
    decreases e, 1
  {
    hide ParsePrefix, ParseExpression, InfixLoop;
    ExpressionRoundTrip(tokens, o, errors, e.right.value, PrefixPrec, j);
  }

  /** The parenthesised prefix form `( op right )`. */
  lemma {:induction false} PrefixOperandRoundTrip(tokens: seq<Token>, i: nat, errors: seq<string>, e: WellFormedExpr, k: nat)
    requires e.PrefixExpr? && TokensAt(tokens, i, ExprTokens(e)) && k + 1 == i + |ExprTokens(e)|
    ensures ParsePrefix(State(Input(tokens), i, errors)) == Parsed(Some(e), State(Input(tokens), k, errors))
    decreases e, 2
  {
    hide ParsePrefix, ParseExpression, InfixLoop;
    var a := i + 1;
    var o := i + 2;
    var j := i + 1 + |ExprTokens(e.right.value)|;
    PrefixLayout(tokens, i, o, e, j);
    PrefixOperand(tokens, o, errors, e, j);
    GroupedPrefix(tokens, i, a, o, errors, e, j, k);
  }

  /** An infix node: its left operand read by the prefix parse function from `a`, then the
      operator and the right operand read by the Pratt loop from `o`, which stops before ")". */
  lemma InfixStep(tokens: seq<Token>, a: nat, errors: seq<string>, e: Expr, j: nat, o: nat, k: nat)
    requires e.InfixExpr? && e.left.Some? && e.op == e.token.literal && '\0' !in e.token.literal
    requires o == j + 2 && a <= j && j + 1 < k && k + 1 < |tokens| && HasPrefixParser(tokens[a].kind)
    requires ParsePrefix(State(Input(tokens), a, errors)) == Parsed(e.left, State(Input(tokens), j, errors))
    requires tokens[j + 1] == e.token && IsBinaryOperator(e.token.kind)
    requires ParseExpression(State(Input(tokens), o, errors), InfixPrecedence(e.token.kind)) == Parsed(e.right, State(Input(tokens), k, errors))
    requires tokens[k + 1].kind == RParen
    ensures ParseExpression(State(Input(tokens), a, errors), Lowest) == Parsed(Some(e), State(Input(tokens), k, errors))
  {
    hide ParsePrefix, ParseInfixExpression, ParseCallExpression, ParseExpression, InfixLoop;
    var left := e.left.value;
    calc {
      ParseExpression(State(Input(tokens), a, errors), Lowest);
      { PrefixEntersLoop(State(Input(tokens), a, errors), Lowest, e.left, State(Input(tokens), j, errors)); }
      InfixLoop(State(Input(tokens), j, errors), Some(left), Lowest);
      { AbsorbStep(tokens, j, o, errors, left, Lowest, e.right, k); InfixNode(e); }
      InfixLoop(State(Input(tokens), k, errors), Some(e), Lowest);
      { LoopStops(State(Input(tokens), k, errors), Some(e), Lowest); }
      Parsed(Some(e), State(Input(tokens), k, errors));
    }
  }

  /** parseExpression runs the Pratt loop from where the prefix parse function stopped. */
  lemma PrefixEntersLoop(s: State, p: Precedence, left: Option<Expr>, t: State)
    requires s.Valid() && HasPrefixParser(s.Cur().kind) && ParsePrefix(s) == Parsed(left, t)
    ensures t.Valid()
    ensures ParseExpression(s, p) == InfixLoop(t, left, p)
  {
    hide ParsePrefix, InfixLoop;
  }

  /** The node parseInfixExpression builds from the parts of a well-formed infix expression. */
  lemma InfixNode(e: Expr)
    requires e.InfixExpr? && e.op == e.token.literal && '\0' !in e.token.literal
    ensures InfixExpr(CopyToken(e.token), e.left, Strings.Strdup(CopyToken(e.token).literal), e.right) == e
  {
  }

  /** `( left op right )` read back from its operands: the infix node, then ")". */
  lemma GroupedInfix(tokens: seq<Token>, i: nat, a: nat, errors: seq<string>, e: Expr, j: nat, o: nat, k: nat, l: nat)
    requires e.InfixExpr? && e.left.Some? && e.op == e.token.literal && '\0' !in e.token.literal
    requires a == i + 1 && o == j + 2 && l == k + 1
    requires a <= j && j + 1 < k && l < |tokens| && tokens[i].kind == LParen && HasPrefixParser(tokens[a].kind)
    requires ParsePrefix(State(Input(tokens), a, errors)) == Parsed(e.left, State(Input(tokens), j, errors))
    requires tokens[j + 1] == e.token && IsBinaryOperator(e.token.kind)
    requires ParseExpression(State(Input(tokens), o, errors), InfixPrecedence(e.token.kind)) == Parsed(e.right, State(Input(tokens), k, errors))
    requires tokens[l].kind == RParen
    ensures ParsePrefix(State(Input(tokens), i, errors)) == Parsed(Some(e), State(Input(tokens), l, errors))
  {
    hide ParsePrefix, ParseExpression, InfixLoop;
    InfixStep(tokens, a, errors, e, j, o, k);
    GroupedStep(tokens, i, a, errors, e, k, l);
  }

  /** The left operand of `( left op right )`, read by the prefix parse function from `a`; it
      ends at `j`. */
  lemma {:induction false} InfixLeftPart(tokens: seq<Token>, a: nat, errors: seq<string>, e: WellFormedExpr, j: nat)
    requires e.InfixExpr? && TokensAt(tokens, a, ExprTokens(e.left.value)) && j + 1 == a + |ExprTokens(e.left.value)|
    ensures HasPrefixParser(tokens[a].kind)
    ensures ParsePrefix(State(Input(tokens), a, errors)) == Parsed(e.left, State(Input(tokens), j, errors))
    decreases e, 1
  {
    hide ParsePrefix, ParseExpression, InfixLoop;
    PrefixRoundTrip(tokens, a, errors, e.left.value, j);
  }

  /** The right operand of `( left op right )`, read at the operator's precedence from `o` up to
      ")"; it ends at `k`. */
  lemma {:induction false} InfixRightPart(tokens: seq<Token>, o: nat, errors: seq<string>, e: WellFormedExpr, k: nat)
    requires e.InfixExpr? && TokensAt(tokens, o, ExprTokens(e.right.value)) && k + 1 == o + |ExprTokens(e.right.value)|
    requires k + 1 < |tokens| && tokens[k + 1] == CloseParen
    ensures ParseExpression(State(Input(tokens), o, errors), InfixPrecedence(e.token.kind)) == Parsed(e.right, State(Input(tokens), k, errors))
    decreases e, 1
  {
    hide ParsePrefix, ParseExpression, InfixLoop;
    ExpressionRoundTrip(tokens, o, errors, e.right.value, InfixPrecedence(e.token.kind), k);
  }

  /** The parenthesised infix form `( left op right )`. */
  lemma {:induction false} InfixOperandsRoundTrip(tokens: seq<Token>, i: nat, errors: seq<string>, e: WellFormedExpr, l: nat)
    requires e.InfixExpr? && TokensAt(tokens, i, ExprTokens(e)) && l + 1 == i + |ExprTokens(e)|
    ensures ParsePrefix(State(Input(tokens), i, errors)) == Parsed(Some(e), State(Input(tokens), l, errors))
    decreases e, 2
  {
    hide ParsePrefix, ParseExpression, InfixLoop;
    var a := i + 1;
    var j := i + |ExprTokens(e.left.value)|;
    var o := j + 2;
    var k := j + 1 + |ExprTokens(e.right.value)|;
    InfixLayout(tokens, i, a, e, j, o, k);
    InfixLeftPart(tokens, a, errors, e, j);
    InfixRightPart(tokens, o, errors, e, k);
    GroupedInfix(tokens, i, a, errors, e, j, o, k, l);
  }

  /** Parsing from the token form at any precedence the following token does not exceed reads
      exactly the expression back, without errors. */
  lemma {:induction false} ExpressionRoundTrip(tokens: seq<Token>, i: nat, errors: seq<string>, e: WellFormedExpr, p: Precedence, j: nat)
    requires TokensAt(tokens, i, ExprTokens(e)) && j + 1 == i + |ExprTokens(e)|
    requires j + 1 < |tokens| ==> InfixPrecedence(tokens[j + 1].kind).Rank() <= p.Rank()
    ensures ParseExpression(State(Input(tokens), i, errors), p) == Parsed(Some(e), State(Input(tokens), j, errors))
    decreases e, 4
  {
    PrefixRoundTrip(tokens, i, errors, e, j);
    LoopStops(State(Input(tokens), j, errors), Some(e), p);
  }
}
