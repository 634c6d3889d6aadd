/** Properties of the printers: a program prints as its statements' strings with nothing between
    them, and a fully parenthesised operator expression prints as the literals of its token form
    with blanks between some of them. */
module AstProperties {
  import opened Wrappers
  import opened Strings
  import opened Tokens
  import opened Ast
  import opened Lexing
  import opened ParserProperties

  /** The strings of the statements of `a + b` are those of `a`, then those of `b`. */
  lemma StatementStringsAppend(a: seq<Stmt>, b: seq<Stmt>)
    requires PrintableProgram(Program(a)) && PrintableProgram(Program(b))
    ensures PrintableProgram(Program(a + b))
    ensures StatementStrings(Program(a + b)) == StatementStrings(Program(a)) + StatementStrings(Program(b))
  {
    var ab := a + b;
    forall i | 0 <= i < |ab| ensures PrintableStmt(ab[i]) {
      if i < |a| {
        assert ab[i] == a[i];
      } else {
        assert ab[i] == b[i - |a|];
      }
    }
    var left := StatementStrings(Program(a));
    var right := StatementStrings(Program(b));
    forall i | 0 <= i < |ab| ensures StatementStrings(Program(ab))[i] == (left + right)[i] {
      if i < |a| {
        assert ab[i] == a[i];
      } else {
        assert ab[i] == b[i - |a|];
      }
    }
  }

  /** ProgramString puts no separator between statements: the string of `a + b` is the string of
      `a` followed by the string of `b`. */
  lemma ProgramStringAppend(a: seq<Stmt>, b: seq<Stmt>)
    requires PrintableProgram(Program(a)) && PrintableProgram(Program(b))
    ensures PrintableProgram(Program(a + b))
    ensures ProgramString(Program(a + b)) == ProgramString(Program(a)) + ProgramString(Program(b))
  {
    StatementStringsAppend(a, b);
    ConcatAppend(StatementStrings(Program(a)), StatementStrings(Program(b)));
  }

  /** A program of one statement prints as that statement. */
  lemma ProgramStringSingle(s: Stmt)
    requires PrintableStmt(s)
    ensures PrintableProgram(Program([s]))
    ensures ProgramString(Program([s])) == StmtString(s)
  {
    var strings := StatementStrings(Program([s]));
    assert strings == [StmtString(s)];
    assert strings[..|strings| - 1] == [];
    assert Concat(strings) == "" + StmtString(s);
  }

  /** The program `let myVar = anotherVar;` built by hand prints back as that text. */
  lemma LetProgramString()
    ensures var value := Name(Identifier(Token(Ident, "anotherVar"), "anotherVar"));
      var let := LetStmt(Token(Let, "let"), Identifier(Token(Ident, "myVar"), "myVar"), Some(value));
      PrintableProgram(Program([let])) && ProgramString(Program([let])) == "let myVar = anotherVar;"
  {
    var value := Name(Identifier(Token(Ident, "anotherVar"), "anotherVar"));
    var let := LetStmt(Token(Let, "let"), Identifier(Token(Ident, "myVar"), "myVar"), Some(value));
    ProgramStringSingle(let);
    LetParts();
    assert StmtString(let) == "let" + " " + "myVar" + " = " + "anotherVar" + ";";
    LetText();
  }

  lemma LetParts()
    ensures Strdup("let") == "let" && Strdup("myVar") == "myVar" && Strdup("anotherVar") == "anotherVar"
  {
    assert '\0' !in "let" && '\0' !in "myVar" && '\0' !in "anotherVar";
  }

  lemma LetText()
    ensures "let" + " " + "myVar" + " = " + "anotherVar" + ";" == "let myVar = anotherVar;"
  {
  }

  /** The literals of `a + b` are those of `a`, then those of `b`. */
  lemma {:induction false} LiteralsAppend(a: seq<Token>, b: seq<Token>)
    ensures Literals(a + b) == Literals(a) + Literals(b)
  {
    if a == [] {
      assert a + b == b;
    } else {
      assert (a + b)[1..] == a[1..] + b;
      LiteralsAppend(a[1..], b);
    }
  }

  /** The literals of a single token. */
  lemma LiteralsSingle(t: Token)
    ensures Literals([t]) == t.literal
  {
    assert [t][1..] == [];
  }

  /** Removing white space from a parenthesised prefix form removes it from its parts. */
  lemma StripPrefix(op: string, right: string)
    ensures StripWhitespace("(" + op + right + ")") == "(" + StripWhitespace(op) + StripWhitespace(right) + ")"
  {
    StripWhitespaceAppend("(" + op + right, ")");
    StripWhitespaceAppend("(" + op, right);
    StripWhitespaceAppend("(", op);
  }

  /** Removing white space from a parenthesised infix form removes it from its parts. */
  lemma StripInfix(left: string, op: string, right: string)
    ensures StripWhitespace("(" + left + op + right + ")")
      == "(" + StripWhitespace(left) + StripWhitespace(op) + StripWhitespace(right) + ")"
  {
    StripWhitespaceAppend("(" + left + op + right, ")");
    StripWhitespaceAppend("(" + left + op, right);
    StripWhitespaceAppend("(" + left, op);
    StripWhitespaceAppend("(", left);
  }

  /** The blanks around a printed infix operator go away with the rest of the white space. */
  lemma StripBlanks(left: string, op: string, right: string)
    ensures StripWhitespace("(" + left + " " + op + " " + right + ")")
      == StripWhitespace("(" + left + op + right + ")")
  {
    Regroup(left, op, right);
    StripInfix(left + " ", op, " " + right);
    StripBlank(left, right);
    StripInfix(left, op, right);
  }

  lemma Regroup(left: string, op: string, right: string)
    ensures "(" + left + " " + op + " " + right + ")" == "(" + (left + " ") + op + (" " + right) + ")"
  {
  }

  /** A blank is white space. */
  lemma StripBlank(left: string, right: string)
    ensures StripWhitespace(left + " ") == StripWhitespace(left)
    ensures StripWhitespace(" " + right) == StripWhitespace(right)
  {
    StripWhitespaceAppend(left, " ");
    StripWhitespaceAppend(" ", right);
    assert StripWhitespace(" ") == "";
  }

  /** The literals of the token form of a prefix expression. */
  lemma PrefixLiterals(e: Expr)
    requires e.PrefixExpr? && e.right.Some?
    ensures Literals(ExprTokens(e)) == "(" + e.token.literal + Literals(ExprTokens(e.right.value)) + ")"
  {
    var rt := ExprTokens(e.right.value);
    LiteralsAppend([OpenParen, e.token] + rt, [CloseParen]);
    LiteralsAppend([OpenParen, e.token], rt);
    LiteralsAppend([OpenParen], [e.token]);
    LiteralsSingle(OpenParen);
    LiteralsSingle(e.token);
    LiteralsSingle(CloseParen);
  }

  /** The literals of the token form of an infix expression. */
  lemma InfixLiterals(e: Expr)
    requires e.InfixExpr? && e.left.Some? && e.right.Some?
    ensures Literals(ExprTokens(e))
      == "(" + Literals(ExprTokens(e.left.value)) + e.token.literal + Literals(ExprTokens(e.right.value)) + ")"
  {
    var lt := ExprTokens(e.left.value);
    var rt := ExprTokens(e.right.value);
    LiteralsAppend([OpenParen] + lt + [e.token] + rt, [CloseParen]);
    LiteralsAppend([OpenParen] + lt + [e.token], rt);
    LiteralsAppend([OpenParen] + lt, [e.token]);
    LiteralsAppend([OpenParen], lt);
    LiteralsSingle(OpenParen);
    LiteralsSingle(e.token);
    LiteralsSingle(CloseParen);
  }

  /** Only blanks stand between the printed form of an operator expression and the literals of
      its token form: with white space removed the two are the same text. */
  lemma {:induction false} PrintedLiterals(e: Expr)
    requires WellFormed(e)
    ensures PrintableExpr(e)
    ensures StripWhitespace(ExprString(e)) == StripWhitespace(Literals(ExprTokens(e)))
    decreases e
  {
    match e
    case Name(id) =>
      LiteralsSingle(id.token);
    case IntegerLit(t, _) =>
      LiteralsSingle(t);
    case BooleanLit(t, _) =>
      LiteralsSingle(t);
    case PrefixExpr(t, op, right) =>
      PrintedLiterals(right.value);
      PrefixPrinted(e);
    case InfixExpr(t, left, op, right) =>
      PrintedLiterals(left.value);
      PrintedLiterals(right.value);
      InfixPrinted(e);
  }

  /** The step of PrintedLiterals for a prefix expression, once it holds for the operand. */
  lemma PrefixPrinted(e: Expr)
    requires WellFormed(e) && e.PrefixExpr?
    requires PrintableExpr(e.right.value)
    requires StripWhitespace(ExprString(e.right.value)) == StripWhitespace(Literals(ExprTokens(e.right.value)))
    ensures PrintableExpr(e)
    ensures StripWhitespace(ExprString(e)) == StripWhitespace(Literals(ExprTokens(e)))
  {
    assert ExprString(e) == "(" + e.op + ExprString(e.right.value) + ")";
    PrefixLiterals(e);
    StripPrefix(e.op, ExprString(e.right.value));
    StripPrefix(e.op, Literals(ExprTokens(e.right.value)));
  }

  /** The step of PrintedLiterals for an infix expression, once it holds for both operands. */
  lemma InfixPrinted(e: Expr)
    requires WellFormed(e) && e.InfixExpr?
    requires PrintableExpr(e.left.value) && PrintableExpr(e.right.value)
    requires StripWhitespace(ExprString(e.left.value)) == StripWhitespace(Literals(ExprTokens(e.left.value)))
    requires StripWhitespace(ExprString(e.right.value)) == StripWhitespace(Literals(ExprTokens(e.right.value)))
    ensures PrintableExpr(e)
    ensures StripWhitespace(ExprString(e)) == StripWhitespace(Literals(ExprTokens(e)))
  {
    var ls := ExprString(e.left.value);
    var rs := ExprString(e.right.value);
    assert ExprString(e) == "(" + ls + " " + e.op + " " + rs + ")";
    InfixLiterals(e);
    StripBlanks(ls, e.op, rs);
    StripInfix(ls, e.op, rs);
    StripInfix(Literals(ExprTokens(e.left.value)), e.op, Literals(ExprTokens(e.right.value)));
  }
}
