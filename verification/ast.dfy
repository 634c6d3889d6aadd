/** Model of source/monkey/ast.h and the printers of source/monkey/ast.c. A child the parser may
    leave NULL is an `Option`; children that are never NULL are plain fields. */
module Ast {
  import opened Wrappers
  import opened Strings
  import opened Tokens

  datatype Identifier = Identifier(token: Token, value: string)

  datatype Expr =
    | Name(id: Identifier)
    | IntegerLit(token: Token, intValue: int)
    | BooleanLit(token: Token, boolValue: bool)
    | PrefixExpr(token: Token, op: string, right: Option<Expr>)
    | InfixExpr(token: Token, left: Option<Expr>, op: string, right: Option<Expr>)
    | IfExpr(token: Token, condition: Option<Expr>, consequence: Block, alternative: Option<Block>)
    | FunctionLit(token: Token, parameters: seq<Identifier>, body: Block)
    | CallExpr(token: Token, callee: Option<Expr>, arguments: seq<Option<Expr>>)

  datatype Block = Block(token: Token, statements: seq<Stmt>)

  datatype Stmt =
    | LetStmt(token: Token, name: Identifier, value: Option<Expr>)
    | ReturnStmt(token: Token, returnValue: Option<Expr>)
    | ExpressionStmt(token: Token, expression: Option<Expr>)
    | BlockStmt(block: Block)

  datatype Program = Program(statements: seq<Stmt>)

  /** The printers dereference every child except a let value, a return value and the expression
      of an expression statement; an expression is printable when none of those children is missing. */
  predicate PrintableExpr(e: Expr)
  {
    match e
    case Name(_) => true
    case IntegerLit(_, _) => true
    case BooleanLit(_, _) => true
    case PrefixExpr(_, _, right) => right.Some? && PrintableExpr(right.value)
    case InfixExpr(_, left, _, right) =>
      left.Some? && right.Some? && PrintableExpr(left.value) && PrintableExpr(right.value)
    case IfExpr(_, condition, consequence, alternative) =>
      && condition.Some? && PrintableExpr(condition.value)
      && PrintableBlock(consequence)
      && (alternative.Some? ==> PrintableBlock(alternative.value))
    case FunctionLit(_, _, body) => PrintableBlock(body)
    case CallExpr(_, callee, arguments) =>
      && callee.Some? && PrintableExpr(callee.value)
      && forall i | 0 <= i < |arguments| :: arguments[i].Some? && PrintableExpr(arguments[i].value)
  }

  predicate PrintableBlock(b: Block)
  {
    forall i | 0 <= i < |b.statements| :: PrintableStmt(b.statements[i])
  }

  predicate PrintableStmt(s: Stmt)
  {
    match s
    case LetStmt(_, _, value) => value.Some? ==> PrintableExpr(value.value)
    case ReturnStmt(_, value) => value.Some? ==> PrintableExpr(value.value)
    case ExpressionStmt(_, expression) => expression.Some? ==> PrintableExpr(expression.value)
    case BlockStmt(block) => PrintableBlock(block)
  }

  predicate PrintableProgram(p: Program)
  {
    forall i | 0 <= i < |p.statements| :: PrintableStmt(p.statements[i])
  }

  /** ExpressionString and the per-type printers: literals print their token text, identifiers
      their name; prefix and infix expressions are fully parenthesised; an if prints its condition
      right after "if" and its blocks without braces; a function literal prints its token text,
      the parameter list and its body; a call prints the callee and the argument list. */
  function ExprString(e: Expr): string
    requires PrintableExpr(e)
  {
    match e
    case Name(id) => Strdup(id.value)
    case IntegerLit(token, _) => Strdup(token.literal)
    case BooleanLit(token, _) => Strdup(token.literal)
    case PrefixExpr(_, op, right) => "(" + Strdup(op) + ExprString(right.value) + ")"
    case InfixExpr(_, left, op, right) =>
      "(" + ExprString(left.value) + " " + Strdup(op) + " " + ExprString(right.value) + ")"
    case IfExpr(_, condition, consequence, alternative) =>
      "if" + ExprString(condition.value) + " " + BlockString(consequence)
      + (if alternative.Some? then " else " + BlockString(alternative.value) else "")
    case FunctionLit(token, parameters, body) =>
      Strdup(token.literal) + "(" + JoinWith(seq(|parameters|, i requires 0 <= i < |parameters| => Strdup(parameters[i].value)), ", ")
      + ")" + BlockString(body)
    case CallExpr(_, callee, arguments) =>
      ExprString(callee.value) + "("
      + JoinWith(seq(|arguments|, i requires 0 <= i < |arguments| && PrintableExpr(arguments[i].value) => ExprString(arguments[i].value)), ", ")
      + ")"
  }

  /** BlockStatementString: the statements' strings, concatenated without separators or braces. */
  function BlockString(b: Block): string
    requires PrintableBlock(b)
  {
    Concat(seq(|b.statements|, i requires 0 <= i < |b.statements| && PrintableStmt(b.statements[i]) => StmtString(b.statements[i])))
  }

  /** StatementString: let and return print their keyword, the value when there is one, and ";";
      an expression statement prints its expression, or nothing when it has none. */
  function StmtString(s: Stmt): string
    requires PrintableStmt(s)
  {
    match s
    case LetStmt(token, name, value) =>
      Strdup(token.literal) + " " + Strdup(name.value) + " = "
      + (if value.Some? then ExprString(value.value) else "") + ";"
    case ReturnStmt(token, value) =>
      Strdup(token.literal) + " " + (if value.Some? then ExprString(value.value) else "") + ";"
    case ExpressionStmt(_, expression) =>
      if expression.Some? then ExprString(expression.value) else ""
    case BlockStmt(block) => BlockString(block)
  }

  /** The strings of a program's statements, in order. */
  function StatementStrings(p: Program): (r: seq<string>)
    requires PrintableProgram(p)
    ensures |r| == |p.statements|
    ensures forall i | 0 <= i < |r| :: r[i] == StmtString(p.statements[i])
  {
    seq(|p.statements|, i requires 0 <= i < |p.statements| => StmtString(p.statements[i]))
  }

  /** ProgramString: the statements' strings joined with MonkeyStringJoin, without separators. */
  function ProgramString(p: Program): string
    requires PrintableProgram(p)
  {
    Concat(StatementStrings(p))
  }

  /** StatementTokenLiteral: a copy of the statement's token text. */
  function StmtTokenLiteral(s: Stmt): string
  {
    match s
    case LetStmt(token, _, _) => Strdup(token.literal)
    case ReturnStmt(token, _) => Strdup(token.literal)
    case ExpressionStmt(token, _) => Strdup(token.literal)
    case BlockStmt(block) => Strdup(block.token.literal)
  }

  /** ProgramTokenLiteral: the first statement's token text, or "" for an empty program. */
  function ProgramTokenLiteral(p: Program): (r: string)
    ensures p.statements == [] ==> r == ""
    ensures p.statements != [] ==> r == StmtTokenLiteral(p.statements[0])
  {
    if |p.statements| > 0 then StmtTokenLiteral(p.statements[0]) else Strdup("")
  }
}
