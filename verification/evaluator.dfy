/** Model of source/monkey/evaluator.c: the tree-walking evaluator.

    Evaluation threads the current environment through, because a let statement stores into it
    and blocks open no scope of their own. A result is an object, or NULL (`None`), which is what
    an empty block and a block statement give.

    Where the C code has undefined behaviour the outcome is `Undefined`: dereferencing a NULL
    syntax-tree child or a NULL object, signed overflow in integer arithmetic, division by zero, and
    reading past the argument list of a call. A Monkey program may call functions without end, so
    every function call spends one unit of `fuel`; `OutOfFuel` says the bound ran out and tells
    nothing about the program. */
module Evaluator {
  import opened Wrappers
  import opened LibC
  import opened Strings
  import opened Ast
  import opened Values
  import opened Objects
  import opened Environments

  /** The result of evaluating something, with the environment afterwards. */
  datatype Outcome<T> = Done(value: T, env: Env) | Undefined | OutOfFuel

  /** The result of an operator: an object, or undefined behaviour. */
  datatype Computed = Yields(obj: Object) | UndefinedResult

  /** isTruthy: everything but the interned false and null objects, a NULL result included. */
  predicate IsTruthy(v: Option<Object>)
  {
    v != Some(Boolean(false)) && v != Some(Null)
  }

  /** isError. */
  predicate IsError(v: Option<Object>)
  {
    v.Some? && v.value.Error?
  }

  /** A return value or an error, which end the block or program that produced them. */
  predicate Escapes(v: Option<Object>)
  {
    v.Some? && (v.value.ReturnValue? || v.value.Error?)
  }

  /** The pointer comparison `left == right` of two objects that are not both integers. The
      booleans and null the evaluator hands out are the interned ones, so two of them are the same
      pointer exactly when they are equal; every other object is a fresh allocation. */
  predicate Identical(left: Option<Object>, right: Option<Object>)
  {
    left.Some? && left == right && (left.value.Boolean? || left.value.Null?)
  }

  /** evalBangOperatorExpression: the negation of the operand's truthiness. */
  function BangOperator(right: Option<Object>): Object
  {
    Boolean(!IsTruthy(right))
  }

  /** evalMinusPrefixOperatorExpression. */
  function MinusOperator(right: Option<Object>): Computed
  {
    if right.None? then UndefinedResult
    else if !right.value.Integer? then Yields(Error("unknown operator: -" + ObjectTypeText(right.value.Type())))
    else Checked(-right.value.intValue)
  }

  /** evalPrefixExpression. */
  function PrefixOperator(op: string, right: Option<Object>): Computed
  {
    if op == "!" then Yields(BangOperator(right))
    else if op == "-" then MinusOperator(right)
    else if right.None? then UndefinedResult
    else Yields(Error("unknown operator: " + op + ObjectTypeText(right.value.Type())))
  }

  /** A new integer object, when the value fits in `int64_t`; otherwise the C arithmetic that
      computed it overflowed. */
  function Checked(v: int): Computed
  {
    if InInt64(v) then Yields(Integer(v)) else UndefinedResult
  }

  /** evalIntegerInfixExpression. */
  function IntegerOperator(op: string, a: int, b: int): Computed
  {
    if op == "+" then Checked(a + b)
    else if op == "-" then Checked(a - b)
    else if op == "*" then Checked(a * b)
    else if op == "/" then (if b == 0 then UndefinedResult else Checked(TruncDiv(a, b)))
    else if op == "<" then Yields(Boolean(a < b))
    else if op == ">" then Yields(Boolean(a > b))
    else if op == "==" then Yields(Boolean(a == b))
    else if op == "!=" then Yields(Boolean(a != b))
    else Yields(Error("unknown operator: INTEGER " + op + " INTEGER"))
  }

  /** evalInfixExpression. The left operand's type is read first, the right one's only when
      the left is an integer or the operator is neither "==" nor "!=". */
  function InfixOperator(op: string, left: Option<Object>, right: Option<Object>): Computed
  {
    if left.None? || (left.value.Integer? && right.None?) then UndefinedResult
    else if left.value.Integer? && right.value.Integer? then
      IntegerOperator(op, left.value.intValue, right.value.intValue)
    else if op == "==" then Yields(Boolean(Identical(left, right)))
    else if op == "!=" then Yields(Boolean(!Identical(left, right)))
    else if right.None? then UndefinedResult
    else
      var l, r := ObjectTypeText(left.value.Type()), ObjectTypeText(right.value.Type());
      if left.value.Type() != right.value.Type() then Yields(Error("type mismatch: " + l + " " + op + " " + r))
      else Yields(Error("unknown operator: " + l + " " + op + " " + r))
  }

  /** The outcome of an operator applied in `env`. */
  function Lift(c: Computed, env: Env): Outcome<Option<Object>>
  {
    match c
    case Yields(obj) => Done(Some(obj), env)
    case UndefinedResult => Undefined
  }

  /** evalIdentifier: a copy of the innermost binding, or an error naming the identifier. */
  function EvalIdentifier(id: Identifier, env: Env): (r: Outcome<Option<Object>>)
    ensures r.Done? ==> r.env == env
  {
    var val := GetEnvironment(env, id.value);
    if val.None? then Done(Some(Error("identifier not found: " + id.value)), env)
    else if !Copyable(val.value) then Undefined
    else Done(Some(CopyObject(val.value)), env)
  }

  /** extendFunctionEnv: a new scope inside the closure's environment, with each parameter bound
      to the argument at its position. */
  function ExtendFunctionEnv(closure: Object, arguments: seq<Option<Object>>): (env: Env)
    requires closure.Function? && |arguments| >= |closure.parameters|
    ensures env.outer == Some(closure.env)
  {
    BindParameters(CreateEnvironment(Some(closure.env)), closure.parameters, arguments)
  }

  /** The loop of extendFunctionEnv, one parameter at a time. */
  function BindParameters(env: Env, parameters: seq<Identifier>, arguments: seq<Option<Object>>): (r: Env)
    requires |arguments| >= |parameters|
    ensures r.outer == env.outer
    decreases |parameters|
  {
    if parameters == [] then env
    else BindParameters(PutEnvironment(env, Strdup(parameters[0].value), arguments[0]), parameters[1..], arguments[1..])
  }

  /** unwrapReturnValue. */
  function UnwrapReturnValue(obj: Object): Option<Object>
  {
    if obj.ReturnValue? then obj.value else Some(obj)
  }

  /** evalExpression. */
  function EvalExpr(e: Expr, env: Env, fuel: nat): (r: Outcome<Option<Object>>)
    ensures r.Done? ==> r.env.outer == env.outer
    decreases fuel, 1, e
  {
    match e
    case IntegerLit(_, v) => Done(Some(Integer(v)), env)
    case BooleanLit(_, b) => Done(Some(Boolean(b)), env)
    case PrefixExpr(_, op, right) =>
      (match EvalChild(right, env, fuel)
       case Done(v, env1) => if IsError(v) then Done(v, env1) else Lift(PrefixOperator(op, v), env1)
       case Undefined => Undefined
       case OutOfFuel => OutOfFuel)
    case InfixExpr(_, left, op, right) =>
      (match EvalChild(left, env, fuel)
       case Done(l, env1) =>
         if IsError(l) then Done(l, env1)
         else
           (match EvalChild(right, env1, fuel)
            case Done(r, env2) => if IsError(r) then Done(r, env2) else Lift(InfixOperator(op, l, r), env2)
            case Undefined => Undefined
            case OutOfFuel => OutOfFuel)
       case Undefined => Undefined
       case OutOfFuel => OutOfFuel)
    case IfExpr(_, condition, consequence, alternative) =>
      (match EvalChild(condition, env, fuel)
       case Done(c, env1) =>
         if IsError(c) then Done(c, env1)
         else if IsTruthy(c) then EvalBlockStatement(consequence, env1, fuel)
         else if alternative.Some? then EvalBlockStatement(alternative.value, env1, fuel)
         else Done(Some(Null), env1)
       case Undefined => Undefined
       case OutOfFuel => OutOfFuel)
    case Name(id) => EvalIdentifier(id, env)
    case FunctionLit(_, _, _) => Done(Some(CreateFunctionObject(e, CopyEnvironment(env))), env)
    case CallExpr(_, callee, arguments) =>
      (match EvalChild(callee, env, fuel)
       case Done(f, env1) =>
         if IsError(f) then Done(f, env1)
         else
           (match EvalExpressions(arguments, [], env1, fuel)
            case Done(args, env2) =>
              if |args| == 1 && IsError(args[0]) then Done(args[0], env2)
              else ApplyFunction(f, args, env2, fuel)
            case Undefined => Undefined
            case OutOfFuel => OutOfFuel)
       case Undefined => Undefined
       case OutOfFuel => OutOfFuel)
  }

  /** A child expression, which the parser may have left NULL. */
  function EvalChild(e: Option<Expr>, env: Env, fuel: nat): (r: Outcome<Option<Object>>)
    ensures r.Done? ==> r.env.outer == env.outer
    decreases fuel, 1, e
  {
    if e.None? then Undefined else EvalExpr(e.value, env, fuel)
  }

  /** evalExpressions: the arguments from left to right, appended to `done`; the first error
      replaces the whole list. */
  function EvalExpressions(arguments: seq<Option<Expr>>, done: seq<Option<Object>>, env: Env, fuel: nat)
    : (r: Outcome<seq<Option<Object>>>)
    ensures r.Done? ==> r.env.outer == env.outer
    decreases fuel, 1, arguments
  {
    if arguments == [] then Done(done, env)
    else
      match EvalChild(arguments[0], env, fuel)
      case Done(v, env1) =>
        if IsError(v) then Done([v], env1) else EvalExpressions(arguments[1..], done + [v], env1, fuel)
      case Undefined => Undefined
      case OutOfFuel => OutOfFuel
  }

  /** applyFunction: the body runs in the extended environment, the caller's environment is then
      restored, and a return value is unwrapped. */
  function ApplyFunction(callee: Option<Object>, arguments: seq<Option<Object>>, env: Env, fuel: nat)
    : (r: Outcome<Option<Object>>)
    ensures r.Done? ==> r.env == env
    decreases fuel, 0
  {
    if callee.None? then Undefined
    else if !callee.value.Function? then
      Done(Some(Error("not a function: " + ObjectTypeText(callee.value.Type()))), env)
    else if |arguments| < |callee.value.parameters| then Undefined
    else if fuel == 0 then OutOfFuel
    else
      match EvalBlockStatement(callee.value.body, ExtendFunctionEnv(callee.value, arguments), fuel - 1)
      case Done(result, _) => if result.None? then Undefined else Done(UnwrapReturnValue(result.value), env)
      case Undefined => Undefined
      case OutOfFuel => OutOfFuel
  }

  /** evalStatement. */
  function EvalStatement(s: Stmt, env: Env, fuel: nat): (r: Outcome<Option<Object>>)
    ensures r.Done? ==> r.env.outer == env.outer
    decreases fuel, 1, s
  {
    match s
    case ExpressionStmt(_, expression) => EvalChild(expression, env, fuel)
    case ReturnStmt(_, value) =>
      (match EvalChild(value, env, fuel)
       case Done(v, env1) => if IsError(v) then Done(v, env1) else Done(Some(ReturnValue(v)), env1)
       case Undefined => Undefined
       case OutOfFuel => OutOfFuel)
    case LetStmt(_, name, value) =>
      (match EvalChild(value, env, fuel)
       case Done(v, env1) =>
         if IsError(v) then Done(v, env1) else Done(Some(Null), PutEnvironment(env1, Strdup(name.value), v))
       case Undefined => Undefined
       case OutOfFuel => OutOfFuel)
    case BlockStmt(_) => Done(None, env)
  }

  /** evalBlockStatement. */
  function EvalBlockStatement(b: Block, env: Env, fuel: nat): (r: Outcome<Option<Object>>)
    ensures r.Done? ==> r.env.outer == env.outer
    decreases fuel, 1, b
  {
    BlockLoop(b.statements, None, env, fuel)
  }

  /** The loop of evalBlockStatement: `result` is the last statement's result; a return value or an
      error is passed up as it is. */
  function BlockLoop(statements: seq<Stmt>, result: Option<Object>, env: Env, fuel: nat): (r: Outcome<Option<Object>>)
    ensures r.Done? ==> r.env.outer == env.outer
    decreases fuel, 1, statements
  {
    if statements == [] then Done(result, env)
    else
      match EvalStatement(statements[0], env, fuel)
      case Done(v, env1) => if Escapes(v) then Done(v, env1) else BlockLoop(statements[1..], v, env1, fuel)
      case Undefined => Undefined
      case OutOfFuel => OutOfFuel
  }

  /** evalProgram. */
  function EvalProgram(p: Program, env: Env, fuel: nat): (r: Outcome<Option<Object>>)
    ensures r.Done? ==> r.env.outer == env.outer
  {
    ProgramLoop(p.statements, None, env, fuel)
  }

  /** The loop of evalProgram: a return value ends the program with the value it wraps, an error
      ends it as it is. */
  function ProgramLoop(statements: seq<Stmt>, result: Option<Object>, env: Env, fuel: nat): (r: Outcome<Option<Object>>)
    ensures r.Done? ==> r.env.outer == env.outer
    decreases |statements|
  {
    if statements == [] then Done(result, env)
    else
      match EvalStatement(statements[0], env, fuel)
      case Done(v, env1) =>
        if v.Some? && v.value.ReturnValue? then Done(v.value.value, env1)
        else if IsError(v) then Done(v, env1)
        else ProgramLoop(statements[1..], v, env1, fuel)
      case Undefined => Undefined
      case OutOfFuel => OutOfFuel
  }

  /** The three kinds of node `Eval` accepts. */
  datatype Node = ProgramNode(program: Program) | StatementNode(statement: Stmt) | ExpressionNode(expression: Expr)

  /** Eval: the entry point, dispatching on the kind of node. */
  function Eval(node: Node, env: Env, fuel: nat): (r: Outcome<Option<Object>>)
    ensures r.Done? ==> r.env.outer == env.outer
  {
    match node
    case ProgramNode(p) => EvalProgram(p, env, fuel)
    case StatementNode(s) => EvalStatement(s, env, fuel)
    case ExpressionNode(e) => EvalExpr(e, env, fuel)
  }
}
