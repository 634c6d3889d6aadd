/** Properties of the evaluator: operator expressions compute what C's `int64_t` arithmetic and
    comparisons compute, truthiness and the if expression, how returns and errors end blocks and
    programs, let statements and identifiers, and function application. */
module EvaluatorProperties {
  import opened Wrappers
  import opened LibC
  import opened Strings
  import opened Tokens
  import opened Ast
  import opened Values
  import opened Objects
  import opened Environments
  import opened Evaluator

  // ---------------------------------------------------------------------------------------------
  // A reference reading of operator expressions

  /** The integer an operator expression over integer literals denotes, when every step is
      defined in C: no signed overflow and no division by zero; `/` truncates toward zero. */
  function Arith(e: Expr): Option<int>
    decreases e
  {
    match e
    case IntegerLit(_, v) => Some(v)
    case PrefixExpr(_, op, right) =>
      if op == "-" && right.Some? && Arith(right.value).Some? && InInt64(-Arith(right.value).value)
      then Some(-Arith(right.value).value) else None
    case InfixExpr(_, left, op, right) =>
      if left.Some? && right.Some? && Arith(left.value).Some? && Arith(right.value).Some?
      then ArithOp(op, Arith(left.value).value, Arith(right.value).value) else None
    case _ => None
  }

  /** The four arithmetic operators on `int64_t`. */
  function ArithOp(op: string, a: int, b: int): Option<int>
  {
    var v := if op == "+" then a + b else if op == "-" then a - b else if op == "*" then a * b
      else if b != 0 then TruncDiv(a, b) else 0;
    if (op == "+" || op == "-" || op == "*" || (op == "/" && b != 0)) && InInt64(v) then Some(v) else None
  }

  /** The truth value a comparison or boolean expression denotes: the literals, `!` of a boolean
      (and of an integer, which is always true), the four comparisons of two integers, and
      equality of two booleans. */
  function Logic(e: Expr): Option<bool>
    decreases e
  {
    match e
    case BooleanLit(_, b) => Some(b)
    case PrefixExpr(_, op, right) =>
      if op != "!" || right.None? then None
      else if Logic(right.value).Some? then Some(!Logic(right.value).value)
      else if Arith(right.value).Some? then Some(false)
      else None
    case InfixExpr(_, left, op, right) =>
      if left.None? || right.None? then None
      else if Arith(left.value).Some? && Arith(right.value).Some? && (op == "<" || op == ">" || op == "==" || op == "!=") then
        var a, b := Arith(left.value).value, Arith(right.value).value;
        Some(if op == "<" then a < b else if op == ">" then a > b else if op == "==" then a == b else a != b)
      else if Logic(left.value).Some? && Logic(right.value).Some? && (op == "==" || op == "!=") then
        Some((Logic(left.value).value == Logic(right.value).value) == (op == "=="))
      else None
    case _ => None
  }

  /** The evaluator agrees with the reference reading: an expression with an integer meaning
      evaluates to that integer, one with a truth value to that boolean, and neither touches the
      environment. */
  lemma {:induction false} PureAgrees(e: Expr, env: Env, fuel: nat)
    ensures Arith(e).Some? ==> EvalExpr(e, env, fuel) == Done(Some(Integer(Arith(e).value)), env)
    ensures Logic(e).Some? ==> EvalExpr(e, env, fuel) == Done(Some(Boolean(Logic(e).value)), env)
    decreases e
  {
    match e
    case PrefixExpr(_, op, right) =>
      if right.Some? {
        PureAgrees(right.value, env, fuel);
      }
    case InfixExpr(_, left, op, right) =>
      if left.Some? && right.Some? {
        PureAgrees(left.value, env, fuel);
        PureAgrees(right.value, env, fuel);
      }
    case _ =>
  }

  /** Only false and null are falsy: an if over an expression with an integer meaning (zero
      included) runs its consequence, one with a truth value runs the consequence or the
      alternative accordingly, and with no alternative a false condition gives null. */
  lemma PureCondition(t: Token, c: Expr, consequence: Block, alternative: Option<Block>, env: Env, fuel: nat)
    requires Arith(c).Some? || Logic(c).Some?
    ensures var truthy := if Arith(c).Some? then true else Logic(c).value;
      EvalExpr(IfExpr(t, Some(c), consequence, alternative), env, fuel)
        == if truthy then EvalBlockStatement(consequence, env, fuel)
           else if alternative.Some? then EvalBlockStatement(alternative.value, env, fuel)
           else Done(Some(Null), env)
  {
    PureAgrees(c, env, fuel);
  }

  /** `!x` is the negation of the truthiness of x, and `!!x` is its truthiness, whatever x
      evaluates to short of an error. */
  lemma BangNegatesTruthiness(t: Token, u: Token, x: Expr, env: Env, fuel: nat)
    requires EvalExpr(x, env, fuel).Done? && !IsError(EvalExpr(x, env, fuel).value)
    ensures var v := EvalExpr(x, env, fuel);
      && EvalExpr(PrefixExpr(t, "!", Some(x)), env, fuel) == Done(Some(Boolean(!IsTruthy(v.value))), v.env)
      && EvalExpr(PrefixExpr(u, "!", Some(PrefixExpr(t, "!", Some(x)))), env, fuel)
        == Done(Some(Boolean(IsTruthy(v.value))), v.env)
  {
  }

  /** Unary minus of anything but an integer is the error "unknown operator: -" and its type. */
  lemma MinusNonInteger(t: Token, x: Expr, env: Env, fuel: nat)
    requires EvalExpr(x, env, fuel).Done? && EvalExpr(x, env, fuel).value.Some?
    requires var o := EvalExpr(x, env, fuel).value.value; !o.Integer? && !o.Error?
    ensures var v := EvalExpr(x, env, fuel);
      EvalExpr(PrefixExpr(t, "-", Some(x)), env, fuel)
        == Done(Some(Error("unknown operator: -" + ObjectTypeText(v.value.value.Type()))), v.env)
  {
  }

  /** Operands that are not both integers: "==" and "!=" compare identity, which only the
      interned booleans and null can share, and never give an error; any other operator gives
      "type mismatch" when the two types differ and "unknown operator" when they agree. */
  lemma MixedOperands(t: Token, left: Expr, op: string, right: Expr, env: Env, fuel: nat)
    requires EvalExpr(left, env, fuel).Done? && EvalExpr(left, env, fuel).value.Some?
    requires var l := EvalExpr(left, env, fuel);
      && !l.value.value.Error?
      && EvalExpr(right, l.env, fuel).Done? && EvalExpr(right, l.env, fuel).value.Some?
      && !EvalExpr(right, l.env, fuel).value.value.Error?
      && !(l.value.value.Integer? && EvalExpr(right, l.env, fuel).value.value.Integer?)
    ensures var l := EvalExpr(left, env, fuel);
      var r := EvalExpr(right, l.env, fuel);
      var a, b := l.value.value, r.value.value;
      var v := EvalExpr(InfixExpr(t, Some(left), op, Some(right)), env, fuel);
      && v.Done? && v.env == r.env && v.value.Some?
      && ((op == "==" || op == "!=") ==>
            v.value.value == Boolean((a == b && (a.Boolean? || a.Null?)) == (op == "==")))
      && (op != "==" && op != "!=" ==>
            v.value.value == Error((if a.Type() != b.Type() then "type mismatch: " else "unknown operator: ")
                                   + ObjectTypeText(a.Type()) + " " + op + " " + ObjectTypeText(b.Type())))
  {
  }

  // ---------------------------------------------------------------------------------------------
  // Statement sequences

  /** A program is its first statement followed by the rest: a return value there ends the program
      with the value it wraps, an error ends it as it is, and otherwise the rest runs in the
      environment the first statement left, or the first statement's result is the program's. */
  lemma ProgramSequence(s: Stmt, rest: seq<Stmt>, env: Env, fuel: nat)
    ensures EvalProgram(Program([s] + rest), env, fuel)
      == match EvalStatement(s, env, fuel)
         case Done(v, env1) =>
           if v.Some? && v.value.ReturnValue? then Done(v.value.value, env1)
           else if IsError(v) || rest == [] then Done(v, env1)
           else EvalProgram(Program(rest), env1, fuel)
         case Undefined => Undefined
         case OutOfFuel => OutOfFuel
  {
    assert ([s] + rest)[0] == s;
    assert ([s] + rest)[1..] == rest;
    var first := EvalStatement(s, env, fuel);
    if first.Done? {
      if rest == [] {
        assert ProgramLoop(rest, first.value, first.env, fuel) == Done(first.value, first.env);
      } else {
        LoopForgetsResult(rest, first.value, first.env, fuel);
      }
    }
  }

  /** Each statement replaces the previous result: what came before a statement does not matter. */
  lemma LoopForgetsResult(statements: seq<Stmt>, result: Option<Object>, env: Env, fuel: nat)
    requires statements != []
    ensures ProgramLoop(statements, result, env, fuel) == ProgramLoop(statements, None, env, fuel)
  {
  }

  /** A block is its first statement followed by the rest, like a program, except that a return
      value leaves the block still wrapped, so that it ends every enclosing block too. */
  lemma BlockSequence(t: Token, s: Stmt, rest: seq<Stmt>, env: Env, fuel: nat)
    ensures EvalBlockStatement(Block(t, [s] + rest), env, fuel)
      == match EvalStatement(s, env, fuel)
         case Done(v, env1) =>
           if Escapes(v) || rest == [] then Done(v, env1)
           else EvalBlockStatement(Block(t, rest), env1, fuel)
         case Undefined => Undefined
         case OutOfFuel => OutOfFuel
  {
    assert ([s] + rest)[0] == s;
    assert ([s] + rest)[1..] == rest;
    var first := EvalStatement(s, env, fuel);
    if first.Done? {
      if rest == [] {
        assert BlockLoop(rest, first.value, first.env, fuel) == Done(first.value, first.env);
      } else {
        BlockForgetsResult(rest, first.value, first.env, fuel);
      }
    }
  }

  lemma BlockForgetsResult(statements: seq<Stmt>, result: Option<Object>, env: Env, fuel: nat)
    requires statements != []
    ensures BlockLoop(statements, result, env, fuel) == BlockLoop(statements, None, env, fuel)
  {
  }

  // ---------------------------------------------------------------------------------------------
  // Let statements and identifiers

  /** A let statement stores the value in the current scope under the statement's name and gives
      null; reading the name back gives a copy of the value. */
  lemma LetBinds(t: Token, name: Identifier, e: Expr, env: Env, fuel: nat)
    requires '\0' !in name.value
    requires EvalExpr(e, env, fuel).Done? && !IsError(EvalExpr(e, env, fuel).value)
    ensures var v := EvalExpr(e, env, fuel);
      var after := PutEnvironment(v.env, name.value, v.value);
      && EvalStatement(LetStmt(t, name, Some(e)), env, fuel) == Done(Some(Null), after)
      && (v.value.Some? && Copyable(v.value.value) && NulFree(v.value.value) ==>
            EvalExpr(Name(name), after, fuel) == Done(v.value, after))
  {
  }

  /** A name no scope binds evaluates to the error "identifier not found: " and the name. */
  lemma UnboundIdentifier(id: Identifier, env: Env, fuel: nat)
    requires GetEnvironment(env, id.value).None?
    ensures EvalExpr(Name(id), env, fuel) == Done(Some(Error("identifier not found: " + id.value)), env)
  {
  }

  // ---------------------------------------------------------------------------------------------
  // Function application

  /** The names the parameters are stored under. */
  function StoredNames(parameters: seq<Identifier>): set<string>
  {
    set i | 0 <= i < |parameters| :: Strdup(parameters[i].value)
  }

  /** Binding parameters leaves every other name as it was. */
  lemma {:induction false} BindKeepsOthers(env: Env, parameters: seq<Identifier>, arguments: seq<Option<Object>>, name: string)
    requires |arguments| >= |parameters|
    requires name !in StoredNames(parameters)
    ensures var r := BindParameters(env, parameters, arguments);
      (name in r.store <==> name in env.store) && (name in env.store ==> r.store[name] == env.store[name])
    decreases |parameters|
  {
    if parameters != [] {
      var next := PutEnvironment(env, Strdup(parameters[0].value), arguments[0]);
      assert name != Strdup(parameters[0].value) by {
        assert Strdup(parameters[0].value) in StoredNames(parameters);
      }
      assert StoredNames(parameters[1..]) <= StoredNames(parameters) by {
        forall n | n in StoredNames(parameters[1..]) ensures n in StoredNames(parameters) {
          var i :| 0 <= i < |parameters[1..]| && n == Strdup(parameters[1..][i].value);
          assert n == Strdup(parameters[i + 1].value);
        }
      }
      BindKeepsOthers(next, parameters[1..], arguments[1..], name);
    }
  }

  /** extendFunctionEnv binds each parameter to the argument at its position; when a name occurs
      twice among the parameters, the later one wins. */
  lemma {:induction false} BindPositional(env: Env, parameters: seq<Identifier>, arguments: seq<Option<Object>>, i: nat)
    requires |arguments| >= |parameters| && i < |parameters|
    requires Strdup(parameters[i].value) !in StoredNames(parameters[i + 1..])
    ensures var r := BindParameters(env, parameters, arguments);
      Strdup(parameters[i].value) in r.store && r.store[Strdup(parameters[i].value)] == arguments[i]
    decreases |parameters|
  {
    var next := PutEnvironment(env, Strdup(parameters[0].value), arguments[0]);
    if i == 0 {
      assert parameters[1..] == parameters[i + 1..];
      BindKeepsOthers(next, parameters[1..], arguments[1..], Strdup(parameters[0].value));
    } else {
      assert parameters[1..][i - 1 + 1..] == parameters[i + 1..];
      BindPositional(next, parameters[1..], arguments[1..], i - 1);
    }
  }

  /** The environment a call runs its body in: a new scope inside the closure's environment that
      binds each parameter to its argument. */
  lemma ExtendedEnvironment(closure: Object, arguments: seq<Option<Object>>, i: nat)
    requires closure.Function? && |arguments| >= |closure.parameters| && i < |closure.parameters|
    requires Strdup(closure.parameters[i].value) !in StoredNames(closure.parameters[i + 1..])
    ensures var env := ExtendFunctionEnv(closure, arguments);
      && env.outer == Some(closure.env)
      && Strdup(closure.parameters[i].value) in env.store
      && env.store[Strdup(closure.parameters[i].value)] == arguments[i]
  {
    BindPositional(CreateEnvironment(Some(closure.env)), closure.parameters, arguments, i);
  }

  /** Calling something that is not a function gives "not a function: " and its type, whatever
      the arguments, once they evaluate without an error; the environment is the one the
      arguments left. */
  lemma NotAFunction(t: Token, callee: Expr, arguments: seq<Option<Expr>>, env: Env, fuel: nat)
    requires EvalExpr(callee, env, fuel).Done?
    requires var f := EvalExpr(callee, env, fuel).value; f.Some? && !f.value.Function? && !f.value.Error?
    requires EvalExpressions(arguments, [], EvalExpr(callee, env, fuel).env, fuel).Done?
    requires var a := EvalExpressions(arguments, [], EvalExpr(callee, env, fuel).env, fuel).value;
      !(|a| == 1 && IsError(a[0]))
    ensures var f := EvalExpr(callee, env, fuel);
      var a := EvalExpressions(arguments, [], f.env, fuel);
      EvalExpr(CallExpr(t, Some(callee), arguments), env, fuel)
        == Done(Some(Error("not a function: " + ObjectTypeText(f.value.value.Type()))), a.env)
  {
  }

  /** Calling `fn(x) { x }` on an argument gives back the argument's value: the body sees the
      parameter bound in its new scope, and the caller's environment is what the argument left. */
  lemma IdentityCall(t: Token, f: Token, x: Identifier, b: Token, s: Token, arg: Expr, env: Env, fuel: nat)
    requires '\0' !in x.value && fuel > 0
    requires EvalExpr(arg, env, fuel).Done?
    requires var v := EvalExpr(arg, env, fuel).value;
      v.Some? && !v.value.Error? && !v.value.ReturnValue? && Copyable(v.value) && NulFree(v.value)
    ensures var identity := FunctionLit(f, [x], Block(b, [ExpressionStmt(s, Some(Name(x)))]));
      var v := EvalExpr(arg, env, fuel);
      EvalExpr(CallExpr(t, Some(identity), [Some(arg)]), env, fuel) == Done(v.value, v.env)
  {
    hide EvalExpressions, EvalStatement, BlockLoop, EvalProgram, ProgramLoop, EvalIdentifier, InfixOperator, PrefixOperator;
    var identity := FunctionLit(f, [x], Block(b, [ExpressionStmt(s, Some(Name(x)))]));
    var v := EvalExpr(arg, env, fuel);
    var closure := CreateFunctionObject(identity, CopyEnvironment(env));
    assert EvalChild(Some(identity), env, fuel) == Done(Some(closure), env);
    SingleArgument(arg, env, fuel);
    var inner := ExtendFunctionEnv(closure, [v.value]);
    IdentityScope(closure, x, v.value);
    IdentityBody(b, s, x, inner, v.value.value, fuel - 1);
    assert ApplyFunction(Some(closure), [v.value], v.env, fuel) == Done(v.value, v.env);
    CallStep(t, identity, arg, env, fuel);
  }

  /** A call with one argument that is not an error evaluates it and passes it on alone. */
  lemma SingleArgument(arg: Expr, env: Env, fuel: nat)
    requires EvalExpr(arg, env, fuel).Done? && !IsError(EvalExpr(arg, env, fuel).value)
    ensures var v := EvalExpr(arg, env, fuel);
      EvalExpressions([Some(arg)], [], env, fuel) == Done([v.value], v.env)
  {
    var v := EvalExpr(arg, env, fuel);
    assert [Some(arg)][1..] == [];
    assert [] + [v.value] == [v.value];
    assert EvalExpressions([], [v.value], v.env, fuel) == Done([v.value], v.env);
  }

  /** The scope a one-parameter closure runs in binds the parameter to the argument. */
  lemma IdentityScope(closure: Object, x: Identifier, v: Option<Object>)
    requires closure.Function? && closure.parameters == [x] && '\0' !in x.value
    ensures GetEnvironment(ExtendFunctionEnv(closure, [v]), x.value) == (if v.Some? then v else GetEnvironment(closure.env, x.value))
  {
    var inner := ExtendFunctionEnv(closure, [v]);
    assert Strdup(x.value) == x.value;
    assert StoredNames(closure.parameters[1..]) == {} by {
      assert closure.parameters[1..] == [];
    }
    ExtendedEnvironment(closure, [v], 0);
  }

  /** A body that only reads a name bound to `o` gives a copy of `o`. */
  lemma IdentityBody(b: Token, s: Token, x: Identifier, inner: Env, o: Object, fuel: nat)
    requires GetEnvironment(inner, x.value) == Some(o)
    requires !o.Error? && !o.ReturnValue? && Copyable(o) && NulFree(o)
    ensures EvalBlockStatement(Block(b, [ExpressionStmt(s, Some(Name(x)))]), inner, fuel) == Done(Some(o), inner)
  {
    assert EvalIdentifier(x, inner) == Done(Some(o), inner);
    assert EvalExpr(Name(x), inner, fuel) == Done(Some(o), inner);
    assert EvalChild(Some(Name(x)), inner, fuel) == Done(Some(o), inner);
    assert EvalStatement(ExpressionStmt(s, Some(Name(x))), inner, fuel) == Done(Some(o), inner);
    BlockSequence(b, ExpressionStmt(s, Some(Name(x))), [], inner, fuel);
    assert [ExpressionStmt(s, Some(Name(x)))] + [] == [ExpressionStmt(s, Some(Name(x)))];
  }

  /** A call of a function literal with one argument applies the closure to what the argument
      list evaluates to. */
  lemma CallStep(t: Token, literal: Expr, arg: Expr, env: Env, fuel: nat)
    requires literal.FunctionLit?
    requires EvalExpr(arg, env, fuel).Done? && !IsError(EvalExpr(arg, env, fuel).value)
    ensures var v := EvalExpr(arg, env, fuel);
      EvalExpr(CallExpr(t, Some(literal), [Some(arg)]), env, fuel)
        == ApplyFunction(Some(Object.Function(literal.parameters, literal.body, env)), [v.value], v.env, fuel)
  {
    var closure := Object.Function(literal.parameters, literal.body, env);
    var v := EvalExpr(arg, env, fuel);
    assert EvalExpr(literal, env, fuel) == Done(Some(closure), env);
    SingleArgument(arg, env, fuel);
  }
}
