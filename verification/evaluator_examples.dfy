/** The programs of test/source/evaluator_test.cpp, as syntax trees, with what they evaluate to.
    Tokens do not affect evaluation, so each example holds for any token `t`. Except for the let
    example, each also holds in any environment and for any fuel. */
module EvaluatorExamples {
  import opened Wrappers
  import opened Tokens
  import opened Ast
  import opened Values
  import opened Objects
  import opened Environments
  import opened Evaluator
  import opened EvaluatorProperties

  function Int(t: Token, v: int): Expr
  {
    IntegerLit(t, v)
  }

  function Bool(t: Token, b: bool): Expr
  {
    BooleanLit(t, b)
  }

  function Infix(t: Token, left: Expr, op: string, right: Expr): Expr
  {
    InfixExpr(t, Some(left), op, Some(right))
  }

  function Prefix(t: Token, op: string, right: Expr): Expr
  {
    PrefixExpr(t, op, Some(right))
  }

  function Statement(t: Token, e: Expr): Stmt
  {
    ExpressionStmt(t, Some(e))
  }

  /** `(5 + 10 * 2 + 15 / 3) * 2 + -10` is 50. */
  lemma IntegerExample(t: Token, env: Env, fuel: nat)
    ensures var sum := Infix(t, Infix(t, Int(t, 5), "+", Infix(t, Int(t, 10), "*", Int(t, 2))), "+",
                             Infix(t, Int(t, 15), "/", Int(t, 3)));
      var e := Infix(t, Infix(t, sum, "*", Int(t, 2)), "+", Prefix(t, "-", Int(t, 10)));
      EvalExpr(e, env, fuel) == Done(Some(Integer(50)), env)
  {
    var sum := Infix(t, Infix(t, Int(t, 5), "+", Infix(t, Int(t, 10), "*", Int(t, 2))), "+",
                     Infix(t, Int(t, 15), "/", Int(t, 3)));
    var e := Infix(t, Infix(t, sum, "*", Int(t, 2)), "+", Prefix(t, "-", Int(t, 10)));
    assert Arith(Infix(t, Int(t, 10), "*", Int(t, 2))) == Some(20);
    assert Arith(Infix(t, Int(t, 5), "+", Infix(t, Int(t, 10), "*", Int(t, 2)))) == Some(25);
    assert Arith(Infix(t, Int(t, 15), "/", Int(t, 3))) == Some(5);
    assert Arith(sum) == Some(30);
    assert Arith(Infix(t, sum, "*", Int(t, 2))) == Some(60);
    assert Arith(Prefix(t, "-", Int(t, 10))) == Some(-10);
    assert Arith(e) == Some(50);
    PureAgrees(e, env, fuel);
  }

  /** `(1 < 2) == true` is true and `(1 > 2) == true` is false. */
  lemma BooleanExample(t: Token, env: Env, fuel: nat)
    ensures EvalExpr(Infix(t, Infix(t, Int(t, 1), "<", Int(t, 2)), "==", Bool(t, true)), env, fuel)
      == Done(Some(Boolean(true)), env)
    ensures EvalExpr(Infix(t, Infix(t, Int(t, 1), ">", Int(t, 2)), "==", Bool(t, true)), env, fuel)
      == Done(Some(Boolean(false)), env)
  {
    assert Logic(Infix(t, Int(t, 1), "<", Int(t, 2))) == Some(true);
    assert Logic(Infix(t, Int(t, 1), ">", Int(t, 2))) == Some(false);
    assert Logic(Infix(t, Infix(t, Int(t, 1), "<", Int(t, 2)), "==", Bool(t, true))) == Some(true);
    assert Logic(Infix(t, Infix(t, Int(t, 1), ">", Int(t, 2)), "==", Bool(t, true))) == Some(false);
    PureAgrees(Infix(t, Infix(t, Int(t, 1), "<", Int(t, 2)), "==", Bool(t, true)), env, fuel);
    PureAgrees(Infix(t, Infix(t, Int(t, 1), ">", Int(t, 2)), "==", Bool(t, true)), env, fuel);
  }

  /** `!5` is false and `!!5` is true: an integer is truthy. */
  lemma BangExample(t: Token, env: Env, fuel: nat)
    ensures EvalExpr(Prefix(t, "!", Int(t, 5)), env, fuel) == Done(Some(Boolean(false)), env)
    ensures EvalExpr(Prefix(t, "!", Prefix(t, "!", Int(t, 5))), env, fuel) == Done(Some(Boolean(true)), env)
  {
    assert Logic(Prefix(t, "!", Int(t, 5))) == Some(false);
    assert Logic(Prefix(t, "!", Prefix(t, "!", Int(t, 5)))) == Some(true);
    PureAgrees(Prefix(t, "!", Int(t, 5)), env, fuel);
    PureAgrees(Prefix(t, "!", Prefix(t, "!", Int(t, 5))), env, fuel);
  }

  /** `if (1) { 10 }` is 10, and `if (1 > 2) { 10 }` is null. */
  lemma IfExample(t: Token, env: Env, fuel: nat)
    ensures EvalExpr(IfExpr(t, Some(Int(t, 1)), Block(t, [Statement(t, Int(t, 10))]), None), env, fuel)
      == Done(Some(Integer(10)), env)
    ensures EvalExpr(IfExpr(t, Some(Infix(t, Int(t, 1), ">", Int(t, 2))), Block(t, [Statement(t, Int(t, 10))]), None), env, fuel)
      == Done(Some(Null), env)
  {
    assert Arith(Int(t, 1)) == Some(1);
    assert Logic(Infix(t, Int(t, 1), ">", Int(t, 2))) == Some(false);
    PureCondition(t, Int(t, 1), Block(t, [Statement(t, Int(t, 10))]), None, env, fuel);
    assert EvalExpr(Int(t, 10), env, fuel) == Done(Some(Integer(10)), env);
    assert EvalChild(Some(Int(t, 10)), env, fuel) == Done(Some(Integer(10)), env);
    assert EvalStatement(Statement(t, Int(t, 10)), env, fuel) == Done(Some(Integer(10)), env);
    BlockSequence(t, Statement(t, Int(t, 10)), [], env, fuel);
    assert [Statement(t, Int(t, 10))] + [] == [Statement(t, Int(t, 10))];
    PureCondition(t, Infix(t, Int(t, 1), ">", Int(t, 2)), Block(t, [Statement(t, Int(t, 10))]), None, env, fuel);
  }

  /** An expression statement whose expression is an integer literal gives that integer. */
  lemma LiteralStatement(t: Token, v: int, env: Env, fuel: nat)
    ensures EvalStatement(Statement(t, Int(t, v)), env, fuel) == Done(Some(Integer(v)), env)
  {
    assert EvalExpr(Int(t, v), env, fuel) == Done(Some(Integer(v)), env);
    assert EvalChild(Some(Int(t, v)), env, fuel) == Done(Some(Integer(v)), env);
  }

  /** `9; return 2 * 5; 9;` is 10: the return ends the program with the value it wraps. */
  lemma ReturnExample(t: Token, env: Env, fuel: nat)
    ensures EvalProgram(Program([Statement(t, Int(t, 9)), ReturnStmt(t, Some(Infix(t, Int(t, 2), "*", Int(t, 5)))),
                                 Statement(t, Int(t, 9))]), env, fuel)
      == Done(Some(Integer(10)), env)
  {
    var first, ret, last := Statement(t, Int(t, 9)), ReturnStmt(t, Some(Infix(t, Int(t, 2), "*", Int(t, 5)))),
      Statement(t, Int(t, 9));
    LiteralStatement(t, 9, env, fuel);
    assert Arith(Infix(t, Int(t, 2), "*", Int(t, 5))) == Some(10);
    PureAgrees(Infix(t, Int(t, 2), "*", Int(t, 5)), env, fuel);
    assert EvalStatement(ret, env, fuel) == Done(Some(ReturnValue(Some(Integer(10)))), env);
    assert [first, ret, last] == [first] + [ret, last];
    ProgramSequence(first, [ret, last], env, fuel);
    assert [ret, last] == [ret] + [last];
    ProgramSequence(ret, [last], env, fuel);
  }

  /** `if (10 > 1) { if (10 > 1) { return 10; } return 1; }` is 10: the inner return ends both
      blocks and then the program. */
  lemma NestedReturnExample(t: Token, env: Env, fuel: nat)
    ensures var cond := Infix(t, Int(t, 10), ">", Int(t, 1));
      var inner := IfExpr(t, Some(cond), Block(t, [ReturnStmt(t, Some(Int(t, 10)))]), None);
      var outer := IfExpr(t, Some(cond), Block(t, [Statement(t, inner), ReturnStmt(t, Some(Int(t, 1)))]), None);
      EvalProgram(Program([Statement(t, outer)]), env, fuel) == Done(Some(Integer(10)), env)
  {
    var cond := Infix(t, Int(t, 10), ">", Int(t, 1));
    var ret10, ret1 := ReturnStmt(t, Some(Int(t, 10))), ReturnStmt(t, Some(Int(t, 1)));
    var inner := IfExpr(t, Some(cond), Block(t, [ret10]), None);
    var outer := IfExpr(t, Some(cond), Block(t, [Statement(t, inner), ret1]), None);
    var wrapped := Done(Some(ReturnValue(Some(Integer(10)))), env);
    assert Logic(cond) == Some(true);
    assert EvalExpr(Int(t, 10), env, fuel) == Done(Some(Integer(10)), env);
    assert EvalStatement(ret10, env, fuel) == wrapped;
    BlockSequence(t, ret10, [], env, fuel);
    assert [ret10] + [] == [ret10];
    PureCondition(t, cond, Block(t, [ret10]), None, env, fuel);
    assert EvalStatement(Statement(t, inner), env, fuel) == wrapped;
    BlockSequence(t, Statement(t, inner), [ret1], env, fuel);
    assert [Statement(t, inner)] + [ret1] == [Statement(t, inner), ret1];
    PureCondition(t, cond, Block(t, [Statement(t, inner), ret1]), None, env, fuel);
    assert EvalStatement(Statement(t, outer), env, fuel) == wrapped;
    ProgramSequence(Statement(t, outer), [], env, fuel);
    assert [Statement(t, outer)] + [] == [Statement(t, outer)];
  }

  /** `5 + true; 5;` stops at the error "type mismatch: INTEGER + BOOLEAN". */
  lemma TypeMismatchExample(t: Token, env: Env, fuel: nat)
    ensures EvalProgram(Program([Statement(t, Infix(t, Int(t, 5), "+", Bool(t, true))), Statement(t, Int(t, 5))]), env, fuel)
      == Done(Some(Error("type mismatch: INTEGER + BOOLEAN")), env)
  {
    var bad := Statement(t, Infix(t, Int(t, 5), "+", Bool(t, true)));
    MismatchStatement(t, env, fuel);
    ProgramSequence(bad, [Statement(t, Int(t, 5))], env, fuel);
    assert [bad] + [Statement(t, Int(t, 5))] == [bad, Statement(t, Int(t, 5))];
  }

  /** The statement `5 + true;` on its own. */
  lemma MismatchStatement(t: Token, env: Env, fuel: nat)
    ensures EvalStatement(Statement(t, Infix(t, Int(t, 5), "+", Bool(t, true))), env, fuel)
      == Done(Some(Error("type mismatch: INTEGER + BOOLEAN")), env)
  {
    var error := Error("type mismatch: INTEGER + BOOLEAN");
    assert Integer(5).Type() == IntegerType && ObjectTypeText(IntegerType) == "INTEGER";
    assert Boolean(true).Type() == BooleanType && ObjectTypeText(BooleanType) == "BOOLEAN";
    assert "type mismatch: " + "INTEGER" + " " + "+" + " " + "BOOLEAN" == "type mismatch: INTEGER + BOOLEAN";
    assert InfixOperator("+", Some(Integer(5)), Some(Boolean(true))) == Yields(error);
    assert EvalExpr(Int(t, 5), env, fuel) == Done(Some(Integer(5)), env);
    assert EvalExpr(Bool(t, true), env, fuel) == Done(Some(Boolean(true)), env);
    assert EvalExpr(Infix(t, Int(t, 5), "+", Bool(t, true)), env, fuel) == Done(Some(error), env);
  }

  /** `-true` is the error "unknown operator: -BOOLEAN". */
  lemma MinusBooleanExample(t: Token, env: Env, fuel: nat)
    ensures EvalExpr(Prefix(t, "-", Bool(t, true)), env, fuel) == Done(Some(Error("unknown operator: -BOOLEAN")), env)
  {
    assert Boolean(true).Type() == BooleanType && ObjectTypeText(BooleanType) == "BOOLEAN";
    assert "unknown operator: -" + "BOOLEAN" == "unknown operator: -BOOLEAN";
    assert EvalExpr(Bool(t, true), env, fuel) == Done(Some(Boolean(true)), env);
    assert PrefixOperator("-", Some(Boolean(true))) == Yields(Error("unknown operator: -BOOLEAN"));
  }

  /** `true + false` is the error "unknown operator: BOOLEAN + BOOLEAN": the types agree, but
      "+" is not defined on booleans. */
  lemma BooleanPlusExample(t: Token, env: Env, fuel: nat)
    ensures EvalExpr(Infix(t, Bool(t, true), "+", Bool(t, false)), env, fuel)
      == Done(Some(Error("unknown operator: BOOLEAN + BOOLEAN")), env)
  {
    assert Boolean(true).Type() == BooleanType && ObjectTypeText(BooleanType) == "BOOLEAN";
    assert "unknown operator: " + "BOOLEAN" + " " + "+" + " " + "BOOLEAN" == "unknown operator: BOOLEAN + BOOLEAN";
    assert EvalExpr(Bool(t, true), env, fuel) == Done(Some(Boolean(true)), env);
    assert EvalExpr(Bool(t, false), env, fuel) == Done(Some(Boolean(false)), env);
    assert InfixOperator("+", Some(Boolean(true)), Some(Boolean(false))) == Yields(Error("unknown operator: BOOLEAN + BOOLEAN"));
  }

  /** In an empty environment `foobar` is the error "identifier not found: foobar". */
  lemma UnboundExample(t: Token, fuel: nat)
    ensures EvalExpr(Name(Identifier(t, "foobar")), Env(map[], None), fuel)
      == Done(Some(Error("identifier not found: foobar")), Env(map[], None))
  {
    UnboundIdentifier(Identifier(t, "foobar"), Env(map[], None), fuel);
    assert "identifier not found: " + "foobar" == "identifier not found: foobar";
  }

  /** `let a = 5; let b = a; let c = a + b + 5; c;` is 15: each let stores into the program's
      scope, where the later statements read it. */
  lemma LetExample(t: Token, env: Env, fuel: nat)
    ensures var a, b, c := Identifier(t, "a"), Identifier(t, "b"), Identifier(t, "c");
      var p := Program([LetStmt(t, a, Some(Int(t, 5))), LetStmt(t, b, Some(Name(a))),
                        LetStmt(t, c, Some(Infix(t, Infix(t, Name(a), "+", Name(b)), "+", Int(t, 5)))),
                        Statement(t, Name(c))]);
      EvalProgram(p, env, fuel).Done? && EvalProgram(p, env, fuel).value == Some(Integer(15))
  {
    var a, b, c := Identifier(t, "a"), Identifier(t, "b"), Identifier(t, "c");
    var sum := Infix(t, Infix(t, Name(a), "+", Name(b)), "+", Int(t, 5));
    var s1, s2, s3, s4 := LetStmt(t, a, Some(Int(t, 5))), LetStmt(t, b, Some(Name(a))), LetStmt(t, c, Some(sum)),
      Statement(t, Name(c));
    var five := Some(Integer(5));

    assert EvalExpr(Int(t, 5), env, fuel) == Done(five, env);
    LetBinds(t, a, Int(t, 5), env, fuel);
    var env1 := PutEnvironment(env, "a", five);
    assert EvalStatement(s1, env, fuel) == Done(Some(Null), env1);

    LetBinds(t, b, Name(a), env1, fuel);
    var env2 := PutEnvironment(env1, "b", five);
    assert EvalStatement(s2, env1, fuel) == Done(Some(Null), env2);
    PutOtherName(env1, "b", five, "a");
    LetSumProgram(t, env2, fuel);

    assert [s1, s2, s3, s4] == [s1] + [s2, s3, s4];
    ProgramSequence(s1, [s2, s3, s4], env, fuel);
    assert [s2, s3, s4] == [s2] + [s3, s4];
    ProgramSequence(s2, [s3, s4], env1, fuel);
  }

  /** `let c = a + b + 5; c;` is 15 where `a` and `b` are 5. */
  lemma LetSumProgram(t: Token, env: Env, fuel: nat)
    requires GetEnvironment(env, "a") == Some(Integer(5)) && GetEnvironment(env, "b") == Some(Integer(5))
    ensures var a, b, c := Identifier(t, "a"), Identifier(t, "b"), Identifier(t, "c");
      var p := Program([LetStmt(t, c, Some(Infix(t, Infix(t, Name(a), "+", Name(b)), "+", Int(t, 5)))),
                        Statement(t, Name(c))]);
      EvalProgram(p, env, fuel) == Done(Some(Integer(15)), PutEnvironment(env, "c", Some(Integer(15))))
  {
    var a, b, c := Identifier(t, "a"), Identifier(t, "b"), Identifier(t, "c");
    var sum := Infix(t, Infix(t, Name(a), "+", Name(b)), "+", Int(t, 5));
    var s3, s4 := LetStmt(t, c, Some(sum)), Statement(t, Name(c));
    var five, fifteen := Some(Integer(5)), Some(Integer(15));
    assert EvalExpr(Name(a), env, fuel) == Done(five, env);
    assert EvalExpr(Name(b), env, fuel) == Done(five, env);
    assert EvalExpr(Infix(t, Name(a), "+", Name(b)), env, fuel) == Done(Some(Integer(10)), env);
    assert EvalExpr(Int(t, 5), env, fuel) == Done(five, env);
    assert EvalExpr(sum, env, fuel) == Done(fifteen, env);
    LetBinds(t, c, sum, env, fuel);
    var env3 := PutEnvironment(env, "c", fifteen);
    assert EvalStatement(s3, env, fuel) == Done(Some(Null), env3);
    assert EvalChild(Some(Name(c)), env3, fuel) == Done(fifteen, env3);
    assert EvalStatement(s4, env3, fuel) == Done(fifteen, env3);
    assert [s3, s4] == [s3] + [s4];
    ProgramSequence(s3, [s4], env, fuel);
    assert [s4] == [s4] + [];
    ProgramSequence(s4, [], env3, fuel);
  }
}
