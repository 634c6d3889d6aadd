/** Model of source/monkey/object.c: type names, the printed form of each kind of object
    (`InspectObject`), copying, and building a function object from a function literal. */
module Objects {
  import opened Wrappers
  import opened LibC
  import opened Strings
  import opened Ast
  import opened Values
  import opened Environments

  /** ObjectTypeText: the name of the enum constant, without its `OBJECT_TYPE_` prefix. */
  function ObjectTypeText(t: ObjectType): string
  {
    match t
    case IntegerType => "INTEGER"
    case BooleanType => "BOOLEAN"
    case NullType => "NULL"
    case ReturnValueType => "RETURN_VALUE"
    case ErrorType => "ERROR"
    case FunctionType => "FUNCTION"
  }

  /** Different object types have different names, so an error message names the type exactly. */
  lemma ObjectTypeTextInjective(a: ObjectType, b: ObjectType)
    ensures ObjectTypeText(a) == ObjectTypeText(b) <==> a == b
  {
  }

  /** The printers dereference a function's body and print integers with `%PRId64`: an object can
      be inspected when its integers fit in `int64_t` and its function bodies can be printed. */
  predicate Inspectable(o: Option<Object>)
    decreases o
  {
    match o
    case None => true
    case Some(Integer(v)) => InInt64(v)
    case Some(ReturnValue(value)) => Inspectable(value)
    case Some(Function(_, body, _)) => PrintableBlock(body)
    case Some(_) => true
  }

  /** InspectObject: "<NULL>" for a missing object, otherwise the printer of the object's type. */
  function InspectObject(o: Option<Object>): string
    requires Inspectable(o)
    decreases o
  {
    match o
    case None => Strdup("<NULL>")
    case Some(Integer(v)) => InspectInteger(v)
    case Some(Boolean(b)) => InspectBoolean(b)
    case Some(Null) => InspectNull()
    case Some(ReturnValue(value)) => InspectObject(value)
    case Some(Error(message)) => InspectError(message)
    case Some(Function(parameters, body, _)) => InspectFunction(parameters, body)
  }

  /** InspectIntegerObject: the value in decimal. */
  function InspectInteger(v: int): string
    requires InInt64(v)
  {
    FormatInt64(v)
  }

  /** InspectBooleanObject. */
  function InspectBoolean(b: bool): string
  {
    Strdup(if b then "true" else "false")
  }

  /** InspectNullObject. */
  function InspectNull(): string
  {
    Strdup("null")
  }

  /** InspectErrorObject: `%s` prints the message up to its first NUL. */
  function InspectError(message: string): string
  {
    "ERROR: " + CString(message)
  }

  /** The strings the loop of InspectFunctionObject pushes for the parameters: each name, with
      ", " before every name but the first. */
  function ParameterPieces(parameters: seq<Identifier>): seq<string>
  {
    if parameters == [] then []
    else
      var init := parameters[..|parameters| - 1];
      ParameterPieces(init) + (if init == [] then [] else [Strdup(", ")]) + [Strdup(parameters[|parameters| - 1].value)]
  }

  /** InspectFunctionObject: "fn(", the parameters, ") {\n", the body and "\n}", joined. */
  function InspectFunction(parameters: seq<Identifier>, body: Block): string
    requires PrintableBlock(body)
  {
    Concat([Strdup("fn(")] + ParameterPieces(parameters) + [Strdup(") {\n"), BlockString(body), Strdup("\n}")])
  }

  /** The printed parameter names, as IdentifierString gives them. */
  function ParameterNames(parameters: seq<Identifier>): (names: seq<string>)
    ensures |names| == |parameters|
    ensures forall i | 0 <= i < |parameters| :: names[i] == Strdup(parameters[i].value)
  {
    seq(|parameters|, i requires 0 <= i < |parameters| => Strdup(parameters[i].value))
  }

  /** The loop's pieces join to the parameter names separated by ", ". */
  lemma {:induction false} ParameterPiecesJoin(parameters: seq<Identifier>)
    ensures Concat(ParameterPieces(parameters)) == JoinWith(ParameterNames(parameters), ", ")
  {
    if parameters != [] {
      var init := parameters[..|parameters| - 1];
      ParameterPiecesJoin(init);
      PiecesStep(parameters);
      NamesStep(parameters);
    }
  }

  /** One more parameter adds its name to the pieces, after ", " unless it is the first. */
  lemma PiecesStep(parameters: seq<Identifier>)
    requires parameters != []
    ensures var init := parameters[..|parameters| - 1];
      Concat(ParameterPieces(parameters))
        == Concat(ParameterPieces(init)) + (if init == [] then "" else ", ") + Strdup(parameters[|parameters| - 1].value)
  {
    var init := parameters[..|parameters| - 1];
    var last := Strdup(parameters[|parameters| - 1].value);
    var sep := if init == [] then [] else [Strdup(", ")];
    var pieces := ParameterPieces(init) + sep;
    assert ParameterPieces(parameters) == pieces + [last];
    assert (pieces + [last])[..|pieces|] == pieces;
    ConcatAppend(ParameterPieces(init), sep);
    if init != [] {
      assert Strdup(", ") == ", " by {
        assert '\0' !in ", ";
      }
      ConcatOne(", ");
    }
  }

  /** One more parameter adds its name to the joined names, after ", " unless it is the first. */
  lemma NamesStep(parameters: seq<Identifier>)
    requires parameters != []
    ensures var init := parameters[..|parameters| - 1];
      JoinWith(ParameterNames(parameters), ", ")
        == (if init == [] then "" else JoinWith(ParameterNames(init), ", ") + ", ") + Strdup(parameters[|parameters| - 1].value)
  {
    var names := ParameterNames(parameters);
    assert names[..|names| - 1] == ParameterNames(parameters[..|parameters| - 1]);
  }

  /** The concatenation of one string. */
  lemma ConcatOne(s: string)
    ensures Concat([s]) == s
  {
    assert [s][..0] == [];
  }

  /** The concatenation of three strings. */
  lemma ConcatThree(a: string, b: string, c: string)
    ensures Concat([a, b, c]) == a + b + c
  {
    assert [a, b, c][..2] == [a, b];
    assert [a, b][..1] == [a];
    ConcatOne(a);
  }

  /** A function prints as "fn(", its parameter names separated by ", ", ") {\n", its body and
      "\n}". */
  lemma InspectFunctionText(parameters: seq<Identifier>, body: Block)
    requires PrintableBlock(body)
    ensures InspectFunction(parameters, body)
      == "fn(" + JoinWith(ParameterNames(parameters), ", ") + ") {\n" + BlockString(body) + "\n}"
  {
    var pieces := ParameterPieces(parameters);
    var head := [Strdup("fn(")] + pieces;
    var tail := [Strdup(") {\n"), BlockString(body), Strdup("\n}")];
    ConcatAppend(head, tail);
    ConcatAppend([Strdup("fn(")], pieces);
    ParameterPiecesJoin(parameters);
    FunctionTextParts();
    ConcatOne(Strdup("fn("));
    ConcatThree(Strdup(") {\n"), BlockString(body), Strdup("\n}"));
  }

  lemma FunctionTextParts()
    ensures Strdup("fn(") == "fn(" && Strdup(") {\n") == ") {\n" && Strdup("\n}") == "\n}"
  {
    assert '\0' !in "fn(" && '\0' !in ") {\n" && '\0' !in "\n}";
  }

  /** CopyObject dereferences the value of a return value: a NULL one cannot be copied. */
  predicate Copyable(o: Object)
    decreases o
  {
    o.ReturnValue? ==> o.value.Some? && Copyable(o.value.value)
  }

  /** No error message inside `o` holds a NUL, so copying it loses nothing. */
  predicate NulFree(o: Object)
    decreases o
  {
    match o
    case Error(message) => '\0' !in message
    case ReturnValue(value) => value.Some? ==> NulFree(value.value)
    case _ => true
  }

  /** CopyObject: the interned booleans and null come back as they are; every other object is
      rebuilt with the same payload, a function with a copy of its environment. */
  function CopyObject(o: Object): (r: Object)
    requires Copyable(o)
    ensures r.Type() == o.Type()
    ensures o.Boolean? || o.Null? ==> r == o
    ensures NulFree(o) ==> r == o
    ensures Inspectable(Some(o)) ==> Inspectable(Some(r)) && InspectObject(Some(r)) == InspectObject(Some(o))
    decreases o
  {
    match o
    case Boolean(_) => o
    case Null => o
    case Integer(v) => Integer(v)
    case ReturnValue(value) => ReturnValue(Some(CopyObject(value.value)))
    case Error(message) => Error(Strdup(message))
    case Function(parameters, body, env) => Function(parameters, body, CopyEnvironment(env))
  }

  /** CreateFunctionObject: a function object with the literal's parameters and body, closing over
      `env`. */
  function CreateFunctionObject(literal: Expr, env: Env): (r: Object)
    requires literal.FunctionLit?
    ensures r.Function? && r.parameters == literal.parameters && r.body == literal.body && r.env == env
  {
    Function(literal.parameters, literal.body, env)
  }

  /** A function object prints as the literal it came from, with its body between braces on lines
      of its own. */
  lemma InspectCreatedFunction(literal: Expr, env: Env)
    requires literal.FunctionLit? && PrintableExpr(literal) && literal.token.literal == "fn"
    ensures var head := "fn(" + JoinWith(ParameterNames(literal.parameters), ", ") + ")";
      var body := BlockString(literal.body);
      && ExprString(literal) == head + body
      && Inspectable(Some(CreateFunctionObject(literal, env)))
      && InspectObject(Some(CreateFunctionObject(literal, env))) == head + " {\n" + body + "\n}"
  {
    var names := ParameterNames(literal.parameters);
    assert seq(|literal.parameters|, i requires 0 <= i < |literal.parameters| => Strdup(literal.parameters[i].value)) == names;
    assert Strdup(literal.token.literal) == "fn" by {
      assert '\0' !in "fn";
    }
    InspectFunctionText(literal.parameters, literal.body);
  }

  /** `n` return-value wrappers around `o`. */
  function Wrapped(o: Option<Object>, n: nat): Option<Object>
  {
    if n == 0 then o else Some(ReturnValue(Wrapped(o, n - 1)))
  }

  /** A return value prints as the value it wraps, however deeply it is wrapped. */
  lemma {:induction false} InspectUnwraps(o: Option<Object>, n: nat)
    ensures Inspectable(Wrapped(o, n)) <==> Inspectable(o)
    ensures Inspectable(o) ==> InspectObject(Wrapped(o, n)) == InspectObject(o)
  {
    if n > 0 {
      InspectUnwraps(o, n - 1);
    }
  }

  /** The printed form of an integer reads back, with `strtoll`, as the same integer. */
  lemma InspectIntegerReadsBack(v: int)
    requires InInt64(v)
    ensures StrToLL(InspectObject(Some(Integer(v)))) == Conversion(v, |InspectObject(Some(Integer(v)))|)
  {
    StrToLLInvertsFormat(v);
  }

  /** The objects whose printed form carries their whole content: integers, booleans, null, error
      messages without NUL, and the missing object. */
  predicate Scalar(o: Option<Object>)
  {
    match o
    case None => true
    case Some(Integer(v)) => InInt64(v)
    case Some(Boolean(_)) => true
    case Some(Null) => true
    case Some(Error(message)) => '\0' !in message
    case Some(_) => false
  }

  /** Two scalar objects that print alike are the same object. */
  lemma InspectScalarInjective(a: Option<Object>, b: Option<Object>)
    requires Scalar(a) && Scalar(b)
    requires InspectObject(a) == InspectObject(b)
    ensures a == b
  {
    ScalarTexts();
    if a.Some? && a.value.Integer? && b.Some? && b.value.Integer? {
      InspectIntegerReadsBack(a.value.intValue);
      InspectIntegerReadsBack(b.value.intValue);
    } else if a.Some? && a.value.Error? && b.Some? && b.value.Error? {
      var pa, pb := InspectObject(a), InspectObject(b);
      assert pa[7..] == a.value.message;
      assert pb[7..] == b.value.message;
    } else {
      ScalarLeads(a);
      ScalarLeads(b);
    }
  }

  lemma ScalarTexts()
    ensures Strdup("<NULL>") == "<NULL>" && Strdup("true") == "true" && Strdup("false") == "false"
    ensures Strdup("null") == "null"
  {
    assert '\0' !in "<NULL>" && '\0' !in "true" && '\0' !in "false" && '\0' !in "null";
  }

  /** The first character of a scalar's printed form tells its kind; booleans differ in length. */
  lemma ScalarLeads(o: Option<Object>)
    requires Scalar(o)
    ensures |InspectObject(o)| > 0
    ensures var c := InspectObject(o)[0];
      match o
      case None => c == '<'
      case Some(Integer(_)) => c == '-' || IsDigit(c)
      case Some(Boolean(b)) => c == (if b then 't' else 'f')
      case Some(Null) => c == 'n'
      case Some(Error(_)) => c == 'E'
      case Some(_) => false
  {
    ScalarTexts();
    if o.Some? && o.value.Integer? {
      var v := o.value.intValue;
      if v >= 0 {
        assert IsDigit(NatToDecimal(v)[0]);
      } else {
        assert FormatInt64(v)[0] == '-';
      }
    }
  }
}
