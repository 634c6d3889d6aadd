/** The value types of source/monkey/object.h and the environment of source/monkey/environment.c.
    They refer to each other: a function value holds the environment it closes over, and an
    environment binds names to values. So both are declared here, and the operations on them live
    in the modules named after their C files. */
module Values {
  import opened Wrappers
  import opened Ast

  /** ObjectType: one tag per kind of object. */
  datatype ObjectType = IntegerType | BooleanType | NullType | ReturnValueType | ErrorType | FunctionType

  /** The objects the evaluator produces. A return value may wrap a NULL object, which is `None`.
      A function keeps its parameters, its body and the environment it was created in. Whether
      the C object may be freed, and who owns a function's syntax tree, are not modelled. */
  datatype Object =
    | Integer(intValue: int)
    | Boolean(boolValue: bool)
    | Null
    | ReturnValue(value: Option<Object>)
    | Error(message: string)
    | Function(parameters: seq<Identifier>, body: Block, env: Env)
  {
    /** The `type` field every object starts with. */
    function Type(): ObjectType
    {
      match this
      case Integer(_) => IntegerType
      case Boolean(_) => BooleanType
      case Null => NullType
      case ReturnValue(_) => ReturnValueType
      case Error(_) => ErrorType
      case Function(_, _, _) => FunctionType
    }
  }

  /** Environment: the bindings of one scope and the enclosing scope, if any. The GLib table maps
      a name to an object pointer, which may be NULL (`None`); a NULL entry reads like a missing one. */
  datatype Env = Env(store: map<string, Option<Object>>, outer: Option<Env>)
}
