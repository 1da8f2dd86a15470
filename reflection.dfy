/**
 * The parts of Go's run-time type information the engine inspects: the
 * declared types of a handler's inputs and outputs, the kind of a converted
 * argument value, and the argument values handed to a handler.
 */
module Reflection {
  import opened Wrappers

  /** A declared parameter or result type, as far as the engine tells types apart. */
  datatype GoType =
    | ContextType             // a type that implements context.Context
    | ErrorPointerType        // *jsonrpc.Error
    | ValueType(name: string) // any other type, by name

  /** The type of a registered handler: a function type, or some value that is not a function. */
  datatype HandlerType =
    | NotAFunction
    | Func(ins: seq<GoType>, outs: seq<GoType>)

  /**
   * A Go value after the JSON round trip, by reflect kind. `List` stands for
   * slices and arrays; `Dict` for a map, holding its values in the order the
   * run time iterates them (keys are never inspected); `Interface` for an
   * interface-typed value such as an element of `[]any`.
   */
  datatype Value =
    | Scalar(text: string)
    | Struct(typeName: string, fields: seq<Value>)
    | Pointer(target: Option<Value>)
    | Interface(dynamic: Option<Value>)
    | List(elems: seq<Value>)
    | Dict(values: seq<Value>)

  /**
   * An argument handed to a handler: the request's context, the zero value
   * of a declared type, or a value bound from the request's params.
   */
  datatype Arg = Context | Zero(t: GoType) | Bound(v: Value)
}
