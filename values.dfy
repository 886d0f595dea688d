/** The interpreter's value type and the outcome of a built-in call. */
module Values {

  /** A value of the language. Numbers are modelled as integers. */
  datatype Value =
    | Nil
    | Boolean(b: bool)
    | Number(n: int)
    | String(text: string)
    | Symbol(name: string)
    | List(items: seq<Value>)
    | Vector(items: seq<Value>)
    | Function(callable: Callable, isUserDefined: bool, name: string)

  /** What a Function value runs: a host-provided native, or a lambda's parameters and body. */
  datatype Callable =
    | Native(op: NativeOp)
    | Lambda(params: seq<string>, body: Value)

  /** The natives this model gives a meaning to (see module Natives). */
  datatype NativeOp = EqualsOp | LengthOp | NthOp | SliceOp | JoinOp | ConcatOp | DoOp

  /** Why a built-in call produced no value of the language. */
  datatype Error =
    | Thrown(message: string)  // an `Error` thrown by the native itself
    | MissingArgument          // a `TypeError`: the native read a property of an absent argument
    | Undefined                // the native returned JavaScript `undefined`, which is no value of the language

  datatype Result<+T> = Ok(value: T) | Err(error: Error) {
    predicate IsFailure() { Err? }

    function PropagateFailure<U>(): Result<U>
      requires Err?
    {
      Err(error)
    }

    function Extract(): T
      requires Ok?
    {
      value
    }
  }

  /** The evaluator's `if` test: only `nil` and `false` are false. */
  predicate Truthy(v: Value) {
    !(v.Nil? || v == Boolean(false))
  }

  /** The count `length` reports: items of a list or vector, characters of a string. */
  function Count(v: Value): (r: nat) {
    match v
    case List(items) => |items|
    case Vector(items) => |items|
    case String(text) => |text|
    case _ => 0
  }

  predicate IsCollection(v: Value) {
    v.List? || v.Vector? || v.String?
  }

  /** A JavaScript primitive, as read from a value's `value` property. */
  datatype Prim = PUndefined | PBool(b: bool) | PNum(n: int) | PStr(s: string)

  /** The `value` property of a value's record: booleans, numbers, strings and symbols
      carry one; nil, lists, vectors and functions do not (JavaScript `undefined`). */
  function Prop(v: Value): (r: Prim) {
    match v
    case Boolean(b) => PBool(b)
    case Number(n) => PNum(n)
    case String(text) => PStr(text)
    case Symbol(name) => PStr(name)
    case _ => PUndefined
  }

  /** Decimal digits of a natural number, most significant first. */
  function NatDigits(n: nat): (r: string)
    ensures |r| > 0
  {
    var d := "0123456789"[n % 10];
    if n < 10 then [d] else NatDigits(n / 10) + [d]
  }

  /** How JavaScript renders an integral number below 10^21 in magnitude as a string:
      an optional minus sign and the decimal digits. */
  function DecimalString(n: int): (r: string) {
    if n < 0 then "-" + NatDigits(-n) else NatDigits(n)
  }

  /** How `Array.prototype.join` renders one element: `undefined` becomes the empty string. */
  function PrimText(p: Prim): (r: string) {
    match p
    case PUndefined => ""
    case PBool(b) => if b then "true" else "false"
    case PNum(n) => DecimalString(n)
    case PStr(s) => s
  }
}
