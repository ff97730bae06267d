/** The JavaScript values the cache adapter stores and inspects, and the shapes
    of the results its Node-style callbacks deliver. */
module Values {

  /** A caller's value, opaque to the adapter except for its truthiness.
      Numbers are mathematical reals: NaN, -0 and rounding are not modelled.
      A value is a finite tree, so a value with a reference cycle cannot be built. */
  datatype Value =
    | Undefined
    | Null
    | Bool(b: bool)
    | Num(x: real)
    | Str(s: string)
    | Arr(elems: seq<Value>)
    | Obj(fields: map<string, Value>)
    | Date(ms: int)

  /** JavaScript truthiness: what `!v` negates. */
  predicate Truthy(v: Value) {
    match v
    case Undefined => false
    case Null => false
    case Bool(b) => b
    case Num(x) => x != 0.0
    case Str(s) => s != ""
    case _ => true
  }

  /** An `Error` object; only its message is observable. */
  datatype Error = Error(message: string)

  datatype Option<T> = None | Some(value: T)

  /** `callback(null, value)` or `callback(err)`. */
  datatype Result<T> = Ok(value: T) | Err(error: Error)

  /** `callback()` or `callback(err)`: a completion that carries no payload. */
  datatype Outcome = Pass | Fail(error: Error)
}
