/** Strategy parameters as they arrive in the `parameters` dictionary handed to a strategy's
    constructor (typically parsed from YAML): dynamically typed values, read with
    `parameters.get(key, default)` and checked with `isinstance`. */
module Parameters {

  datatype Value = Int(i: int) | Float(f: real) | Bool(b: bool) | Str(s: string) | NoneValue

  /** `isinstance(v, int)`: in Python `bool` is a subclass of `int`, so booleans pass. */
  predicate IsInt(v: Value)
  {
    v.Int? || v.Bool?
  }

  /** `isinstance(v, (int, float))`. */
  predicate IsNumber(v: Value)
  {
    v.Int? || v.Float? || v.Bool?
  }

  /** The numeric value Python compares a number with: True is 1 and False is 0. */
  function AsReal(v: Value): real
    requires IsNumber(v)
  {
    match v
    case Int(i) => i as real
    case Float(f) => f
    case Bool(b) => if b then 1.0 else 0.0
  }

  /** Python truthiness, as used by `if self.use_volume:`. */
  predicate Truthy(v: Value)
  {
    match v
    case Int(i) => i != 0
    case Float(f) => f != 0.0
    case Bool(b) => b
    case Str(s) => s != ""
    case NoneValue => false
  }

  /** `parameters.get(key, default)`. */
  function Get(parameters: map<string, Value>, key: string, default: Value): Value
  {
    if key in parameters then parameters[key] else default
  }
}
