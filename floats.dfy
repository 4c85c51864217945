/** Floating-point values as pandas and numpy produce them: a finite real, or one of the
    special values of IEEE 754. Rounding is not modelled (finite values are exact reals) and
    every zero is +0. NaN compares false with everything, as in numpy. */
module Floats {

  datatype Float = Finite(v: real) | PosInf | NegInf | NaN

  /** Sign of a non-NaN value: -1, 0 or 1. */
  function Sign(a: Float): int
  {
    match a
    case Finite(x) => if x > 0.0 then 1 else if x < 0.0 then -1 else 0
    case PosInf => 1
    case NegInf => -1
    case NaN => 0
  }

  function InfinityOfSign(s: int): Float
  {
    if s > 0 then PosInf else if s < 0 then NegInf else NaN
  }

  function Add(a: Float, b: Float): Float
  {
    if a.NaN? || b.NaN? then NaN
    else if a.Finite? && b.Finite? then Finite(a.v + b.v)
    else if a.Finite? then b
    else if b.Finite? || a == b then a
    else NaN
  }

  /** a - b: an infinity minus the same infinity is NaN, minus a finite value or the other
      infinity it stays; a finite value minus an infinity is the opposite infinity. */
  function Sub(a: Float, b: Float): Float
  {
    if a.NaN? || b.NaN? then NaN
    else if a.Finite? && b.Finite? then Finite(a.v - b.v)
    else if a.Finite? then (if b.PosInf? then NegInf else PosInf)
    else if b.Finite? || a != b then a
    else NaN
  }

  function Mul(a: Float, b: Float): Float
  {
    if a.NaN? || b.NaN? then NaN
    else if a.Finite? && b.Finite? then Finite(a.v * b.v)
    else InfinityOfSign(Sign(a) * Sign(b))
  }

  /** Division of two finite values: x/0 is an infinity of the sign of x, and 0/0 is NaN. */
  function Quotient(x: real, y: real): Float
  {
    if y != 0.0 then Finite(x / y) else InfinityOfSign(Sign(Finite(x)))
  }

  function Div(a: Float, b: Float): Float
  {
    if a.NaN? || b.NaN? then NaN
    else if a.Finite? && b.Finite? then Quotient(a.v, b.v)
    else if a.Finite? then Finite(0.0)
    else if b.Finite? then InfinityOfSign(Sign(a) * (if b.v < 0.0 then -1 else 1))
    else NaN
  }

  predicate Less(a: Float, b: Float)
  {
    if a.NaN? || b.NaN? then false
    else if a.Finite? && b.Finite? then a.v < b.v
    else if a.NegInf? then !b.NegInf?
    else b.PosInf? && !a.PosInf?
  }

  predicate LessEq(a: Float, b: Float)
  {
    Less(a, b) || (a == b && !a.NaN?)
  }

  /** The comparisons pandas applies element-wise in masks: all false when either side is NaN. */
  datatype Relation = Lt | Le | Gt | Ge

  predicate Holds(a: Float, rel: Relation, b: Float)
  {
    match rel
    case Lt => Less(a, b)
    case Le => LessEq(a, b)
    case Gt => Less(b, a)
    case Ge => LessEq(b, a)
  }

  lemma SubFinite(x: real, y: real)
    ensures Sub(Finite(x), Finite(y)) == Finite(x - y)
  {
  }
}
