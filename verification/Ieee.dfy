/** Floating-point numbers without rounding: the reals, the two infinities and NaN, with the
    operations of IEEE 754 on them. Zero has no sign here: every zero the circle program
    divides by is the difference of two equal numbers, which is positive zero. */
module Ieee {

  datatype Num = Fin(r: real) | Inf(negative: bool) | NaN

  function Neg(a: Num): Num {
    match a
    case Fin(x) => Fin(-x)
    case Inf(n) => Inf(!n)
    case NaN => NaN
  }

  function Add(a: Num, b: Num): Num {
    match (a, b)
    case (Fin(x), Fin(y)) => Fin(x + y)
    case (NaN, _) => NaN
    case (_, NaN) => NaN
    case (Inf(m), Inf(n)) => if m == n then a else NaN
    case (Inf(_), Fin(_)) => a
    case (Fin(_), Inf(_)) => b
  }

  function Sub(a: Num, b: Num): Num {
    Add(a, Neg(b))
  }

  predicate IsZero(a: Num) { a == Fin(0.0) }

  predicate IsNegative(a: Num) {
    match a
    case Fin(x) => x < 0.0
    case Inf(n) => n
    case NaN => false
  }

  function Mul(a: Num, b: Num): Num {
    match (a, b)
    case (Fin(x), Fin(y)) => Fin(x * y)
    case (NaN, _) => NaN
    case (_, NaN) => NaN
    case _ => if IsZero(a) || IsZero(b) then NaN else Inf(IsNegative(a) != IsNegative(b))
  }

  function Div(a: Num, b: Num): Num {
    match (a, b)
    case (NaN, _) => NaN
    case (_, NaN) => NaN
    case (Inf(_), Inf(_)) => NaN
    case (Fin(x), Inf(_)) => Fin(0.0)
    case (Inf(_), Fin(y)) => Inf(IsNegative(a) != (y < 0.0))
    case (Fin(x), Fin(y)) => if y != 0.0 then Fin(x / y) else if x == 0.0 then NaN else Inf(x < 0.0)
  }

  /** feq.d: false as soon as an operand is NaN. */
  predicate Feq(a: Num, b: Num) {
    !a.NaN? && !b.NaN? && a == b
  }

  /** fsqrt.d: r is what it makes of a. */
  predicate IsRoot(r: Num, a: Num) {
    match a
    case Fin(x) => if x < 0.0 then r == NaN else r.Fin? && r.r >= 0.0 && r.r * r.r == x
    case Inf(negative) => r == if negative then NaN else a
    case NaN => r == NaN
  }
}
