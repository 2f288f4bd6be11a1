/**
 * JavaScript numbers where a division by zero can happen: a real value, the
 * two infinities, or NaN. Finite values are exact reals (no rounding) and
 * zero has no sign.
 */
module JsNumber {

  datatype Num = Fin(v: real) | PosInf | NegInf | NaN

  function Negate(a: Num): Num {
    match a
    case Fin(x) => Fin(-x)
    case PosInf => NegInf
    case NegInf => PosInf
    case NaN => NaN
  }

  /** `a / b`. */
  function Div(a: Num, b: Num): (r: Num)
    ensures b.Fin? && b.v != 0.0 && a.Fin? ==> r == Fin(a.v / b.v)
    ensures a.NaN? || b.NaN? ==> r.NaN?
  {
    match (a, b)
    case (NaN, _) => NaN
    case (_, NaN) => NaN
    case (Fin(x), Fin(y)) =>
      if y != 0.0 then Fin(x / y) else if x > 0.0 then PosInf else if x < 0.0 then NegInf else NaN
    case (Fin(_), _) => Fin(0.0)
    case (_, Fin(y)) => if y < 0.0 then Negate(a) else a
    case (_, _) => NaN
  }

  /** `a * c` for a finite factor. */
  function Scale(a: Num, c: real): Num {
    match a
    case Fin(x) => Fin(x * c)
    case NaN => NaN
    case _ => if c > 0.0 then a else if c < 0.0 then Negate(a) else NaN
  }

  /** `a - b`. */
  function Sub(a: Num, b: Num): Num {
    match (a, b)
    case (Fin(x), Fin(y)) => Fin(x - y)
    case (NaN, _) => NaN
    case (_, NaN) => NaN
    case (PosInf, PosInf) => NaN
    case (NegInf, NegInf) => NaN
    case (PosInf, _) => PosInf
    case (NegInf, _) => NegInf
    case (Fin(_), PosInf) => NegInf
    case (Fin(_), NegInf) => PosInf
  }

  /** `a > b`; every comparison with NaN is false. */
  predicate Greater(a: Num, b: Num) {
    match (a, b)
    case (Fin(x), Fin(y)) => x > y
    case (PosInf, Fin(_)) => true
    case (PosInf, NegInf) => true
    case (Fin(_), NegInf) => true
    case (_, _) => false
  }

  /** `Math.min(a, b)`: NaN if either is NaN. */
  function Min(a: Num, b: Num): (r: Num)
    ensures !a.NaN? && !b.NaN? ==> !Greater(r, a) && !Greater(r, b) && (r == a || r == b)
    ensures a.NaN? || b.NaN? ==> r.NaN?
  {
    if a.NaN? || b.NaN? then NaN else if Greater(a, b) then b else a
  }

  /** `a >= b` on the extended reals, for operands that are not NaN. */
  predicate AtLeast(a: Num, b: Num) {
    !a.NaN? && !b.NaN? && !Greater(b, a)
  }

  /** `Math.round` on a finite value: the nearest integer, halves rounded up. */
  function Round(x: real): (r: int)
    ensures x - 0.5 < r as real <= x + 0.5
  {
    (x + 0.5).Floor
  }
}
