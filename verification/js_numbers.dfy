/**
 This module models the few JavaScript number operations the harvest tracker
 relies on: the result of `parseFloat`, the truthiness test `!x`, the
 comparison `x <= 0`, division (which yields NaN or an infinity instead of
 failing), and `Math.round`. Finite values are mathematical reals; IEEE-754
 rounding is not modelled.
 */
module JsNumbers {

  /** A JavaScript number: not-a-number, a finite value, or one of the infinities. */
  datatype JsNumber = NaN | Num(value: real) | PosInf | NegInf

  /** `!x` for a number: true exactly for NaN and zero. */
  predicate Falsy(x: JsNumber) {
    x.NaN? || x == Num(0.0)
  }

  /** `x <= 0`: every comparison with NaN is false. */
  predicate AtMostZero(x: JsNumber) {
    match x
    case NaN => false
    case Num(v) => v <= 0.0
    case PosInf => false
    case NegInf => true
  }

  /** `Math.min` of two finite values. */
  function Min(a: real, b: real): real {
    if a <= b then a else b
  }

  /** `a / b` for finite operands: division by zero gives an infinity, or NaN for `0 / 0`. */
  function Divide(a: real, b: real): (q: JsNumber)
    ensures q.Num? <==> b != 0.0
    ensures q.Num? ==> q.value * b == a
    ensures q.NaN? <==> a == 0.0 && b == 0.0
  {
    if b != 0.0 then Num(a / b)
    else if a > 0.0 then PosInf
    else if a < 0.0 then NegInf
    else NaN
  }

  /** `x * k` for a positive finite factor `k`: NaN and the infinities are kept. */
  function Scale(x: JsNumber, k: real): (y: JsNumber)
    requires k > 0.0
    ensures y.Num? <==> x.Num?
    ensures y.Num? ==> y.value == x.value * k
    ensures !y.Num? ==> y == x
  {
    match x
    case Num(v) => Num(v * k)
    case _ => x
  }

  /** `Math.round`: the integer nearest to `x`, halves rounded towards positive infinity. */
  function Round(x: JsNumber): (r: JsNumber)
    ensures r.Num? <==> x.Num?
    ensures r.Num? ==> r.value == r.value.Floor as real
    ensures r.Num? ==> x.value - 0.5 < r.value <= x.value + 0.5
    ensures !r.Num? ==> r == x
  {
    match x
    case Num(v) => Num((v + 0.5).Floor as real)
    case _ => x
  }
}
