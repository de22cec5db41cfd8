/**
 * JavaScript numbers as the plate code uses them.
 *
 * A plate dimension is either a finite number or NaN; NaN also stands for a
 * missing field, because `Number(undefined)` is NaN. Arithmetic propagates
 * NaN and every ordered comparison with NaN is false, as in JavaScript.
 */
module JsNumber {

  datatype Option<+T> = None | Some(value: T)

  datatype Num = Fin(r: real) | NaN

  /** `Number(x) || 0`: NaN (and a missing value) becomes 0. */
  function Coerce(n: Num): (v: real)
    ensures n.Fin? ==> v == n.r
    ensures n.NaN? ==> v == 0.0
  {
    match n
    case Fin(v) => v
    case NaN => 0.0
  }

  function Add(a: Num, b: Num): Num
  {
    if a.Fin? && b.Fin? then Fin(a.r + b.r) else NaN
  }

  function Sub(a: Num, b: Num): Num
  {
    if a.Fin? && b.Fin? then Fin(a.r - b.r) else NaN
  }

  function Mul(a: Num, b: Num): Num
  {
    if a.Fin? && b.Fin? then Fin(a.r * b.r) else NaN
  }

  /** Division by a divisor that is NaN or non-zero. */
  function Div(a: Num, b: Num): Num
    requires b.Fin? ==> b.r != 0.0
  {
    if a.Fin? && b.Fin? then Fin(a.r / b.r) else NaN
  }

  function Abs(a: Num): Num
  {
    match a
    case Fin(v) => Fin(if v < 0.0 then -v else v)
    case NaN => NaN
  }

  /** `Math.max(a, b)`: NaN if either argument is NaN. */
  function Max(a: Num, b: Num): Num
  {
    if a.Fin? && b.Fin? then Fin(RMax(a.r, b.r)) else NaN
  }

  predicate Gt(a: Num, b: Num) { a.Fin? && b.Fin? && a.r > b.r }
  predicate Ge(a: Num, b: Num) { a.Fin? && b.Fin? && a.r >= b.r }
  predicate Le(a: Num, b: Num) { a.Fin? && b.Fin? && a.r <= b.r }
  predicate Lt(a: Num, b: Num) { a.Fin? && b.Fin? && a.r < b.r }

  function RMax(a: real, b: real): real { if a >= b then a else b }
  function RMin(a: real, b: real): real { if a <= b then a else b }
  function RAbs(a: real): real { if a < 0.0 then -a else a }

  /**
   * `Math.round(x)`: the nearest integer, halves rounded towards +infinity,
   * i.e. Floor(x + 1/2).
   */
  function Round(x: real): (r: real)
    ensures r == r.Floor as real
    ensures x - 0.5 < r <= x + 0.5
  {
    (x + 0.5).Floor as real
  }
}
