/**
 * JavaScript value semantics that geowarp's pixel code relies on: the values
 * a pixel band can hold, strict equality, truthiness, Math.floor / Math.ceil /
 * Math.round, the `% 1` remainder and arithmetic on nullish operands. Numbers
 * are mathematical reals; IEEE rounding is not modelled.
 */
module Values {

  datatype Option<+T> = None | Some(value: T)

  datatype Result<+T, +E> = Success(value: T) | Failure(error: E)

  /** A value as it flows through a pixel: `undefined`, `null`, `NaN` or a number. */
  datatype Val = Undef | Null | NaN | Num(n: real)

  /** A point `[x, y]` in some spatial reference system. */
  datatype Point = Point(x: real, y: real)

  /** `a === b`: NaN is unequal to everything, itself included. */
  predicate StrictEq(a: Val, b: Val)
  {
    !a.NaN? && a == b
  }

  /** JavaScript truthiness of a nullish-or-number value: 0, NaN, null and undefined are falsy. */
  predicate Truthy(v: Val)
  {
    v.Num? && v.n != 0.0
  }

  /** `Math.floor`. */
  function Floor(x: real): (r: int)
    ensures r as real <= x < r as real + 1.0
  {
    x.Floor
  }

  /** `Math.ceil`. */
  function Ceil(x: real): (r: int)
    ensures r as real - 1.0 < x <= r as real
  {
    -((-x).Floor)
  }

  /** `Math.round`: the nearest integer, halves rounded towards +Infinity. */
  function RoundHalfUp(x: real): (r: int)
    ensures r as real - 0.5 <= x < r as real + 0.5
  {
    (x + 0.5).Floor
  }

  /** Truncation towards zero, the integer part `x % 1` leaves behind. */
  function Trunc(x: real): (r: int)
    ensures 0.0 <= x ==> 0 <= r && r as real <= x < r as real + 1.0
    ensures x < 0.0 ==> r <= 0 && r as real - 1.0 < x <= r as real
  {
    if 0.0 <= x then x.Floor else -((-x).Floor)
  }

  /** `x % 1`: the fractional part, carrying the sign of `x`. */
  function Rem1(x: real): (r: real)
    ensures x - r == Trunc(x) as real
    ensures 0.0 <= x ==> 0.0 <= r < 1.0
    ensures x < 0.0 ==> -1.0 < r <= 0.0
  {
    x - Trunc(x) as real
  }

  /** `Math.round(v)`: null counts as 0; undefined and NaN give NaN. */
  function Round(v: Val): (r: Val)
    ensures r.Num? <==> v.Num? || v.Null?
    ensures v.Num? ==> r.n - 0.5 <= v.n < r.n + 0.5 && r.n == r.n.Floor as real
    ensures v.Null? ==> r == Num(0.0)
  {
    match v
    case Num(x) => Num(RoundHalfUp(x) as real)
    case Null => Num(0.0)
    case _ => NaN
  }

  /** The number a value becomes in arithmetic: null is 0, undefined and NaN are NaN. */
  function ToNumber(v: Val): (r: Option<real>)
    ensures r.Some? <==> v.Num? || v.Null?
    ensures v.Num? ==> r == Some(v.n)
  {
    match v
    case Num(x) => Some(x)
    case Null => Some(0.0)
    case _ => None
  }

  /** `w * v` for a numeric weight `w`. */
  function Mul(w: real, v: Val): (r: Val)
    ensures r.Num? <==> ToNumber(v).Some?
    ensures r.Num? ==> r.n == w * ToNumber(v).value
    ensures !r.Num? ==> r.NaN?
  {
    match ToNumber(v)
    case Some(x) => Num(w * x)
    case None => NaN
  }

  /** `a + b` on values that are numbers, null, undefined or NaN. */
  function Add(a: Val, b: Val): (r: Val)
    ensures r.Num? <==> ToNumber(a).Some? && ToNumber(b).Some?
    ensures r.Num? ==> r.n == ToNumber(a).value + ToNumber(b).value
    ensures !r.Num? ==> r.NaN?
  {
    match (ToNumber(a), ToNumber(b))
    case (Some(x), Some(y)) => Num(x + y)
    case _ => NaN
  }

  function MaxInt(a: int, b: int): int { if a < b then b else a }

  function MinInt(a: int, b: int): int { if a < b then a else b }
}
