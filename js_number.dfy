/**
 * The small part of JavaScript's value semantics the scorer relies on:
 * strings as sequences of UTF-16 code units, `undefined`/`NaN` as a missing
 * number, and the integer behaviour of `%`, `Math.floor(a / b)`, `+`,
 * `Math.abs` and `Math.min`.
 */
module JsNumber {

  /** A number that may be missing: `None` stands for both `undefined` and `NaN`. */
  datatype Option<+T> = None | Some(value: T)

  /** One UTF-16 code unit, what `charCodeAt` returns. */
  type CodeUnit = c: int | 0 <= c < 0x1_0000

  /** A JavaScript string: `length`, indexing and `split('')` all count code units. */
  type JsString = seq<CodeUnit>

  /** `a + b` on numbers where either side may be `NaN`/`undefined`: the sum is `NaN`. */
  function Add(x: Option<int>, y: Option<int>): (r: Option<int>)
    ensures r.Some? <==> x.Some? && y.Some?
    ensures r.Some? ==> r.value == x.value + y.value
  {
    if x.Some? && y.Some? then Some(x.value + y.value) else None
  }

  /** JavaScript's `%` on integers: the remainder takes the sign of the dividend. */
  function Rem(a: int, b: int): (r: int)
    requires b > 0
    ensures a >= 0 ==> 0 <= r < b
    ensures a < 0 ==> -b < r <= 0
    ensures a == b * TruncDiv(a, b) + r
  {
    if a >= 0 then a % b else -((-a) % b)
  }

  /** The quotient rounded toward zero, the one JavaScript's `%` pairs with. */
  function TruncDiv(a: int, b: int): int
    requires b > 0
  {
    if a >= 0 then a / b else -((-a) / b)
  }

  /** `Math.floor(a / b)` for a positive integer divisor. */
  function FloorDiv(a: int, b: int): (q: int)
    requires b > 0
    ensures q * b <= a < q * b + b
  {
    a / b
  }

  /** `Math.abs` on integers. */
  function Abs(a: int): (r: nat)
    ensures r == a || r == -a
  {
    if a < 0 then -a else a
  }

  /** `Math.min` of two integers. */
  function Min(a: int, b: int): (r: int)
    ensures r <= a && r <= b
    ensures r == a || r == b
  {
    if a <= b then a else b
  }
}
