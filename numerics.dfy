/**
 * The parts of Python and numpy arithmetic that the pipeline's decisions depend on:
 * float64 results that can be NaN or +inf, numpy true division, comparisons in which
 * NaN is unordered, floor division, truncating casts and the uint16 wrap-around of
 * `astype(np.uint16)`. Rounding of finite floats is not modelled: finite values are reals.
 */
module Numerics {

  /** A float64 as the optimizer produces it: NaN, +inf, or a finite value. */
  datatype Float64 = NaN | PosInf | Finite(value: real)

  /**
   * numpy's `a / b` for non-negative integers with an np.int64 operand: a zero divisor does not
   * raise but gives +inf, or NaN for 0 / 0.
   */
  function TrueDivide(a: nat, b: nat): (r: Float64)
    ensures r.NaN? <==> a == 0 && b == 0
    ensures r.PosInf? <==> a > 0 && b == 0
    ensures r.Finite? ==> r.value * b as real == a as real
  {
    if b == 0 then (if a == 0 then NaN else PosInf)
    else Finite(a as real / b as real)
  }

  /** Python's `x < y` for a float64 `x`: NaN compares false with everything, +inf is below nothing. */
  predicate LessThan(x: Float64, y: real) {
    match x
    case NaN => false
    case PosInf => false
    case Finite(v) => v < y
  }

  /** Python's `a // b` for a positive divisor, which rounds toward minus infinity. */
  function FloorDiv(a: int, b: int): (q: int)
    requires b > 0
    ensures q * b <= a < q * b + b
  {
    a / b
  }

  /** `int(x // 1)` for a float `x`: the largest integer not above `x`. */
  function FloorToInt(x: real): (r: int)
    ensures r as real <= x < r as real + 1.0
  {
    x.Floor
  }

  /** `astype('int64')` of a float: truncation toward zero. */
  function TruncToInt(x: real): (r: int)
    ensures 0.0 <= x ==> 0 <= r && r as real <= x < r as real + 1.0
    ensures x < 0.0 ==> r <= 0 && r as real - 1.0 < x <= r as real
  {
    if 0.0 <= x then x.Floor else -((-x).Floor)
  }

  /** `astype(np.uint16)` of an integer label: the value modulo 2^16. */
  function ToUint16(x: int): (r: int)
    ensures 0 <= r < 0x1_0000
    ensures (x - r) % 0x1_0000 == 0
    ensures 0 <= x < 0x1_0000 ==> r == x
  {
    x % 0x1_0000
  }
}
