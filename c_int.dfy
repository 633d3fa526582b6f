/**
 * The fixed-width C integers the watch face computes with, and C's integer
 * division and remainder, which round toward zero (Dafny's own `/` and `%`
 * on `int` are Euclidean).
 */
module CInt {

  type uint8 = x: int | 0 <= x < 0x100
  type int16 = x: int | -0x8000 <= x < 0x8000
  type uint32 = x: int | 0 <= x < 0x1_0000_0000

  /** True iff `x` is representable in a 32-bit signed `int`. */
  predicate InInt32(x: int) {
    -0x8000_0000 <= x < 0x8000_0000
  }

  datatype Option<T> = None | Some(value: T)

  /** C's `a / b` for a positive divisor: the exact quotient rounded toward zero. */
  function Div(a: int, b: int): (q: int)
    requires b > 0
    ensures 0 <= a ==> b * q <= a < b * q + b
    ensures a < 0 ==> b * q - b < a <= b * q
  {
    if a >= 0 then a / b else -((-a) / b)
  }

  /** C's `a % b` for a positive divisor: what is left after `Div`, with the sign of `a`. */
  function Rem(a: int, b: int): (r: int)
    requires b > 0
    ensures a == b * Div(a, b) + r
    ensures 0 <= a ==> 0 <= r < b
    ensures a < 0 ==> -b < r <= 0
  {
    a - b * Div(a, b)
  }

  /** On non-negative operands the C operators agree with Dafny's. */
  lemma NonNegativeAgrees(a: int, b: int)
    requires 0 <= a && 0 < b
    ensures Div(a, b) == a / b && Rem(a, b) == a % b
  {
  }
}
