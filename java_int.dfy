/** Java's fixed-width integer arithmetic, written out over unbounded integers:
    two's-complement wrap-around, and division and remainder that truncate toward
    zero. */
module JavaInt {

  const IntMin := -0x8000_0000
  const IntMax := 0x7fff_ffff
  const LongMin := -0x8000_0000_0000_0000
  const LongMax := 0x7fff_ffff_ffff_ffff

  type Int32 = x: int | IntMin <= x <= IntMax
  type Int64 = x: int | LongMin <= x <= LongMax

  /** `x` reduced to 32-bit two's complement. */
  function Wrap32(x: int): (r: Int32)
    ensures IntMin <= x <= IntMax ==> r == x
  {
    (x - IntMin) % 0x1_0000_0000 + IntMin
  }

  /** `x` reduced to 64-bit two's complement. */
  function Wrap64(x: int): (r: Int64)
    ensures LongMin <= x <= LongMax ==> r == x
  {
    (x - LongMin) % 0x1_0000_0000_0000_0000 + LongMin
  }

  function Abs(x: int): nat { if x < 0 then -x else x }

  /** Quotient rounded toward zero, as Java's `/`, before any wrap-around. */
  function TruncDiv(a: int, b: int): int
    requires b != 0
  {
    if (a < 0) == (b < 0) then Abs(a) / Abs(b) else -(Abs(a) / Abs(b))
  }

  /** Remainder with the sign of the dividend, as Java's `%`. */
  function TruncRem(a: int, b: int): int
    requires b != 0
  {
    a - b * TruncDiv(a, b)
  }

  /** On non-negative operands Java's `/` and `%` agree with Dafny's. */
  lemma TruncAgreesOnNonNegative(a: int, b: int)
    requires a >= 0 && b > 0
    ensures TruncDiv(a, b) == a / b && TruncRem(a, b) == a % b
  {
  }

  /** `int * int`, `int - int` and `int / int` in Java. */
  function Mul32(a: Int32, b: Int32): Int32 { Wrap32(a * b) }
  function Sub32(a: Int32, b: Int32): Int32 { Wrap32(a - b) }
  function Div32(a: Int32, b: Int32): Int32
    requires b != 0
  {
    Wrap32(TruncDiv(a, b))
  }
}
