/**
 The fixed-width integers of the source, as subset types of `int`, together with
 the arithmetic operations on `int32` that can leave the range and wrap.
 */
module Numbers {

  const INT32_MAX := 0x7fff_ffff
  const INT32_MIN := -0x8000_0000

  type Byte = x: int | 0 <= x < 0x100
  type UInt16 = x: int | 0 <= x < 0x1_0000
  type UInt32 = x: int | 0 <= x < 0x1_0000_0000
  type UInt64 = x: int | 0 <= x < 0x1_0000_0000_0000_0000
  type Int16 = x: int | -0x8000 <= x < 0x8000
  type Int32 = x: int | INT32_MIN <= x <= INT32_MAX

  /** The `int32` that is left of a number when all bits above the lowest 32 are dropped. */
  function Wrap(x: int): Int32 {
    (x - INT32_MIN) % 0x1_0000_0000 + INT32_MIN
  }

  /** `x + 1` on an `int32`: the largest value wraps to the smallest. */
  function Increment(x: Int32): Int32 {
    if x == INT32_MAX then INT32_MIN else x + 1
  }

  /** `-x` on an `int32`: the smallest value is its own negation. */
  function Negate(x: Int32): Int32 {
    if x == INT32_MIN then INT32_MIN else -x
  }
}
