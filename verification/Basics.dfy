/** Small shared vocabulary: optional values, bytes and 64-bit integers. */
module Basics {

  datatype Option<+T> = None | Some(value: T)

  const INT64_MAX: int := 0x7FFF_FFFF_FFFF_FFFF
  const INT64_MIN: int := -0x8000_0000_0000_0000

  type Int64 = x: int | INT64_MIN <= x <= INT64_MAX

  /** `x + 1` in two's complement. */
  function Inc64(x: Int64): Int64 {
    if x == INT64_MAX then INT64_MIN else x + 1
  }

  /** Reduction of an exact result to the 64-bit value the machine keeps. */
  function Wrap64(x: int): Int64 {
    (x - INT64_MIN) % 0x1_0000_0000_0000_0000 + INT64_MIN
  }

  type Byte = x: int | 0 <= x < 256

  function Min(x: int, y: int): int {
    if x <= y then x else y
  }

  function Max(x: int, y: int): int {
    if x <= y then y else x
  }
}
