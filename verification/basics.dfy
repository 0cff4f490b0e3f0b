/** Value types the library borrows from the Swift standard library. */
module Basics {

  /** Swift's `Optional`: a missing value (`nil`) or a present one. */
  datatype Option<+T> = None | Some(value: T)

  /** Bounds of Swift's `Int`, which is 64 bits wide on every platform the library targets. */
  const IntMin: int := -0x8000_0000_0000_0000
  const IntMax: int := 0x7FFF_FFFF_FFFF_FFFF

  /** A value of Swift's `Int`. */
  type Int = x: int | IntMin <= x <= IntMax
}
