/** The C `int` type of the detector: 32-bit two's complement, where signed
    overflow is undefined behaviour and therefore never allowed to happen. */
module CInt {
  const INT32_MIN: int := -0x8000_0000
  const INT32_MAX: int := 0x7fff_ffff

  newtype int32 = n: int | -0x8000_0000 <= n < 0x8000_0000

  /** True when the mathematical value `n` is representable as a C `int`. */
  predicate FitsInt32(n: int) {
    INT32_MIN <= n <= INT32_MAX
  }
}
