/** The C conversions between `size_t` and `int`, of 64 and 32 bits. */
module CTypes {
  const INT_MAX := 0x7FFF_FFFF
  const SIZES := 0x1_0000_0000_0000_0000   // the number of values of a size_t

  /** Conversion to `int`; the same wrap-around is used where `int` arithmetic overflows. */
  function ToInt(n: int): int {
    var low := n % 0x1_0000_0000;
    if low <= INT_MAX then low else low - 0x1_0000_0000
  }

  /** Conversion of an `int` to `size_t`. */
  function ToSize(i: int): nat { i % SIZES }
}
