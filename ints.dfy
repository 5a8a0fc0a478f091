/** Fixed-width unsigned integers of the source, as subsets of `int`. */
module Ints {

  newtype u16 = x: int | 0 <= x < 0x1_0000
  newtype u32 = x: int | 0 <= x < 0x1_0000_0000

  const U16Max: u16 := 0xFFFF

  /** `std::cmp::min` on u16 */
  function Min(a: u16, b: u16): u16 {
    if a <= b then a else b
  }

  /** `std::cmp::max` on u16 */
  function Max(a: u16, b: u16): u16 {
    if a >= b then a else b
  }

  function MinNat(a: nat, b: nat): nat {
    if a <= b then a else b
  }
}
