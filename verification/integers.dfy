/** The fixed-width unsigned integer types the on-ledger program stores its counters in. */
module Integers {
  newtype u8 = x: int | 0 <= x < 0x100
  newtype u32 = x: int | 0 <= x < 0x1_0000_0000
  newtype u64 = x: int | 0 <= x < 0x1_0000_0000_0000_0000

  /** The largest value of each type: `checked_add(1)` on it yields `None`. */
  const U8_MAX: u8 := 0xFF
  const U32_MAX: u32 := 0xFFFF_FFFF
  const U64_MAX: u64 := 0xFFFF_FFFF_FFFF_FFFF
}
