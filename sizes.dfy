/** Fixed-width unsigned integer types of the kernel (LP64 data model):
    `u8` is `unsigned char`, `u64` is `unsigned long`. Both are modelled as
    ranges of mathematical integers; no operation of the model wraps around,
    and every function that produces one of these types proves its range. */
module Sizes {

  const U8_LIMIT: int := 0x100
  const U64_LIMIT: int := 0x1_0000_0000_0000_0000

  type u8 = x: int | 0 <= x < U8_LIMIT
  type u64 = x: int | 0 <= x < U64_LIMIT
}
