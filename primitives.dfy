/** Fixed-width unsigned integers of the target (x86_64). */
module Primitives {

  newtype u8 = x: int | 0 <= x < 0x100

  newtype u32 = x: int | 0 <= x < 0x1_0000_0000

  /** `usize` on x86_64 is 64 bits wide. */
  newtype usize = x: int | 0 <= x < 0x1_0000_0000_0000_0000

  /** Rust's `x as usize` for a `u32`: on a 64-bit target it never truncates. */
  function U32ToUsize(x: u32): (r: usize)
    ensures r as int == x as int
  {
    x as int as usize
  }
}
