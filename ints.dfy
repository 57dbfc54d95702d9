/**
 * Fixed-width integers of the source, as ranges of `int`, with the
 * wrap-around of Rust's `as` casts and of release-build arithmetic written out.
 */
module Ints {
  type I8 = x: int | -0x80 <= x < 0x80
  type I32 = x: int | -0x8000_0000 <= x < 0x8000_0000
  type U32 = x: int | 0 <= x < 0x1_0000_0000
  type Usize = x: int | 0 <= x < 0x1_0000_0000_0000_0000

  /** `x as i8`: the one value in range that agrees with `x` modulo 256. */
  function AsI8(x: int): (r: I8)
    ensures (r - x) % 0x100 == 0
    ensures -0x80 <= x < 0x80 ==> r == x
  {
    (x + 0x80) % 0x100 - 0x80
  }

  /** `u32` arithmetic that wraps: the one value in range that agrees with `x` modulo 2^32. */
  function WrapU32(x: int): (r: U32)
    ensures (r - x) % 0x1_0000_0000 == 0
    ensures 0 <= x < 0x1_0000_0000 ==> r == x
  {
    x % 0x1_0000_0000
  }

  /** `usize` arithmetic that wraps, for a 64-bit target. */
  function WrapUsize(x: int): (r: Usize)
    ensures (r - x) % 0x1_0000_0000_0000_0000 == 0
    ensures 0 <= x < 0x1_0000_0000_0000_0000 ==> r == x
  {
    x % 0x1_0000_0000_0000_0000
  }

  lemma AsI8Samples()
    ensures AsI8(200) == -56 && AsI8(-129) == 127 && AsI8(256) == 0 && AsI8(-1) == -1
  {
  }
}
