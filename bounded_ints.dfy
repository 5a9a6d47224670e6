/** The fixed-width integer types the two programs compute with. */
module BoundedInts {

  const U64_MAX: int := 0xFFFF_FFFF_FFFF_FFFF
  const I16_MAX: int := 32767
  const I16_MIN: int := -32768

  type uint8 = x: int | 0 <= x < 0x100
  type int16 = x: int | I16_MIN <= x <= I16_MAX
  type uint64 = x: int | 0 <= x <= U64_MAX

  /** Rust's `u64::wrapping_add`: the sum modulo 2^64. */
  function WrappingAdd(a: uint64, b: uint64): (r: uint64)
    ensures r == (a + b) % (U64_MAX + 1)
  {
    if a + b <= U64_MAX then a + b else a + b - (U64_MAX + 1)
  }
}
