/** The fixed-width unsigned integers of the Rust code, as subset types of
    `int`, and the saturating operations the code applies to them. */
module Ints {

  const U16_MAX: int := 0xFFFF
  const U32_MAX: int := 0xFFFF_FFFF
  const U64_MAX: int := 0xFFFF_FFFF_FFFF_FFFF

  type U16 = x: int | 0 <= x <= U16_MAX
  type U32 = x: int | 0 <= x <= U32_MAX
  type U64 = x: int | 0 <= x <= U64_MAX

  /** `u64::saturating_sub`: the difference, or 0 when `b` exceeds `a`. */
  function SaturatingSub(a: U64, b: U64): (r: U64)
    ensures r <= a
    ensures b <= a ==> r + b == a
    ensures a < b ==> r == 0
  {
    if b <= a then a - b else 0
  }

  /** `u32::saturating_add(1)`: the successor, stuck at `u32::MAX`. */
  function SaturatingIncU32(a: U32): (r: U32)
    ensures a < U32_MAX ==> r == a + 1
    ensures a == U32_MAX ==> r == a
  {
    if a < U32_MAX then a + 1 else U32_MAX
  }

  function Min(a: int, b: int): (r: int)
    ensures r <= a && r <= b
    ensures r == a || r == b
  {
    if a <= b then a else b
  }
}
