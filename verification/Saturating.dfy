/** Machine integers of the program and Rust's saturating operations on `u64`. */
module Saturating {
  const U64_MAX: int := 0xFFFF_FFFF_FFFF_FFFF

  type u64 = x: int | 0 <= x <= U64_MAX
  type u32 = x: int | 0 <= x <= 0xFFFF_FFFF
  type u8 = x: int | 0 <= x <= 0xFF

  type Bytes = seq<u8>

  datatype Option<+T> = None | Some(value: T)

  function Min(a: int, b: int): int { if a <= b then a else b }

  function Max(a: int, b: int): int { if a >= b then a else b }

  /** `u64::saturating_add`; the second operand may also stand for a long sum. */
  function SatAdd(a: u64, b: nat): u64 { Min(a + b, U64_MAX) }

  /** `u64::saturating_sub`. */
  function SatSub(a: u64, b: nat): u64 { Max(a - b, 0) }
}
