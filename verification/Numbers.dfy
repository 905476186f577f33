/** Fixed-width integers as bounded numbers; arithmetic on them is checked where the program checks it. */
module Numbers {
  const U16_MAX := 0xFFFF
  const U32_MAX := 0xFFFF_FFFF
  const U64_MAX := 0xFFFF_FFFF_FFFF_FFFF
  const U128_MAX := 0xFFFF_FFFF_FFFF_FFFF_FFFF_FFFF_FFFF_FFFF

  type U16 = n: nat | n <= U16_MAX
  type U32 = n: nat | n <= U32_MAX
  type U64 = n: nat | n <= U64_MAX

  const I64_MAX := 0x7FFF_FFFF_FFFF_FFFF
  type I64 = n: int | -I64_MAX - 1 <= n <= I64_MAX

  /** Number of pieces of at most `size` that hold `n` units. */
  function DivCeil(n: nat, size: nat): nat
    requires size > 0
  {
    (n + size - 1) / size
  }
}
