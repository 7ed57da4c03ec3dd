/** The machine's size type. */
module Sizes {

  /** One past the largest size_t. */
  const SIZE_RANGE: nat := 0x1_0000_0000_0000_0000

  type SizeT = n: nat | n < SIZE_RANGE
}
