/** Sizes that several components share. */
module Limits {
  const MAX_TERMINALS := 3
  const MAX_PROCESSES := 6

  const TWO_TO_31 := 0x8000_0000
  const TWO_TO_32 := 0x1_0000_0000
}
