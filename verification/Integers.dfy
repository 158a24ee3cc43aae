/** The machine integers of the program. */
module Integers {
  const TWO_TO_16 := 0x1_0000
  const TWO_TO_32 := 0x1_0000_0000
  const TWO_TO_63 := 0x8000_0000_0000_0000
  const TWO_TO_64 := 0x1_0000_0000_0000_0000

  type uint16 = x: int | 0 <= x < TWO_TO_16
  type uint64 = x: int | 0 <= x < TWO_TO_64
  type int64 = x: int | -TWO_TO_63 <= x < TWO_TO_63
}
