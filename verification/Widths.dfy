/** The ranges of the machine integers whose width matters. */
module Widths {

  const UINT_RANGE := 0x1_0000_0000
  const SIZE_RANGE := 0x1_0000_0000_0000_0000
}
