/** The largest values of the unsigned integers of the source that wrap or are used as markers. */
module Widths {
  const U32_MAX: nat := 0xFFFF_FFFF

  const USIZE_MAX: nat := 0xFFFF_FFFF_FFFF_FFFF
}
