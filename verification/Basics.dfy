/** Shared vocabulary: the optional value and the machine-word bounds of the source. */
module Basics {

  datatype Option<+T> = None | Some(value: T)

  /** The largest `u64`; the source refuses, never wraps, past it. */
  const U64_MAX: nat := 0xFFFF_FFFF_FFFF_FFFF

  newtype byte = x: int | 0 <= x < 256
}
