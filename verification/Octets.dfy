/** Byte strings. */
module Octets {
  newtype byte = x: int | 0 <= x < 0x100

  type Bytes = seq<byte>
}
