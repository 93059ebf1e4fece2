/** Byte strings. */
module Bytes {

  type Byte = x: int | 0 <= x < 256 witness 0

  type Bytes = seq<Byte>

}
