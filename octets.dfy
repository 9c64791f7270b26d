/** Bytes as Python's `bytes` holds them: values 0 to 255. */
module Octets {

  newtype byte = x: int | 0 <= x < 256

  type Bytes = seq<byte>
}
