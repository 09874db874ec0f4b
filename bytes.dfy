/** Octets, as Rust's `u8`. */
module Bytes {
  type Byte = x: int | 0 <= x < 256
}
