/** Raw bytes, as account data and keys store them. */
module Bytes {

  /** An unsigned 8-bit value. */
  newtype Byte = b: int | 0 <= b < 256
}
