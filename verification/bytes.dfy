/** Go's `byte`: an unsigned 8-bit integer. */
module Bytes {

  newtype Byte = b: int | 0 <= b < 256
}
