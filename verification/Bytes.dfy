/** An unsigned char. */
module Bytes {
  type Byte = x: nat | x < 256
}
