/** A byte as the number it holds, for code that does arithmetic on byte values. */
module Bytes {
  type Byte = x: int | 0 <= x < 256
}
