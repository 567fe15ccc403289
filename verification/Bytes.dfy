/** Byte strings. */
module Bytes {
  type Byte = b: nat | b < 256
  type Text = seq<Byte>

  /** The little-endian number in `n` bytes from `at`. */
  function LittleEndian(data: Text, at: nat, n: nat): nat
    requires at + n <= |data|
    decreases n
  {
    if n == 0 then 0 else data[at] + 256 * LittleEndian(data, at + 1, n - 1)
  }
}
