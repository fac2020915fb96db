/** What several components share: optional values, bytes, and C's 32-bit integers. */
module Words {
  datatype Option<+T> = None | Some(value: T)

  type Byte = b: nat | b < 256

  const WORD := 0x1_0000_0000

  /** C's conversion of an integer to int. */
  function ToInt32(x: int): (r: int)
    ensures -0x8000_0000 <= r < 0x8000_0000
    ensures -0x8000_0000 <= x < 0x8000_0000 ==> r == x
  {
    (x + 0x8000_0000) % WORD - 0x8000_0000
  }
}
