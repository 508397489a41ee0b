/**
  Numbers of fixed width, and values that may be missing.
 */
module Basics {

  datatype Option<+T> = None | Some(value: T)

  const U32: nat := 0x1_0000_0000

  const U64: nat := 0x1_0000_0000_0000_0000

  type word = n: nat | n < 0x1_0000_0000

  /** A GPU address or another 64-bit value. */
  type qword = n: nat | n < 0x1_0000_0000_0000_0000

  /** lower_32_bits */
  function Lo(a: qword): word { a % 0x1_0000_0000 }

  /** upper_32_bits */
  function Hi(a: qword): word { a / 0x1_0000_0000 }

  function Join(lo: word, hi: word): qword { hi * 0x1_0000_0000 + lo }
}
