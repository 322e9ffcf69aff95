/** Bytes, 16-bit words and monotone products, shared by the models. */
module Arithmetic {

  newtype Byte = x: int | 0 <= x < 256

  const U16: nat := 0x1_0000

  lemma MulMono(x: int, y: int, a: int)
    requires x <= y && a >= 0
    ensures x * a <= y * a
  {
  }
}
