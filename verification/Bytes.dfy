/** Bytes as the proxy moves them around. */
module Bytes {

  newtype Byte = x: int | 0 <= x < 256

  function Min(a: nat, b: nat): nat {
    if a < b then a else b
  }

  /** A byte as a number. */
  function Value(b: Byte): (n: nat)
    ensures n < 256 && (n == 0 <==> b == 0)
  {
    b as nat
  }
}
