/** Octets, integer widths and small arithmetic shared by the models. */
module Bytes {

  type byte = b: nat | b < 256

  const TWO_32: nat := 0x1_0000_0000
  const TWO_64: nat := 0x1_0000_0000_0000_0000

  function Min(a: nat, b: nat): nat { if a < b then a else b }
}
