/** Canonical decimal notation, the reference for both adders. */
module Decimals {
  import opened Common

  /** The decimal digits of n as ASCII bytes, without leading zeros. */
  function Decimal(n: nat): seq<byte> {
    if n < 10 then [48 + n] else Decimal(n / 10) + [48 + n % 10]
  }
}
