/** Decimal numerals, as printed into control sequences and read back out of them. */
module Decimal {
  import opened Base

  predicate IsDigit(b: Byte) {
    0x30 <= b <= 0x39
  }

  function Digits(n: nat): (d: seq<Byte>)
    ensures |d| > 0
    ensures forall i :: 0 <= i < |d| ==> IsDigit(d[i])
  {
    if n < 10 then [0x30 + n] else Digits(n / 10) + [0x30 + n % 10]
  }
}
