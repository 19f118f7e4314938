/** Decimal notation of natural numbers, without leading zeros. */
module Decimal {
  const DIGITS := "0123456789"

  function Show(n: nat): (s: string)
    ensures |s| > 0
    ensures forall c | c in s :: c in DIGITS
  {
    if n < 10 then [DIGITS[n]] else Show(n / 10) + [DIGITS[n % 10]]
  }
}
