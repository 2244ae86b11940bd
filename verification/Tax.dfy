/** Tax on an invoice: cents in, hundredths of a percent, cents out, rounded half up. */
module Tax {

  /** 100 percent, in the hundredths of a percent that a `Decimal(5, 2)` rate holds. */
  const FULL_RATE := 10000

  /** `numerator / denominator` rounded to an integer, ties away from zero. */
  function RoundedQuotient(numerator: int, denominator: int): int
    requires denominator > 0
  {
    if numerator >= 0 then (2 * numerator + denominator) / (2 * denominator)
    else -((-2 * numerator + denominator) / (2 * denominator))
  }

  function CalculateTax(subtotal: int, rate: int): int {
    RoundedQuotient(subtotal * rate, FULL_RATE)
  }

  /**
   The tax is the one whole number of cents within half a cent of the exact product,
   an exact half cent going up.
   */
  lemma TaxIsHalfUp(subtotal: int, rate: int, tax: int)
    requires subtotal >= 0 && rate >= 0
    ensures tax == CalculateTax(subtotal, rate)
       <==> -5000 < FULL_RATE * tax - subtotal * rate <= 5000
  {
    assert subtotal * rate >= 0;
  }

  /** For a legal rate the tax is never negative and never more than what is taxed. */
  lemma TaxWithinSubtotal(subtotal: int, rate: int)
    requires subtotal >= 0 && 0 <= rate <= FULL_RATE
    ensures 0 <= CalculateTax(subtotal, rate) <= subtotal
  {
    assert 0 <= subtotal * rate;
    assert subtotal * rate <= subtotal * FULL_RATE;
  }

  /** A larger subtotal or a higher rate never lowers the tax. */
  lemma TaxMonotone(subtotal: int, rate: int, moreSubtotal: int, moreRate: int)
    requires 0 <= subtotal <= moreSubtotal && 0 <= rate <= moreRate
    ensures CalculateTax(subtotal, rate) <= CalculateTax(moreSubtotal, moreRate)
  {
    var low, high := subtotal * rate, moreSubtotal * moreRate;
    assert low <= moreSubtotal * rate <= high;
    assert (2 * low + FULL_RATE) / (2 * FULL_RATE) <= (2 * high + FULL_RATE) / (2 * FULL_RATE);
  }
}
