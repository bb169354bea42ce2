/**
 * The BGN to EUR display conversion (`utils/calculatePriceFromLvToEuro.ts`):
 * the price divided by the fixed rate, written with two decimals.
 */
module PriceToEuro {
  import opened JsNumber
  import Checkout

  /** The rate the helper divides by; it is the checkout's rate. */
  const BASE: real := 1.95583

  /** The euro value in hundredths, rounded as `toFixed(2)` rounds a non-negative number. */
  function EuroHundredths(price: real): int {
    Round(price / BASE * 100.0)
  }

  /** `priceToEuro`: `(price / 1.95583).toFixed(2)`. */
  function PriceToEuro(price: real): (text: string)
    ensures price >= 0.0 ==> EuroHundredths(price) >= 0 && text == FormatHundredths(EuroHundredths(price))
  {
    ToFixed2(price / BASE)
  }

  /** The display rate and the checkout rate are the same number. */
  lemma SameRateAsCheckout()
    ensures BASE == Checkout.BGN_PER_EUR
  {
  }

  /** A non-negative price is written as digits, a point and exactly two digits, which read back to its euro hundredths. */
  lemma TwoFractionalDigits(price: real)
    requires price >= 0.0
    ensures var text := PriceToEuro(price);
      && text[|text| - 3] == '.'
      && ParseHundredths(text) == EuroHundredths(price)
  {
    FormatHundredthsRoundTrip(EuroHundredths(price));
  }

  lemma ZeroPrice()
    ensures PriceToEuro(0.0) == "0.00"
  {
    assert EuroHundredths(0.0) == 0;
  }

  /** A larger price never shows a smaller euro amount. */
  lemma Monotone(p: real, q: real)
    requires p <= q
    ensures EuroHundredths(p) <= EuroHundredths(q)
  {
    assert p / BASE * 100.0 <= q / BASE * 100.0;
    RoundMonotone(p / BASE * 100.0, q / BASE * 100.0);
  }
}
