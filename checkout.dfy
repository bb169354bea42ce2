/**
 * Checkout pricing (`Stripe/action/index.ts`): the cart total in BGN minor
 * units, its conversion to EUR minor units at the fixed rate, and the
 * amount and metadata handed to the payment gateway.
 * Money is an exact real; the double-precision drift of `unitPrice * qty`
 * is not modelled.
 */
module Checkout {
  import opened Wrappers
  import opened JsNumber

  /** One cart line at checkout. `price` and `promoPrice` may be missing (`null`/`undefined`). */
  datatype LineItem = LineItem(title: string, price: Option<real>, promoPrice: Option<real>, orderQuantity: int)

  /** Leva per euro, the fixed conversion rate. */
  const BGN_PER_EUR: real := 1.95583

  /** `String(BGN_PER_EUR)`. */
  const FX_RATE_TEXT: string := "1.95583"

  /** A truthy promo price: present and not zero. */
  predicate HasPromo(item: LineItem) {
    item.promoPrice.Some? && item.promoPrice.value != 0.0
  }

  /** `item?.promoPrice ? item.promoPrice : item.price || 0`. */
  function UnitPrice(item: LineItem): real {
    if HasPromo(item) then item.promoPrice.value else item.price.GetOr(0.0)
  }

  /** What one line adds to the running total: nothing when its quantity is not positive. */
  function Contribution(item: LineItem): real {
    if item.orderQuantity <= 0 then 0.0 else UnitPrice(item) * item.orderQuantity as real
  }

  /** The running total after the loop, summed from the first line to the last. */
  function LinesTotal(items: seq<LineItem>): real {
    if items == [] then 0.0 else LinesTotal(items[..|items| - 1]) + Contribution(items[|items| - 1])
  }

  /**
   * The amount `calculateTotalAmount` returns: 0 when the lines add up to
   * nothing positive; otherwise the total, multiplied by the discount factor
   * when that is positive, rounded to minor units.
   */
  function TotalAmount(items: seq<LineItem>, discount: real): (amount: int)
    ensures amount >= 0
    ensures LinesTotal(items) <= 0.0 ==> amount == 0
  {
    var total := LinesTotal(items);
    if total <= 0.0 then 0
    else
      var discounted := if discount > 0.0 then total * discount else total;
      assert discounted > 0.0;
      Round(discounted * 100.0)
  }

  /** `calculateTotalAmount`: the accumulator loop, with its early return and in-place discount. */
  method CalculateTotalAmount(items: seq<LineItem>, discount: real) returns (amount: int)
    ensures amount == TotalAmount(items, discount)
  {
    var total := 0.0;
    for i := 0 to |items|
      invariant total == LinesTotal(items[..i])
    {
      assert items[..i + 1][..i] == items[..i];
      var item := items[i];
      if item.orderQuantity <= 0 {
        continue;
      }
      var unitPrice := UnitPrice(item);
      total := total + unitPrice * item.orderQuantity as real;
    }
    assert items[..|items|] == items;
    if total <= 0.0 {
      return 0;
    }
    if discount > 0.0 {
      total := total * discount;
    }
    amount := Round(total * 100.0);
  }

  /** `bgnMinorToEurMinor`. */
  function BgnMinorToEurMinor(bgnMinor: int): (eurMinor: int)
    ensures bgnMinor >= 0 ==> eurMinor >= 0
  {
    Round(bgnMinor as real / BGN_PER_EUR)
  }

  /** A line whose quantity is not positive can be dropped without changing the total. */
  lemma {:induction false} NonPositiveQuantityIgnored(items: seq<LineItem>, k: nat)
    requires k < |items| && items[k].orderQuantity <= 0
    ensures LinesTotal(items[..k] + items[k + 1..]) == LinesTotal(items)
  {
    var rest := items[..k] + items[k + 1..];
    if k == |items| - 1 {
      assert rest == items[..|items| - 1];
    } else {
      var init := items[..|items| - 1];
      NonPositiveQuantityIgnored(init, k);
      assert rest[..|rest| - 1] == init[..k] + init[k + 1..];
      assert rest[|rest| - 1] == items[|items| - 1];
    }
  }

  /** When no line has a positive quantity the lines add up to nothing. */
  lemma {:induction false} NoQualifyingLinesSumToZero(items: seq<LineItem>)
    requires forall i :: 0 <= i < |items| ==> items[i].orderQuantity <= 0
    ensures LinesTotal(items) == 0.0
  {
    if items != [] {
      NoQualifyingLinesSumToZero(items[..|items| - 1]);
    }
  }

  /** A cart whose quantities are all zero or negative costs 0, whatever the discount. */
  lemma NoQualifyingLinesCostNothing(items: seq<LineItem>, discount: real)
    requires forall i :: 0 <= i < |items| ==> items[i].orderQuantity <= 0
    ensures TotalAmount(items, discount) == 0
  {
    NoQualifyingLinesSumToZero(items);
  }

  /** A truthy promo price is the unit price, whether it is above or below the base price. */
  lemma PromoOverridesPrice(item: LineItem)
    requires HasPromo(item)
    ensures UnitPrice(item) == item.promoPrice.value
  {
  }

  /** A zero (or negative) discount factor is the same as no discount. */
  lemma NonPositiveDiscountIsNoDiscount(items: seq<LineItem>, discount: real)
    requires discount <= 0.0
    ensures TotalAmount(items, discount) == TotalAmount(items, 0.0)
  {
  }

  /** A single line without promo price and without discount costs round(P * Q * 100). */
  lemma SingleLineTotal(title: string, p: real, q: int)
    requires p * q as real > 0.0 && q > 0
    ensures TotalAmount([LineItem(title, Some(p), None, q)], 0.0) == Round(p * q as real * 100.0)
  {
    var items := [LineItem(title, Some(p), None, q)];
    assert items[..0] == [];
    assert UnitPrice(items[0]) == p;
    assert LinesTotal(items) == p * q as real;
  }

  /** The factor is a plain multiplier: 0.5 on a 10.00 cart gives 500, and 2 is not clamped. */
  lemma DiscountExamples()
    ensures TotalAmount([LineItem("a", Some(10.0), None, 1)], 0.5) == 500
    ensures TotalAmount([LineItem("a", Some(10.0), None, 1)], 2.0) == 2000
  {
    var items := [LineItem("a", Some(10.0), None, 1)];
    assert items[..0] == [];
  }

  lemma EurExamples()
    ensures BgnMinorToEurMinor(1000) == 511
    ensures BgnMinorToEurMinor(2000) == 1023
  {
    assert 511.0 <= 1000.0 / BGN_PER_EUR + 0.5 < 512.0;
    assert 1023.0 <= 2000.0 / BGN_PER_EUR + 0.5 < 1024.0;
  }

  /** Ten leva twice over: 2000 BGN minor units, 1023 EUR minor units (2000 / 1.95583 = 1022.58...). */
  lemma CheckoutExample()
    ensures TotalAmount([LineItem("x", Some(10.0), None, 2)], 0.0) == 2000
    ensures BgnMinorToEurMinor(TotalAmount([LineItem("x", Some(10.0), None, 2)], 0.0)) == 1023
  {
    var items := [LineItem("x", Some(10.0), None, 2)];
    assert items[..0] == [];
    EurExamples();
  }

  lemma EurMonotone(a: int, b: int)
    requires a <= b
    ensures BgnMinorToEurMinor(a) <= BgnMinorToEurMinor(b)
  {
    RoundMonotone(a as real / BGN_PER_EUR, b as real / BGN_PER_EUR);
  }

  /** One `{ title, orderQuantity }` entry of the metadata product list. */
  datatype ProductEntry = ProductEntry(title: string, orderQuantity: int)

  datatype Metadata = Metadata(products: seq<ProductEntry>, amountBgnMinor: string, fxRateBgnPerEur: string)

  /** What is passed to the gateway's create-payment-intent call. */
  datatype PaymentIntentRequest = PaymentIntentRequest(
    amount: int, currency: string, automaticPaymentMethods: bool, metadata: Metadata)

  /** `products.map(({ title, orderQuantity }) => ({ title, orderQuantity }))`: every line, unfiltered. */
  function ProductsMetadata(items: seq<LineItem>): (entries: seq<ProductEntry>)
    ensures |entries| == |items|
    ensures forall i :: 0 <= i < |items| ==>
      entries[i].title == items[i].title && entries[i].orderQuantity == items[i].orderQuantity
  {
    seq(|items|, i requires 0 <= i < |items| => ProductEntry(items[i].title, items[i].orderQuantity))
  }

  /** `String((amount / 100).toFixed(2)) + ' BGN'`. */
  function AmountBgnText(amount: int): string {
    ToFixed2(amount as real / 100.0) + " BGN"
  }

  /** For a non-negative amount the text is the amount in leva with two decimals, and reads back to it. */
  lemma AmountBgnTextReadsBack(amount: nat)
    ensures AmountBgnText(amount) == FormatHundredths(amount) + " BGN"
    ensures ParseHundredths(FormatHundredths(amount)) == amount
  {
    assert amount as real / 100.0 * 100.0 == amount as real;
    assert Round(amount as real) == amount;
    FormatHundredthsRoundTrip(amount);
  }

  /**
   * The amount and metadata `createPaymentIntentAction` sends: the cart total
   * converted to EUR minor units, the currency, automatic payment methods,
   * and the metadata. The gateway call itself is not modelled.
   */
  method CreatePaymentIntentRequest(products: seq<LineItem>, discount: real) returns (req: PaymentIntentRequest)
    ensures req.amount == BgnMinorToEurMinor(TotalAmount(products, discount)) && req.amount >= 0
    ensures req.currency == "eur" && req.automaticPaymentMethods
    ensures |req.metadata.products| == |products|
    ensures forall i :: 0 <= i < |products| ==>
      req.metadata.products[i] == ProductEntry(products[i].title, products[i].orderQuantity)
    ensures req.metadata.amountBgnMinor == FormatHundredths(TotalAmount(products, discount)) + " BGN"
    ensures req.metadata.fxRateBgnPerEur == FX_RATE_TEXT
  {
    var amount := CalculateTotalAmount(products, discount);
    var amountEur := BgnMinorToEurMinor(amount);
    AmountBgnTextReadsBack(amount);
    req := PaymentIntentRequest(
      amountEur, "eur", true,
      Metadata(ProductsMetadata(products), AmountBgnText(amount), FX_RATE_TEXT));
  }
}
