/** Plans: the discounted price, what an order for a plan costs, and the slug a new plan gets. */
module Plans {
  import opened Options
  import opened Text
  import opened Money

  // ---- prices ----

  /** `factor` is the discount in thousandths of a percent, rounded; nothing stops it at 100 percent. */
  function PriceMinor(price: int, factor: int): int {
    if factor <= 0 then price else Quotient(price * (FULL - factor), FULL)
  }

  /** What is stored with an order. */
  datatype Priced = Priced(unitPrice: int, discountAmount: int, totalAmount: int)

  function Price(price: int, factor: int, quantity: nat): Priced {
    var unitPrice := PriceMinor(price, factor);
    Priced(unitPrice, price - unitPrice, unitPrice * quantity)
  }

  /** The discount does not exceed the price by a whole minor unit. */
  predicate NotOverdiscounted(price: nat, factor: int) {
    factor <= FULL || price * (factor - FULL) < FULL
  }

  /** The exact share of the price that is left, before rounding, in units of 1/FULL. */
  function Share(price: nat, factor: int): int {
    price * (FULL - (if factor <= 0 then 0 else factor))
  }

  /** The price is the exact share rounded down, unless the discount exceeds 100 percent: then it
      is rounded up, towards zero. */
  lemma PriceIsRoundedShare(price: nat, factor: int)
    ensures factor <= FULL ==>
      PriceMinor(price, factor) * FULL <= Share(price, factor) < (PriceMinor(price, factor) + 1) * FULL
    ensures factor > FULL ==>
      (PriceMinor(price, factor) - 1) * FULL < Share(price, factor) <= PriceMinor(price, factor) * FULL
    ensures factor <= FULL ==> Share(price, factor) >= 0
    ensures factor > FULL ==> Share(price, factor) == -(price * (factor - FULL)) <= 0
  {
    if factor <= 0 {
      ProductGrows(0, price, FULL);
    } else if factor <= FULL {
      ProductGrows(0, price, FULL - factor);
    } else {
      ProductGrows(0, price, factor - FULL);
      Opposite(price, FULL - factor);
    }
  }

  lemma Opposite(a: int, b: int)
    ensures a * b == -(a * -b)
  {
  }

  /** The two discount functions agree exactly on the discounts that do not exceed the price. */
  lemma DiscountsAgreeIff(price: nat, factor: int)
    ensures ApplyDiscount(price, factor) == PriceMinor(price, factor) <==> NotOverdiscounted(price, factor)
  {
    PriceIsRoundedShare(price, factor);
  }

  /** The same discounts are the ones for which the price is between zero and the list price. */
  lemma PriceIsBoundedIff(price: nat, factor: int)
    ensures 0 <= PriceMinor(price, factor) <= price <==> NotOverdiscounted(price, factor)
    ensures 0 <= ApplyDiscount(price, factor) <= price
  {
    PriceIsRoundedShare(price, factor);
    if 0 < factor <= FULL {
      ShareIsAtMost(price, factor);
    }
  }

  lemma ShareIsAtMost(price: nat, factor: nat)
    ensures price * (FULL - factor) <= price * FULL
  {
    ProductGrows(0, factor, price);
    assert price * (FULL - factor) == price * FULL - price * factor;
  }

  /** A dearer plan costs no less and a larger discount costs no more. */
  lemma PriceIsMonotone(price: nat, dearer: nat, factor: int, larger: int)
    requires price <= dearer && factor <= larger
    ensures factor <= FULL ==> PriceMinor(price, factor) <= PriceMinor(dearer, factor)
    ensures PriceMinor(price, larger) <= PriceMinor(price, factor)
  {
    PriceIsRoundedShare(price, factor);
    PriceIsRoundedShare(dearer, factor);
    PriceIsRoundedShare(price, larger);
    var kept := FULL - (if factor <= 0 then 0 else factor);
    var less := FULL - (if larger <= 0 then 0 else larger);
    if factor <= FULL {
      ProductGrows(price, dearer, kept);
    }
    ProductGrows(less, kept, price);
    assert Share(price, larger) <= Share(price, factor);
  }

  /** Unit price and discount make up the list price; the total and the discounts make up the
      undiscounted sum; and rounding each unit loses less than one minor unit a piece. */
  lemma OrderAddsUp(price: nat, factor: int, quantity: nat)
    ensures var order := Price(price, factor, quantity);
            && order.unitPrice + order.discountAmount == price
            && order.totalAmount + quantity * order.discountAmount == quantity * price
            && (factor <= FULL && quantity > 0 ==>
                order.totalAmount * FULL <= Share(price * quantity, factor) < (order.totalAmount + quantity) * FULL)
  {
    var order := Price(price, factor, quantity);
    assert quantity * price == quantity * order.unitPrice + quantity * order.discountAmount;
    if factor <= FULL && quantity > 0 {
      PriceIsRoundedShare(price, factor);
      Times(order.unitPrice, Share(price, factor), quantity);
      ShareTimes(price, factor, quantity);
    }
  }

  lemma Times(unit: int, share: int, quantity: nat)
    requires unit * FULL <= share < (unit + 1) * FULL && quantity > 0
    ensures unit * quantity * FULL <= share * quantity < (unit * quantity + quantity) * FULL
  {
    ProductGrows(unit * FULL, share, quantity);
    ProductGrows(share + 1, (unit + 1) * FULL, quantity);
  }

  lemma ShareTimes(price: nat, factor: int, quantity: nat)
    ensures price * quantity >= 0 && Share(price * quantity, factor) == Share(price, factor) * quantity
  {
    ProductGrows(0, price, quantity);
    Rearranged(price, FULL - (if factor <= 0 then 0 else factor), quantity);
  }

  lemma Rearranged(a: int, b: int, c: int)
    ensures a * c * b == a * b * c
  {
  }

  lemma SignOfProduct(a: int, n: nat)
    requires n > 0
    ensures a * n < 0 <==> a < 0
  {
    if a < 0 {
      ProductGrows(a, -1, n);
    } else {
      ProductGrows(0, a, n);
    }
  }

  lemma PriceIsNegativeIff(price: nat, factor: int)
    ensures PriceMinor(price, factor) < 0 <==> !NotOverdiscounted(price, factor)
  {
    PriceIsRoundedShare(price, factor);
  }

  /** A payment is initiated with the digits of the printed total: that is the total exactly when
      the discount does not exceed the price, or nothing is ordered. */
  lemma PaymentIsOrderTotalIff(price: nat, factor: int, quantity: nat)
    ensures var total := Price(price, factor, quantity).totalAmount;
            Amount(FromMinor(total, 2)) == total <==> NotOverdiscounted(price, factor) || quantity == 0
  {
    AmountIsKeptIff(Price(price, factor, quantity).totalAmount);
    TotalIsNegativeIff(price, factor, quantity);
  }

  lemma TotalIsNegativeIff(price: nat, factor: int, quantity: nat)
    ensures Price(price, factor, quantity).totalAmount < 0 <==> !NotOverdiscounted(price, factor) && quantity > 0
  {
    PriceIsNegativeIff(price, factor);
    if quantity > 0 {
      SignOfProduct(PriceMinor(price, factor), quantity);
    }
  }

  lemma AmountIsKeptIff(total: int)
    ensures Amount(FromMinor(total, 2)) == total <==> total >= 0
  {
    AmountOfPrinted(total, 2);
  }
}
