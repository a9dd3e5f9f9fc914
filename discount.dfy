/**
 * The price-breakdown computation `calculateDiscount`
 * (src/utils/calculations.js, lines 11-59), over exact real arithmetic.
 */
module Discount {
  import opened Wrappers
  import opened DiscountTypes

  /**
   * The relations that hold between the six fields of every breakdown
   * the calculator hands out.
   */
  predicate Consistent(d: DiscountResult) {
    && d.originalPrice > 0.0
    && 0.0 <= d.discountAmount <= d.originalPrice
    && d.finalPrice == d.originalPrice - d.discountAmount
    && 0.0 <= d.taxAmount
    && d.totalWithTax == d.finalPrice + d.taxAmount
    && 0.0 <= d.savingsPercentage <= 100.0
    && d.savingsPercentage * d.originalPrice == d.discountAmount * 100.0
  }

  // Facts about shares and ratios of amounts, stated once for the proofs below.

  lemma ProductNonnegative(x: real, y: real)
    requires x >= 0.0 && y >= 0.0
    ensures x * y >= 0.0
  {
  }

  lemma ProductPositive(x: real, y: real)
    requires x > 0.0 && y > 0.0
    ensures x * y > 0.0
  {
  }

  /** A percentage between 0 and 100 of an amount lies between 0 and that amount. */
  lemma ShareWithin(total: real, pct: real)
    requires total >= 0.0 && 0.0 <= pct <= 100.0
    ensures 0.0 <= total * pct / 100.0 <= total
  {
  }

  /** More than 100 percent of a positive amount exceeds it. */
  lemma ShareBeyond(total: real, pct: real)
    requires total > 0.0 && pct > 100.0
    ensures total * pct / 100.0 > total
  {
  }

  /** A negative percentage of a positive amount is negative. */
  lemma ShareNegative(total: real, pct: real)
    requires total > 0.0 && pct < 0.0
    ensures total * pct / 100.0 < 0.0
  {
  }

  /** Shares of one amount are ordered as their percentages. */
  lemma ShareOrdered(total: real, smaller: real, larger: real)
    requires total >= 0.0 && smaller <= larger
    ensures total * smaller / 100.0 <= total * larger / 100.0
  {
  }

  /** Shares of one positive amount for percentages up to 100 are ordered as the percentages and lie within the amount. */
  lemma SharesOrdered(total: real, smaller: real, larger: real, low: real, high: real)
    requires total > 0.0 && 0.0 <= smaller <= larger <= 100.0
    requires low == total * smaller / 100.0 && high == total * larger / 100.0
    ensures 0.0 <= low <= high <= total
  {
    ShareWithin(total, larger);
    ShareOrdered(total, smaller, larger);
  }

  /** A part of a positive whole is between 0 and 100 percent of it. */
  lemma RatioOfPart(part: real, whole: real)
    requires whole > 0.0 && 0.0 <= part <= whole
    ensures (part / whole) * 100.0 * whole == part * 100.0
    ensures 0.0 <= (part / whole) * 100.0 <= 100.0
  {
  }

  /** Ratios over one positive whole are ordered as their parts. */
  lemma RatioOrdered(smaller: real, larger: real, whole: real)
    requires whole > 0.0 && smaller <= larger
    ensures (smaller / whole) * 100.0 <= (larger / whole) * 100.0
  {
  }

  /** Taking a share of an amount and expressing it as a ratio of that amount gives the percentage back. */
  lemma RatioOfShare(total: real, pct: real)
    requires total > 0.0
    ensures ((total * pct / 100.0) / total) * 100.0 == pct
  {
  }

  /**
   * Lines 46-58: the fields derived from the subtotal and the discount
   * amount once the inputs are accepted.
   */
  function Breakdown(total: real, discountAmount: real, taxRate: real, includeTax: bool): (d: DiscountResult)
    requires total > 0.0 && 0.0 <= discountAmount <= total && taxRate >= 0.0
    ensures Consistent(d)
    ensures d.originalPrice == total && d.discountAmount == discountAmount
    ensures 0.0 <= d.finalPrice <= total
    ensures includeTax ==> d.taxAmount == d.finalPrice * taxRate / 100.0
    ensures !includeTax ==> d.taxAmount == 0.0 && d.totalWithTax == d.finalPrice
  {
    var finalPrice := total - discountAmount;
    var taxAmount := if includeTax then (finalPrice * taxRate) / 100.0 else 0.0;
    var savings := (discountAmount / total) * 100.0;
    RatioOfPart(discountAmount, total);
    ProductNonnegative(finalPrice, taxRate);
    DiscountResult(total, discountAmount, finalPrice, taxAmount, finalPrice + taxAmount, savings)
  }

  /**
   * Lines 33-58 once the common checks have passed: the type-dependent
   * checks and the breakdown of a positive subtotal.
   */
  function ApplyDiscount(total: real, discountType: DiscountType, discountValue: real, taxRate: real, includeTax: bool): (r: Option<DiscountResult>)
    requires total > 0.0 && discountValue >= 0.0 && taxRate >= 0.0
    // lines 36-44: the rejections that depend on the discount type
    ensures match discountType
      case Percentage => r.None? <==> discountValue > 100.0
      case Fixed => r.None? <==> discountValue > total
      case Other(_) => r.None?
    ensures r.Some? ==> Consistent(r.value) && r.value.originalPrice == total
    ensures r.Some? && !includeTax ==> r.value.taxAmount == 0.0 && r.value.totalWithTax == r.value.finalPrice
    ensures r.Some? && includeTax ==> r.value.taxAmount == r.value.finalPrice * taxRate / 100.0
  {
    match discountType
    case Percentage =>
      if discountValue > 100.0 then None
      else
        ShareWithin(total, discountValue);
        Some(Breakdown(total, (total * discountValue) / 100.0, taxRate, includeTax))
    case Fixed =>
      if discountValue > total then None
      else Some(Breakdown(total, discountValue, taxRate, includeTax))
    case Other(_) => None
  }

  /**
   * `calculateDiscount`: `None` plays the part of the source's `null`.
   * The `typeof` checks of lines 21-24 always pass for `real` arguments.
   */
  function CalculateDiscount(
    originalPrice: real, discountType: DiscountType, discountValue: real,
    quantity: real, taxRate: real, includeTax: bool): (r: Option<DiscountResult>)
    // lines 20-31: the common rejections
    ensures originalPrice <= 0.0 || quantity <= 0.0 || discountValue < 0.0 || taxRate < 0.0 ==> r == None
    // lines 36-44: the rejections that depend on the discount type
    ensures originalPrice > 0.0 && quantity > 0.0 && discountValue >= 0.0 && taxRate >= 0.0 ==>
      match discountType
      case Percentage => r.None? <==> discountValue > 100.0
      case Fixed => r.None? <==> discountValue > originalPrice * quantity
      case Other(_) => r.None?
    // lines 33-49: what an accepted calculation returns
    ensures r.Some? ==> Consistent(r.value)
    ensures r.Some? ==> r.value.originalPrice == originalPrice * quantity
    ensures r.Some? ==> 0.0 <= r.value.finalPrice <= r.value.originalPrice
    ensures r.Some? && !includeTax ==> r.value.taxAmount == 0.0 && r.value.totalWithTax == r.value.finalPrice
    ensures r.Some? && includeTax ==> r.value.taxAmount == r.value.finalPrice * taxRate / 100.0
    ensures r.Some? ==> r.value.finalPrice <= r.value.totalWithTax
  {
    if originalPrice <= 0.0 || quantity <= 0.0 || discountValue < 0.0 || taxRate < 0.0 then
      None
    else
      var total := originalPrice * quantity;
      ProductPositive(originalPrice, quantity);
      ApplyDiscount(total, discountType, discountValue, taxRate, includeTax)
  }

  /** `ApplyDiscount` with a percentage removes that share of the subtotal and reports that percentage as savings. */
  lemma PercentageOfSubtotal(total: real, discountValue: real, taxRate: real, includeTax: bool)
    requires total > 0.0 && 0.0 <= discountValue <= 100.0 && taxRate >= 0.0
    ensures var d := ApplyDiscount(total, Percentage, discountValue, taxRate, includeTax).value;
      && d.discountAmount == total * discountValue / 100.0
      && d.finalPrice == total * (1.0 - discountValue / 100.0)
      && d.savingsPercentage == discountValue
  {
    RatioOfShare(total, discountValue);
  }

  /**
   * A percentage discount removes that share of the subtotal, and the
   * reported savings percentage is exactly the percentage asked for.
   */
  lemma PercentageBreakdown(originalPrice: real, discountValue: real, quantity: real, taxRate: real, includeTax: bool)
    requires CalculateDiscount(originalPrice, Percentage, discountValue, quantity, taxRate, includeTax).Some?
    ensures var d := CalculateDiscount(originalPrice, Percentage, discountValue, quantity, taxRate, includeTax).value;
      && d.discountAmount == d.originalPrice * discountValue / 100.0
      && d.finalPrice == d.originalPrice * (1.0 - discountValue / 100.0)
      && d.savingsPercentage == discountValue
  {
    ProductPositive(originalPrice, quantity);
    PercentageOfSubtotal(originalPrice * quantity, discountValue, taxRate, includeTax);
  }

  /** A fixed discount removes exactly the amount asked for. */
  lemma FixedBreakdown(originalPrice: real, discountValue: real, quantity: real, taxRate: real, includeTax: bool)
    requires CalculateDiscount(originalPrice, Fixed, discountValue, quantity, taxRate, includeTax).Some?
    ensures var d := CalculateDiscount(originalPrice, Fixed, discountValue, quantity, taxRate, includeTax).value;
      && d.discountAmount == discountValue
      && d.finalPrice == originalPrice * quantity - discountValue
  {
  }

  /** A fixed discount larger than a positive subtotal is rejected. */
  lemma FixedBeyondSubtotal(total: real, amount: real, taxRate: real, includeTax: bool)
    requires total > 0.0 && amount > total && taxRate >= 0.0
    ensures ApplyDiscount(total, Fixed, amount, taxRate, includeTax).None?
  {
  }

  /** Above 100 percent, both a percentage and the fixed discount of that share of the subtotal are rejected. */
  lemma ShareBeyondSubtotal(total: real, discountValue: real, taxRate: real, includeTax: bool)
    requires total > 0.0 && discountValue > 100.0 && taxRate >= 0.0
    ensures total * discountValue / 100.0 > total
    ensures ApplyDiscount(total, Percentage, discountValue, taxRate, includeTax).None?
    ensures ApplyDiscount(total, Fixed, total * discountValue / 100.0, taxRate, includeTax).None?
  {
    ShareBeyond(total, discountValue);
    FixedBeyondSubtotal(total, total * discountValue / 100.0, taxRate, includeTax);
  }

  /** Up to 100 percent, a percentage and the fixed discount of that share of the subtotal agree. */
  lemma ShareWithinSubtotal(total: real, discountValue: real, taxRate: real, includeTax: bool)
    requires total > 0.0 && 0.0 <= discountValue <= 100.0 && taxRate >= 0.0
    ensures 0.0 <= total * discountValue / 100.0 <= total
    ensures ApplyDiscount(total, Percentage, discountValue, taxRate, includeTax)
         == ApplyDiscount(total, Fixed, total * discountValue / 100.0, taxRate, includeTax)
  {
    ShareWithin(total, discountValue);
  }

  /** On a positive subtotal, a percentage discount is the fixed discount of that share. */
  lemma PercentageIsFixedShareOfSubtotal(total: real, discountValue: real, share: real, taxRate: real, includeTax: bool)
    requires total > 0.0 && discountValue >= 0.0 && taxRate >= 0.0
    requires share == total * discountValue / 100.0
    ensures share >= 0.0
    ensures ApplyDiscount(total, Percentage, discountValue, taxRate, includeTax)
         == ApplyDiscount(total, Fixed, share, taxRate, includeTax)
  {
    if discountValue > 100.0 {
      ShareBeyondSubtotal(total, discountValue, taxRate, includeTax);
    } else {
      ShareWithinSubtotal(total, discountValue, taxRate, includeTax);
    }
  }

  /**
   * For every input, a percentage discount behaves exactly like a fixed
   * discount of that share of the subtotal: same acceptance, same breakdown.
   */
  lemma PercentageIsFixedShare(originalPrice: real, discountValue: real, quantity: real, taxRate: real, includeTax: bool)
    ensures CalculateDiscount(originalPrice, Percentage, discountValue, quantity, taxRate, includeTax)
         == CalculateDiscount(originalPrice, Fixed, originalPrice * quantity * discountValue / 100.0, quantity, taxRate, includeTax)
  {
    if originalPrice > 0.0 && quantity > 0.0 && taxRate >= 0.0 {
      ProductPositive(originalPrice, quantity);
      if discountValue < 0.0 {
        ShareNegative(originalPrice * quantity, discountValue);
      } else {
        AcceptedPercentageIsFixedShare(originalPrice, discountValue, quantity, taxRate, includeTax);
      }
    }
  }

  /** `PercentageIsFixedShare` once the common checks have passed. */
  lemma AcceptedPercentageIsFixedShare(originalPrice: real, discountValue: real, quantity: real, taxRate: real, includeTax: bool)
    requires originalPrice > 0.0 && quantity > 0.0 && discountValue >= 0.0 && taxRate >= 0.0
    ensures CalculateDiscount(originalPrice, Percentage, discountValue, quantity, taxRate, includeTax)
         == CalculateDiscount(originalPrice, Fixed, originalPrice * quantity * discountValue / 100.0, quantity, taxRate, includeTax)
  {
    ProductPositive(originalPrice, quantity);
    PercentageIsFixedShareOfSubtotal(originalPrice * quantity, discountValue, originalPrice * quantity * discountValue / 100.0, taxRate, includeTax);
  }

  /**
   * The include-tax flag changes only the tax and the total: acceptance,
   * subtotal, discount, final price and savings are the same either way,
   * and the total with tax is the total without it plus the tax.
   */
  lemma TaxOnlyAddsToTotal(originalPrice: real, discountType: DiscountType, discountValue: real, quantity: real, taxRate: real)
    ensures var without := CalculateDiscount(originalPrice, discountType, discountValue, quantity, taxRate, false);
      var with := CalculateDiscount(originalPrice, discountType, discountValue, quantity, taxRate, true);
      && (without.Some? <==> with.Some?)
      && (with.Some? ==>
            && with.value.originalPrice == without.value.originalPrice
            && with.value.discountAmount == without.value.discountAmount
            && with.value.finalPrice == without.value.finalPrice
            && with.value.savingsPercentage == without.value.savingsPercentage
            && with.value.totalWithTax == without.value.totalWithTax + with.value.taxAmount
            && with.value.totalWithTax == without.value.finalPrice * (1.0 + taxRate / 100.0))
  {
  }

  /**
   * Removing more from the same subtotal leaves a final price and a total
   * that are no higher, and reports savings that are no lower.
   */
  lemma BreakdownMonotone(total: real, smaller: real, larger: real, taxRate: real, includeTax: bool)
    requires total > 0.0 && 0.0 <= smaller <= larger <= total && taxRate >= 0.0
    ensures var lo := Breakdown(total, smaller, taxRate, includeTax);
      var hi := Breakdown(total, larger, taxRate, includeTax);
      && lo.finalPrice >= hi.finalPrice
      && lo.totalWithTax >= hi.totalWithTax
      && lo.savingsPercentage <= hi.savingsPercentage
  {
    ProductNonnegative(larger - smaller, taxRate);
    assert (total - smaller) * taxRate - (total - larger) * taxRate == (larger - smaller) * taxRate;
    RatioOrdered(smaller, larger, total);
  }

  /** On one positive subtotal, a larger discount of the same type is never accepted alone and never costs more. */
  lemma SubtotalMonotone(total: real, discountType: DiscountType, smaller: real, larger: real, taxRate: real, includeTax: bool)
    requires total > 0.0 && 0.0 <= smaller <= larger && taxRate >= 0.0
    requires ApplyDiscount(total, discountType, larger, taxRate, includeTax).Some?
    ensures var lo := ApplyDiscount(total, discountType, smaller, taxRate, includeTax);
      var hi := ApplyDiscount(total, discountType, larger, taxRate, includeTax).value;
      && lo.Some?
      && lo.value.finalPrice >= hi.finalPrice
      && lo.value.totalWithTax >= hi.totalWithTax
      && lo.value.savingsPercentage <= hi.savingsPercentage
  {
    match discountType
    case Percentage =>
      PercentageMonotone(total, smaller, larger, taxRate, includeTax);
    case Fixed =>
      FixedMonotone(total, smaller, larger, taxRate, includeTax);
    case Other(_) =>
  }

  /** `SubtotalMonotone` for percentage discounts, through their fixed equivalents. */
  lemma PercentageMonotone(total: real, smaller: real, larger: real, taxRate: real, includeTax: bool)
    requires total > 0.0 && 0.0 <= smaller <= larger <= 100.0 && taxRate >= 0.0
    ensures var lo := ApplyDiscount(total, Percentage, smaller, taxRate, includeTax);
      var hi := ApplyDiscount(total, Percentage, larger, taxRate, includeTax);
      && lo.Some? && hi.Some?
      && lo.value.finalPrice >= hi.value.finalPrice
      && lo.value.totalWithTax >= hi.value.totalWithTax
      && lo.value.savingsPercentage <= hi.value.savingsPercentage
  {
    var low, high := total * smaller / 100.0, total * larger / 100.0;
    SharesOrdered(total, smaller, larger, low, high);
    PercentageIsFixedShareOfSubtotal(total, smaller, low, taxRate, includeTax);
    PercentageIsFixedShareOfSubtotal(total, larger, high, taxRate, includeTax);
    FixedMonotone(total, low, high, taxRate, includeTax);
  }

  /** `SubtotalMonotone` for fixed discounts. */
  lemma FixedMonotone(total: real, smaller: real, larger: real, taxRate: real, includeTax: bool)
    requires total > 0.0 && 0.0 <= smaller <= larger <= total && taxRate >= 0.0
    ensures var lo := ApplyDiscount(total, Fixed, smaller, taxRate, includeTax);
      var hi := ApplyDiscount(total, Fixed, larger, taxRate, includeTax);
      && lo.Some? && hi.Some?
      && lo.value.finalPrice >= hi.value.finalPrice
      && lo.value.totalWithTax >= hi.value.totalWithTax
      && lo.value.savingsPercentage <= hi.value.savingsPercentage
  {
    BreakdownMonotone(total, smaller, larger, taxRate, includeTax);
  }

  /**
   * A larger discount of the same type never raises the price: when the
   * larger one is accepted so is the smaller, and the smaller one leaves a
   * final price and a total that are at least as high.
   */
  lemma LargerDiscountNeverCostsMore(
    originalPrice: real, discountType: DiscountType, smaller: real, larger: real,
    quantity: real, taxRate: real, includeTax: bool)
    requires 0.0 <= smaller <= larger
    requires CalculateDiscount(originalPrice, discountType, larger, quantity, taxRate, includeTax).Some?
    ensures var lo := CalculateDiscount(originalPrice, discountType, smaller, quantity, taxRate, includeTax);
      var hi := CalculateDiscount(originalPrice, discountType, larger, quantity, taxRate, includeTax).value;
      && lo.Some?
      && lo.value.finalPrice >= hi.finalPrice
      && lo.value.totalWithTax >= hi.totalWithTax
      && lo.value.savingsPercentage <= hi.savingsPercentage
  {
    ProductPositive(originalPrice, quantity);
    SubtotalMonotone(originalPrice * quantity, discountType, smaller, larger, taxRate, includeTax);
  }

  /** On a positive subtotal, the full discount of either type leaves nothing to pay. */
  lemma FullDiscountOfSubtotal(total: real, discountType: DiscountType, taxRate: real, includeTax: bool)
    requires total > 0.0 && taxRate >= 0.0
    requires discountType.Percentage? || discountType.Fixed?
    ensures var r := ApplyDiscount(total, discountType, if discountType.Percentage? then 100.0 else total, taxRate, includeTax);
      && r.Some?
      && r.value.finalPrice == 0.0 && r.value.taxAmount == 0.0 && r.value.totalWithTax == 0.0
      && r.value.savingsPercentage == 100.0
  {
    assert total * 100.0 / 100.0 == total;
    assert (total / total) * 100.0 == 100.0;
  }

  /**
   * The boundary discounts (100 percent, or a fixed amount equal to the
   * subtotal) are accepted and bring everything owed down to zero.
   */
  lemma FullDiscountIsFree(originalPrice: real, discountType: DiscountType, quantity: real, taxRate: real, includeTax: bool)
    requires originalPrice > 0.0 && quantity > 0.0 && taxRate >= 0.0
    requires discountType.Percentage? || discountType.Fixed?
    ensures var full := if discountType.Percentage? then 100.0 else originalPrice * quantity;
      var r := CalculateDiscount(originalPrice, discountType, full, quantity, taxRate, includeTax);
      && r.Some?
      && r.value.finalPrice == 0.0 && r.value.taxAmount == 0.0 && r.value.totalWithTax == 0.0
      && r.value.savingsPercentage == 100.0
  {
    ProductPositive(originalPrice, quantity);
    FullDiscountOfSubtotal(originalPrice * quantity, discountType, taxRate, includeTax);
  }

  /** A zero discount of either type is accepted and changes nothing. */
  lemma ZeroDiscountIsNeutral(originalPrice: real, discountType: DiscountType, quantity: real, taxRate: real, includeTax: bool)
    requires originalPrice > 0.0 && quantity > 0.0 && taxRate >= 0.0
    requires discountType.Percentage? || discountType.Fixed?
    ensures var r := CalculateDiscount(originalPrice, discountType, 0.0, quantity, taxRate, includeTax);
      && r.Some?
      && r.value.discountAmount == 0.0 && r.value.savingsPercentage == 0.0
      && r.value.finalPrice == originalPrice * quantity
  {
  }

  /** The calculator's default inputs: 20 percent off 100 with an 8.5 percent tax rate, tax excluded. */
  lemma DefaultInputsExample()
    ensures CalculateDiscount(100.0, Percentage, 20.0, 1.0, 8.5, false)
         == Some(DiscountResult(100.0, 20.0, 80.0, 0.0, 80.0, 20.0))
  {
  }

  /** The default inputs with tax included. */
  lemma DefaultInputsWithTaxExample()
    ensures CalculateDiscount(100.0, Percentage, 20.0, 1.0, 8.5, true)
         == Some(DiscountResult(100.0, 20.0, 80.0, 6.8, 86.8, 20.0))
  {
  }

  /** A fixed discount of 10 on three items of 50. */
  lemma FixedDiscountExample()
    ensures CalculateDiscount(50.0, Fixed, 10.0, 3.0, 8.5, false)
         == Some(DiscountResult(150.0, 10.0, 140.0, 0.0, 140.0, 20.0 / 3.0))
  {
  }

  /** A fixed discount larger than the subtotal, and an unknown discount type, are rejected. */
  lemma RejectedExamples()
    ensures CalculateDiscount(50.0, Fixed, 200.0, 1.0, 8.5, false) == None
    ensures CalculateDiscount(100.0, FromTag("bogus"), 20.0, 1.0, 8.5, false) == None
  {
    assert "bogus"[0] != "percentage"[0] && "bogus"[0] != "fixed"[0];
  }
}
