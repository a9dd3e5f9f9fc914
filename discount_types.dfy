/**
 * The record and enumeration shapes of the discount calculator
 * (src/types/discount.js).
 */
module DiscountTypes {

  /**
   * The discount-type tags. The source passes a string and compares it with
   * `===` against 'percentage' and 'fixed'; every other tag is kept as
   * `Other` so that the rejection of unknown types stays reachable.
   */
  datatype DiscountTag = Percentage | Fixed | Other(name: string)

  /** A tag as the source can see it: `Other` never spells one of the two known names. */
  type DiscountType = t: DiscountTag | t.Other? ==> t.name != "percentage" && t.name != "fixed"
    witness Percentage

  /** The six numeric fields that a successful calculation returns. */
  datatype DiscountResult = DiscountResult(
    originalPrice: real,      // the subtotal: unit price times quantity
    discountAmount: real,
    finalPrice: real,
    taxAmount: real,
    totalWithTax: real,
    savingsPercentage: real)

  /** Reads a discount-type tag the way the strict comparisons of the source do. */
  function FromTag(tag: string): (t: DiscountType)
    ensures t == Percentage <==> tag == "percentage"
    ensures t == Fixed <==> tag == "fixed"
    ensures t.Other? ==> t.name == tag && tag != "percentage" && tag != "fixed"
  {
    if tag == "percentage" then Percentage
    else if tag == "fixed" then Fixed
    else Other(tag)
  }
}
