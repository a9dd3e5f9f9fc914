/**
 * `formatDiscountResult` (src/utils/calculations.js, lines 112-124): a
 * breakdown extended with display strings for each of its fields.
 */
module ResultFormat {
  import opened Wrappers
  import opened DiscountTypes
  import opened CurrencyFormat
  import Discount

  /**
   * The argument as line 113 sees it: `null`, a value that is not an
   * object (or is falsy), or a breakdown object.
   */
  datatype ResultArg = Null | NonObject | Object(result: DiscountResult)

  /** A breakdown spread into a new object together with six formatted fields. */
  datatype FormattedResult = FormattedResult(
    originalPrice: real,
    discountAmount: real,
    finalPrice: real,
    taxAmount: real,
    totalWithTax: real,
    savingsPercentage: real,
    originalPriceFormatted: string,
    discountAmountFormatted: string,
    finalPriceFormatted: string,
    taxAmountFormatted: string,
    totalWithTaxFormatted: string,
    savingsPercentageFormatted: string)

  /** The fields that came from the breakdown, without the added ones. */
  function Unformatted(f: FormattedResult): DiscountResult {
    DiscountResult(f.originalPrice, f.discountAmount, f.finalPrice, f.taxAmount, f.totalWithTax, f.savingsPercentage)
  }

  /** A calculation's outcome handed to this function: `null` or the breakdown object. */
  function FromCalculation(r: Option<DiscountResult>): ResultArg {
    if r.Some? then Object(r.value) else Null
  }

  /** Lines 112-124: `formatDiscountResult`. */
  function FormatDiscountResult(arg: ResultArg, currency: string, platform: Platform): (r: Option<FormattedResult>)
    ensures r.None? <==> !arg.Object?
    // the spread keeps every field of the breakdown as it was
    ensures r.Some? ==> Unformatted(r.value) == arg.result
    // each added field renders the field of the same name
    ensures r.Some? ==>
      && r.value.originalPriceFormatted == FormatCurrency(Number(r.value.originalPrice), currency, platform)
      && r.value.discountAmountFormatted == FormatCurrency(Number(r.value.discountAmount), currency, platform)
      && r.value.finalPriceFormatted == FormatCurrency(Number(r.value.finalPrice), currency, platform)
      && r.value.taxAmountFormatted == FormatCurrency(Number(r.value.taxAmount), currency, platform)
      && r.value.totalWithTaxFormatted == FormatCurrency(Number(r.value.totalWithTax), currency, platform)
      && r.value.savingsPercentageFormatted == platform.toFixed2(r.value.savingsPercentage) + "%"
  {
    match arg
    case Null => None
    case NonObject => None
    case Object(d) =>
      Some(FormattedResult(
        d.originalPrice, d.discountAmount, d.finalPrice, d.taxAmount, d.totalWithTax, d.savingsPercentage,
        FormatCurrency(Number(d.originalPrice), currency, platform),
        FormatCurrency(Number(d.discountAmount), currency, platform),
        FormatCurrency(Number(d.finalPrice), currency, platform),
        FormatCurrency(Number(d.taxAmount), currency, platform),
        FormatCurrency(Number(d.totalWithTax), currency, platform),
        platform.toFixed2(d.savingsPercentage) + "%"))
  }

  /**
   * Formatting a calculation's result yields a formatted breakdown exactly
   * when the calculation accepted its inputs, and it carries that breakdown.
   */
  lemma FormatsExactlyAcceptedCalculations(
    originalPrice: real, discountType: DiscountType, discountValue: real,
    quantity: real, taxRate: real, includeTax: bool, currency: string, platform: Platform)
    ensures var c := Discount.CalculateDiscount(originalPrice, discountType, discountValue, quantity, taxRate, includeTax);
      var f := FormatDiscountResult(FromCalculation(c), currency, platform);
      && (f.Some? <==> c.Some?)
      && (f.Some? ==> Unformatted(f.value) == c.value && Discount.Consistent(Unformatted(f.value)))
  {
  }

  /** The currency code matters only through its upper-case form. */
  lemma FormattingIgnoresCase(arg: ResultArg, currency: string, other: string, platform: Platform)
    requires ToUpper(currency) == ToUpper(other)
    ensures FormatDiscountResult(arg, currency, platform) == FormatDiscountResult(arg, other, platform)
  {
  }
}
