# Discount calculator: a Dafny model of its calculation core

The discount calculator takes a unit price, a discount type and value, a
quantity, a tax rate and an include-tax flag. It turns them into a price
breakdown, or into `null` when the inputs are not acceptable. It can render
amounts as US dollars or Cambodian riel. This project models the three
functions of `src/utils/calculations.js` and proves what they promise:

- `calculateDiscount` is `Discount.CalculateDiscount`. It works on exact
  `real` numbers and returns `Option<DiscountResult>`, where `None` is `null`.
  The discount type is `Percentage | Fixed | Other(name)`, so an unknown type
  can still be passed and rejected. A subset type keeps `Other` from holding
  the names "percentage" or "fixed", which the source never treats as unknown.
- The part of `calculateDiscount` after its common checks (lines 33-58) is
  `Discount.ApplyDiscount`, a function of the subtotal.
- `formatCurrency` is split in two. `CurrencyFormat.PlanFormat` makes the
  decision: either the em-dash placeholder, or a locale with an options
  record (currency and fraction digits). `CurrencyFormat.FormatCurrency`
  then applies the platform's locale-aware formatter, or the fallback text
  when that formatter throws. Those library routines are parameters, held
  in a `Platform` value.
- `formatDiscountResult` is `ResultFormat.FormatDiscountResult`. It passes
  `null` and non-objects through as `None`. Otherwise it keeps the six
  numeric fields and adds the six `*Formatted` fields.

The record and enumeration shapes come from `src/types/discount.js`; they
are the datatypes in module `DiscountTypes`.

The code checks neither that numbers are finite nor that the quantity is
whole, and this model follows the code:

- `calculateDiscount` has no check that a number is finite.
- It has no check that the quantity is a whole number.
- So `quantity` is a `real`, and any positive quantity is accepted.

## Model

| member | source | states |
|---|---|---|
| `DiscountTypes.FromTag` | src/utils/calculations.js:36-43 | a tag is `Percentage` exactly when it is the string "percentage", `Fixed` exactly when it is "fixed", and otherwise `Other` with that very string |
| `Discount.Breakdown` | src/utils/calculations.js:46-58 | for an accepted subtotal and discount, the six fields are consistent: discount within [0, subtotal], final price = subtotal − discount, tax ≥ 0, total = final + tax, savings in [0, 100] with savings × subtotal = discount × 100; tax is the rate's share of the final price or 0 by the flag |
| `Discount.ApplyDiscount` | src/utils/calculations.js:33-58 | on a positive subtotal with a non-negative value and rate: `null` iff value > 100 (percentage), iff value > subtotal (fixed), always for any other type; on success the breakdown is consistent, its subtotal is the given one, and tax is the rate's share of the final price or 0 by the flag |
| `Discount.CalculateDiscount` | src/utils/calculations.js:11-59 | `null` whenever price ≤ 0, quantity ≤ 0, discount value < 0 or tax rate < 0; otherwise `null` iff value > 100 (percentage), iff value > price × quantity (fixed), always for any other type; on success the subtotal is price × quantity, the breakdown is consistent, 0 ≤ final ≤ subtotal, no tax and total = final without the flag, tax = final × rate / 100 with it, and total ≥ final |
| `Discount.PercentageOfSubtotal` | src/utils/calculations.js:36-49 | on a positive subtotal, a percentage up to 100 removes subtotal × value / 100, leaves subtotal × (1 − value/100), and reports savings exactly equal to the value |
| `Discount.PercentageBreakdown` | src/utils/calculations.js:36-49 | an accepted percentage discount removes subtotal × value / 100, leaves subtotal × (1 − value/100), and reports a savings percentage exactly equal to the value |
| `Discount.FixedBreakdown` | src/utils/calculations.js:39-46 | an accepted fixed discount removes exactly the value and leaves subtotal − value |
| `Discount.PercentageIsFixedShareOfSubtotal` | src/utils/calculations.js:33-49 | on a positive subtotal, a non-negative percentage gives the same result (acceptance and every field) as a fixed discount of that share, and that share is non-negative |
| `Discount.PercentageIsFixedShare` | src/utils/calculations.js:33-49 | for all inputs, a percentage discount gives the same result (acceptance and every field) as a fixed discount of that share of the subtotal |
| `Discount.TaxOnlyAddsToTotal` | src/utils/calculations.js:47-48 | the include-tax flag changes neither acceptance nor subtotal, discount, final price or savings; with tax, total = total without tax + tax = final × (1 + rate/100) |
| `Discount.BreakdownMonotone` | src/utils/calculations.js:46-49 | removing more from the same subtotal gives a final price and total no higher and savings no lower |
| `Discount.SubtotalMonotone` | src/utils/calculations.js:33-49 | on one positive subtotal, for any type: if a larger value is accepted then so is any smaller non-negative one, with a final price and total at least as high and savings no higher |
| `Discount.LargerDiscountNeverCostsMore` | src/utils/calculations.js:36-49 | for either type, if a larger discount value is accepted then any smaller non-negative value is accepted too, with a final price and total at least as high and savings no higher |
| `Discount.PercentageMonotone` | src/utils/calculations.js:36-38 | on one positive subtotal, two percentages in [0, 100] are both accepted, and the smaller leaves a final price and total at least as high and savings no higher |
| `Discount.FixedMonotone` | src/utils/calculations.js:39-41 | on one positive subtotal, two fixed amounts in [0, subtotal] are both accepted, and the smaller leaves a final price and total at least as high and savings no higher |
| `Discount.FullDiscountOfSubtotal` | src/utils/calculations.js:36-49 | on a positive subtotal, 100 percent off or a fixed discount equal to the subtotal is accepted and leaves final price, tax and total at 0 with savings of 100 |
| `Discount.FullDiscountIsFree` | src/utils/calculations.js:36-49 | 100 percent off, or a fixed discount equal to the subtotal, is accepted and leaves final price, tax and total at 0 with savings of 100 |
| `Discount.ZeroDiscountIsNeutral` | src/utils/calculations.js:33-49 | a zero discount of either type is accepted, removes nothing, reports 0 savings and leaves the final price at the subtotal |
| `Discount.DefaultInputsExample` | src/hooks/useDiscountCalculator.js:10-15 | the calculator's initial inputs (100, 20 percent, quantity 1, rate 8.5, no tax) give subtotal 100, discount 20, final 80, tax 0, total 80, savings 20 |
| `Discount.DefaultInputsWithTaxExample` | src/hooks/useDiscountCalculator.js:10-15 | the same inputs with tax included give tax 6.8 and total 86.8 |
| `Discount.FixedDiscountExample` | src/utils/calculations.js:39-49 | 10 off three items of 50 gives subtotal 150, final 140 and savings 20/3 percent |
| `Discount.RejectedExamples` | src/utils/calculations.js:39-44 | a fixed discount of 200 on a subtotal of 50, and an unknown type tag, give `null` |
| `CurrencyFormat.UpperChar` | src/utils/calculations.js:72 | lower-case ASCII letters map to their upper-case letters, U+017F (long s) to 'S', every other character to itself |
| `CurrencyFormat.ToUpper` | src/utils/calculations.js:72 | the model's upper-casing maps each character through `UpperChar` in place, so it keeps the length (JavaScript's `toUpperCase` can lengthen a string; see "Left out") |
| `CurrencyFormat.ToUpperIdempotent` | src/utils/calculations.js:72 | upper-casing an upper-cased code changes nothing |
| `CurrencyFormat.PlanFormat` | src/utils/calculations.js:68-90 | the placeholder exactly when the amount is not a finite number; otherwise style "currency" with equal minimum and maximum fraction digits, and locale km-KH, currency KHR and 0 digits when the code upper-cases to KHR, else locale en-US, currency USD and 2 digits |
| `CurrencyFormat.FallbackSymbol` | src/utils/calculations.js:98 | the riel sign exactly when the code upper-cases to KHR, the dollar sign otherwise |
| `CurrencyFormat.Round` | src/utils/calculations.js:100 | the result is the integer nearest the amount, halves rounded up |
| `CurrencyFormat.FallbackText` | src/utils/calculations.js:97-102 | starts with the fallback symbol; for KHR it is the riel sign followed by the rounded amount in Khmer locale form, otherwise "$" followed by the amount with two decimals |
| `CurrencyFormat.FormatCurrency` | src/utils/calculations.js:67-104 | the em-dash for a non-number or non-finite amount; otherwise the locale-aware formatter's output for the planned locale and options, or the fallback text when that formatter throws |
| `CurrencyFormat.CaseInsensitive` | src/utils/calculations.js:72-90 | two codes with the same upper-case form give the same plan and the same formatted string |
| `CurrencyFormat.UpperCaseCodeIsEquivalent` | src/utils/calculations.js:72 | formatting with a code's upper-case form is the same as formatting with the code |
| `CurrencyFormat.PlanIsCoherent` | src/utils/calculations.js:74-90 | every plan names KHR or USD; its locale is km-KH exactly for KHR, and it has 0 fraction digits exactly for KHR |
| `CurrencyFormat.PlanExamples` | src/utils/calculations.js:72-90 | "khr" plans km-KH/KHR/0 digits; "usd", "eur" and "uſd" plan en-US/USD/2 digits; NaN gets the placeholder |
| `ResultFormat.FormatDiscountResult` | src/utils/calculations.js:112-124 | `null` exactly for `null` or a non-object; otherwise every original field is unchanged, and each of the six added fields renders the field of the same name (currency for five, two decimals and "%" for the savings) |
| `ResultFormat.FormatsExactlyAcceptedCalculations` | src/utils/calculations.js:112-123 | formatting a calculation's result gives a formatted breakdown exactly when the calculation accepted its inputs, carrying that consistent breakdown unchanged |
| `ResultFormat.FormattingIgnoresCase` | src/utils/calculations.js:115-123 | the formatted breakdown depends on the currency code only through its upper-case form |

## Left out

- Floating point: every number is an exact `real`. Rounding of `* / 100`, NaN and Infinity are not modelled in `calculateDiscount`. In the source, NaN passes every comparison of lines 25-28; here an input cannot be NaN.
- The `typeof` checks of lines 21-24 always pass, because every argument is a `real`.
- A non-string currency code (on which `toUpperCase` would throw) is not modelled. The default code "USD" is not modelled either; callers pass the code explicitly.
- `CurrencyFormat.UpperChar` does not model full Unicode upper-casing, and `CurrencyFormat.ToUpper` always keeps the length. JavaScript's `toUpperCase` can change a string's length: "ß" becomes "SS", U+FB05 and U+FB06 become "ST", and U+1E96 becomes "H" followed by U+0331. In the model, non-ASCII characters other than U+017F stay as they are. The upper-cased code is only compared with "KHR" and "USD" (lines 77-84 and 98), and those comparisons come out as in the source. No character other than a-z, A-Z and U+017F upper-cases to a single letter of "KHR" or "USD". No multi-character expansion is one of the pieces "KH", "HR", "US", "SD", "KHR" or "USD".
- Not interpreted, and passed in as functions of a `Platform` value: the output of `Intl.NumberFormat`, of `toFixed(2)` and of `toLocaleString('km-KH')`. Whether `Intl.NumberFormat` throws is also a `Platform` function.
- `formatDiscountResult` on an object that lacks some of the six breakdown fields is not modelled. In the source, a missing amount field is formatted as the em-dash (line 68). Only a `savingsPercentage` that is missing or not a number makes line 122 throw.
- The hook `src/hooks/useDiscountCalculator.js` (React state, and parsing with `parseFloat`/`parseInt`) is not part of this model. It turns any NaN parse into `null` before calling `calculateDiscount`. Only its initial values appear, in two examples.
- The React components `DiscountCalculator.jsx` and `PriceDisplay.jsx` are presentation only.
