/**
 * `formatCurrency` (src/utils/calculations.js, lines 67-104): which
 * convention an amount is rendered with, and what is rendered when the
 * platform's locale-aware formatter fails.
 */
module CurrencyFormat {
  import opened Wrappers

  /** A JavaScript value handed over as the amount to format. */
  datatype JsAmount = Number(value: real) | NaN | PositiveInfinity | NegativeInfinity | NotNumber

  /** The options object built at lines 74-79. */
  datatype FormatOptions = FormatOptions(
    style: string,
    currency: string,
    minimumFractionDigits: nat,
    maximumFractionDigits: nat)

  /**
   * What `formatCurrency` decides before any rendering: the placeholder for
   * an amount that is not a finite number, or the locale and options that
   * are handed to the locale-aware formatter.
   */
  datatype FormatPlan = Placeholder | Plan(locale: string, options: FormatOptions)

  /**
   * The library routines the source calls and this model does not
   * interpret: the locale-aware formatter (`None` when constructing or
   * calling it throws), `Number.prototype.toFixed(2)` and
   * `toLocaleString('km-KH')` on the rounded amount.
   */
  datatype Platform = Platform(
    numberFormat: (string, FormatOptions, real) -> Option<string>,
    toFixed2: real -> string,
    khmerLocaleString: int -> string)

  const Dash: string := "\U{2014}"
  const RielSign: string := "\U{17DB}"

  /**
   * The upper-case form of one character, for the characters whose
   * upper-case form matters to the comparisons with "KHR" and "USD": the
   * ASCII letters, and LATIN SMALL LETTER LONG S, which upper-cases to 'S'.
   */
  function UpperChar(c: char): (u: char)
    ensures 'a' <= c <= 'z' ==> 'A' <= u <= 'Z' && u as int - 'A' as int == c as int - 'a' as int
    ensures c == '\U{017F}' ==> u == 'S'
    ensures !('a' <= c <= 'z') && c != '\U{017F}' ==> u == c
  {
    if 'a' <= c <= 'z' then (c as int - 'a' as int + 'A' as int) as char
    else if c == '\U{017F}' then 'S'
    else c
  }

  /** `String.prototype.toUpperCase` on the characters above (line 72). */
  function ToUpper(s: string): (u: string)
    ensures |u| == |s|
    ensures forall i :: 0 <= i < |s| ==> u[i] == UpperChar(s[i])
  {
    if s == [] then [] else [UpperChar(s[0])] + ToUpper(s[1..])
  }

  /** Upper-casing twice is upper-casing once. */
  lemma ToUpperIdempotent(s: string)
    ensures ToUpper(ToUpper(s)) == ToUpper(s)
  {
  }

  /** Lines 68-90: the placeholder, or the locale and options to format with. */
  function PlanFormat(amount: JsAmount, currency: string): (p: FormatPlan)
    ensures p.Placeholder? <==> !amount.Number?
    ensures p.Plan? ==> p.options.style == "currency"
    ensures p.Plan? ==> p.options.minimumFractionDigits == p.options.maximumFractionDigits
    ensures p.Plan? && ToUpper(currency) == "KHR" ==>
      p.locale == "km-KH" && p.options.currency == "KHR" && p.options.maximumFractionDigits == 0
    ensures p.Plan? && ToUpper(currency) != "KHR" ==>
      p.locale == "en-US" && p.options.currency == "USD" && p.options.maximumFractionDigits == 2
  {
    if !amount.Number? then
      Placeholder
    else
      var curr := ToUpper(currency);
      var digits := if curr == "KHR" then 0 else 2;
      var options := FormatOptions("currency", curr, digits, digits);
      if curr == "KHR" then Plan("km-KH", options)
      else if curr == "USD" then Plan("en-US", options)
      else Plan("en-US", options.(currency := "USD"))
  }

  /** Line 98: the symbol prefixed by the fallback rendering. */
  function FallbackSymbol(currency: string): (s: string)
    ensures s == RielSign <==> ToUpper(currency) == "KHR"
    ensures s != RielSign ==> s == "$"
  {
    if ToUpper(currency) == "KHR" then RielSign else "$"
  }

  /** `Math.round`: the nearest integer, halves rounded up. */
  function Round(x: real): (n: int)
    ensures x - 0.5 < n as real <= x + 0.5
  {
    (x + 0.5).Floor
  }

  /**
   * Lines 97-102: the rendering used when the locale-aware formatter
   * throws: the symbol, then the amount rounded to a whole number of riel
   * or written with two decimals.
   */
  function FallbackText(amount: real, currency: string, platform: Platform): (s: string)
    ensures ToUpper(currency) == "KHR" ==> s == RielSign + platform.khmerLocaleString(Round(amount))
    ensures ToUpper(currency) != "KHR" ==> s == "$" + platform.toFixed2(amount)
    ensures |s| > 0 && s[..1] == FallbackSymbol(currency)
  {
    var symbol := FallbackSymbol(currency);
    var fixedAmount := if ToUpper(currency) == "KHR" then platform.khmerLocaleString(Round(amount))
                       else platform.toFixed2(amount);
    symbol + fixedAmount
  }

  /** Lines 67-104: `formatCurrency`. It never fails; every amount gives a string. */
  function FormatCurrency(amount: JsAmount, currency: string, platform: Platform): (s: string)
    ensures !amount.Number? ==> s == Dash
    ensures amount.Number? ==>
      var p := PlanFormat(amount, currency);
      var formatted := platform.numberFormat(p.locale, p.options, amount.value);
      s == if formatted.Some? then formatted.value else FallbackText(amount.value, currency, platform)
  {
    match PlanFormat(amount, currency)
    case Placeholder => Dash
    case Plan(locale, options) =>
      match platform.numberFormat(locale, options, amount.value)
      case Some(formatted) => formatted
      case None => FallbackText(amount.value, currency, platform)
  }

  /**
   * The currency code is compared without regard to case: two codes with
   * the same upper-case form give the same plan and the same rendering.
   */
  lemma CaseInsensitive(amount: JsAmount, currency: string, other: string, platform: Platform)
    requires ToUpper(currency) == ToUpper(other)
    ensures PlanFormat(amount, currency) == PlanFormat(amount, other)
    ensures FormatCurrency(amount, currency, platform) == FormatCurrency(amount, other, platform)
  {
  }

  /** A code and its upper-case form are formatted alike. */
  lemma UpperCaseCodeIsEquivalent(amount: JsAmount, currency: string, platform: Platform)
    ensures FormatCurrency(amount, ToUpper(currency), platform) == FormatCurrency(amount, currency, platform)
  {
    ToUpperIdempotent(currency);
    CaseInsensitive(amount, ToUpper(currency), currency, platform);
  }

  /**
   * Every plan names one of the two supported currencies, and its locale,
   * currency and fraction digits agree with one another.
   */
  lemma PlanIsCoherent(amount: JsAmount, currency: string)
    requires amount.Number?
    ensures var p := PlanFormat(amount, currency);
      && (p.options.currency == "KHR" || p.options.currency == "USD")
      && (p.locale == "km-KH" <==> p.options.currency == "KHR")
      && (p.options.maximumFractionDigits == 0 <==> p.options.currency == "KHR")
  {
  }

  /** The codes the calculator offers, and an unsupported one, in any case. */
  lemma PlanExamples()
    ensures PlanFormat(Number(1234.5), "khr") == Plan("km-KH", FormatOptions("currency", "KHR", 0, 0))
    ensures PlanFormat(Number(1234.5), "usd") == Plan("en-US", FormatOptions("currency", "USD", 2, 2))
    ensures PlanFormat(Number(1234.5), "eur") == Plan("en-US", FormatOptions("currency", "USD", 2, 2))
    ensures PlanFormat(Number(1234.5), "u\U{017F}d") == Plan("en-US", FormatOptions("currency", "USD", 2, 2))
    ensures PlanFormat(NaN, "USD") == Placeholder
  {
  }
}
