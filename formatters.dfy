// Display and export formatting (formatters.js, repeated at the top of
// FireCalcPro.jsx): the CSV-injection guard and the tier choice of the
// compact and rupee formatters. Digit rendering itself (`toFixed`,
// `Intl.NumberFormat`) is injected.

module Formatters {
  import opened JsMath

  /** A value handed to sanitizeCSV: a string, or any other value (the
      export only ever passes numbers). */
  datatype CsvValue = Text(text: string) | Number(number: Num)

  /** A spreadsheet reads a cell starting with one of these as a formula. */
  predicate StartsFormula(s: string)
  {
    |s| > 0 && (s[0] == '=' || s[0] == '+' || s[0] == '-' || s[0] == '@')
  }

  /** sanitizeCSV: a string that would start a formula gets a leading
      quote; every other value passes through. The result never starts a
      formula. */
  function SanitizeCsv(v: CsvValue): (r: CsvValue)
    ensures r.Text? <==> v.Text?
    ensures v.Text? && StartsFormula(v.text) ==> r.text == "'" + v.text
    ensures !(v.Text? && StartsFormula(v.text)) ==> r == v
    ensures !(r.Text? && StartsFormula(r.text))
  {
    if v.Text? && StartsFormula(v.text) then Text("'" + v.text) else v
  }

  /** Quoting twice is quoting once. */
  lemma SanitizeCsvIdempotent(v: CsvValue)
    ensures SanitizeCsv(SanitizeCsv(v)) == SanitizeCsv(v)
  {
  }

  /** A number is never altered, whatever its sign. */
  lemma SanitizeCsvKeepsNumbers(n: Num)
    ensures SanitizeCsv(Number(n)) == Number(n)
  {
  }

  // ------------------------------------------------------------ tiers

  /** `x.toFixed(digits)`, injected. */
  type ToFixed = (real, nat) -> string

  /** `Intl.NumberFormat("en-IN", ...).format(x)`, injected. */
  type Grouping = real -> string

  /** The rendering of a non-negative number never carries a minus sign. */
  ghost predicate Unsigned(toFixed: ToFixed)
  {
    forall x: real, d: nat :: 0.0 <= x ==> '-' !in toFixed(x, d)
  }

  const Rupee: char := '₹'

  /** Crore (1e7), lakh (1e5) or below. */
  datatype Tier = Crore | Lakh | Below

  function TierOf(absVal: real): (t: Tier)
    ensures t == Crore <==> 10000000.0 <= absVal
    ensures t == Lakh <==> 100000.0 <= absVal < 10000000.0
    ensures t == Below <==> absVal < 100000.0
  {
    if absVal >= 10000000.0 then Crore else if absVal >= 100000.0 then Lakh else Below
  }

  /** Tiers in increasing order of magnitude. */
  function TierRank(t: Tier): nat
  {
    match t
    case Below => 0
    case Lakh => 1
    case Crore => 2
  }

  /** A larger magnitude never picks a smaller tier. */
  lemma TierMonotone(x: real, y: real)
    requires x <= y
    ensures TierRank(TierOf(x)) <= TierRank(TierOf(y))
  {
  }

  /** formatCompact: "₹0" for NaN or an infinity; otherwise the magnitude
      in crore (2 digits), lakh (1 digit) or thousands (0 digits), always
      behind the rupee sign and without the value's sign. */
  function FormatCompact(toFixed: ToFixed, v: Num): (r: string)
    ensures |r| > 0 && r[0] == Rupee
    ensures !v.Finite? ==> r == "₹0"
    ensures v.Finite? && TierOf(Abs(v.value)) == Crore ==> r == [Rupee] + toFixed(Abs(v.value) / 10000000.0, 2) + "Cr"
    ensures v.Finite? && TierOf(Abs(v.value)) == Lakh ==> r == [Rupee] + toFixed(Abs(v.value) / 100000.0, 1) + "L"
    ensures v.Finite? && TierOf(Abs(v.value)) == Below ==> r == [Rupee] + toFixed(Abs(v.value) / 1000.0, 0) + "k"
    ensures Unsigned(toFixed) ==> '-' !in r
  {
    if !v.Finite? then "₹0"
    else
      var absVal := Abs(v.value);
      var formatted := if absVal >= 10000000.0 then toFixed(absVal / 10000000.0, 2) + "Cr"
                       else if absVal >= 100000.0 then toFixed(absVal / 100000.0, 1) + "L"
                       else toFixed(absVal / 1000.0, 0) + "k";
      [Rupee] + formatted
  }

  /** formatINR: "₹0" for NaN or an infinity; crore and lakh amounts with
      two digits and the value's sign in front of the rupee sign; smaller
      amounts through the locale formatter. */
  function FormatInr(toFixed: ToFixed, grouping: Grouping, v: Num): (r: string)
    ensures !v.Finite? ==> r == "₹0"
    ensures v.Finite? && TierOf(Abs(v.value)) != Below && v.value < 0.0 ==> |r| > 1 && r[0] == '-' && r[1] == Rupee
    ensures v.Finite? && TierOf(Abs(v.value)) != Below && 0.0 <= v.value ==> |r| > 0 && r[0] == Rupee
    ensures v.Finite? && TierOf(Abs(v.value)) == Crore ==> r == (if v.value < 0.0 then "-" else "") + [Rupee] + toFixed(Abs(v.value) / 10000000.0, 2) + " Cr"
    ensures v.Finite? && TierOf(Abs(v.value)) == Lakh ==> r == (if v.value < 0.0 then "-" else "") + [Rupee] + toFixed(Abs(v.value) / 100000.0, 2) + " L"
    ensures v.Finite? && TierOf(Abs(v.value)) == Below ==> r == grouping(v.value)
  {
    if !v.Finite? then "₹0"
    else
      var sign := if v.value < 0.0 then "-" else "";
      var absVal := Abs(v.value);
      if absVal >= 10000000.0 then sign + [Rupee] + toFixed(absVal / 10000000.0, 2) + " Cr"
      else if absVal >= 100000.0 then sign + [Rupee] + toFixed(absVal / 100000.0, 2) + " L"
      else grouping(v.value)
  }
}
