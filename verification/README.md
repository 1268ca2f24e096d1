# Duty calculator — a Dafny model

This project models the duty engine of the HTS duty calculator
(`src/duty_calculator.py`). The engine does four things:

- `parse_duty_advanced` reads a duty-rate text from the tariff table. The text
  may be "free", an ad-valorem percentage, cents per kilogram, or dollars per
  unit. The engine turns it into a fraction of the shipment's CIF value.
- The constructor of `DutyCalculator` picks the HTS code column and the duty
  column of the combined tariff table.
- `calculate` computes the duty. CIF is cost plus freight plus insurance. The
  first row carrying the HTS code supplies the rate text. The duty is the
  parsed fraction times CIF.
- `calculate_from_query` pulls the HTS code, the costs, the weight and the
  quantity out of an English sentence with six regular expressions, runs
  `calculate`, and renders a three-line Markdown report.

Each Python exception is a value: `Errors.PyError` is `ValueError(message)` or
`ZeroDivisionError`, and every operation returns a `Result`. The modules
follow the program's layers:

| module | models |
|---|---|
| `Text` | `str.lower`, `\s`, the bracketed character classes, greedy runs, `in` on strings, `replace(',', '')` |
| `Numbers` | digit strings; Python's `float()` on `[0-9.]+` tokens and `int()` on digit strings |
| `Scan` | each regular expression as a deterministic scanner (`MatchAt`) and `re.search` as the leftmost successful attempt (`Search`) |
| `PatternSpec` | the declarative meaning of each pattern (`Captures`), and the proof that the scanners agree with it |
| `Tariff` | the combined table, column detection, the row lookup |
| `Rate` | `parse_duty_advanced`: the classification of a duty text into a rule (`Classify`), and the fraction of CIF that rule yields (`Fraction`) |
| `RateProperties` | what the rate parser promises: the priority order, the fallbacks, the error cases |
| `Money` | `f"{x:,.2f}"`, with round-half-even to cents and thousands grouping |
| `Engine` | the calculator, `calculate`, and `calculate_from_query` |
| `Fixes` | two defects of the code: each one as written, and corrected |
| `Scenarios` | worked examples: the documented rate texts, compound rate texts, and 2 % on a CIF of 10,600 |
| `QueryProperties` | how the query searches behave on a sentence built from pieces: an attempt reads only from its own position on, so `re.search` over a sentence is decided one piece at a time |
| `QueryScenario` | a sample query "HTS code 0101.30.00.00, cost 10,000, freight 500, insurance 100, weight 500 kg, quantity 5", and a query with no cost, each taken through `calculate_from_query` |

Two behaviours of the code are easy to miss, and the model keeps both:

- A malformed number in a rate text raises ValueError. `float("1.2.3")`
  fails, and `parse_duty_advanced` does not catch it
  (`RateProperties.KgTokenReadWithWeight`, `RateProperties.MalformedKgRaises`).
- `calculate_from_query` can raise to its caller, in two cases. A specific
  rate on a zero CIF raises ZeroDivisionError, which `except ValueError` does
  not catch. A conversion error during extraction happens before the `try`.
  `Engine.CalculateFromQuery` returns `Raised(...)` in both cases. See
  "Findings" below.

## Model

| member | source | states |
|---|---|---|
| Text.ContainsIff | src/duty_calculator.py:18 | `sub in s` holds exactly when `sub` occurs at some position of `s` |
| Text.RunEndUnique | src/duty_calculator.py:22 | a greedy repetition of a class stops at the one place where the run cannot be extended: any run that covers `t[a..b]` and stops at `b` is the greedy run |
| Text.RemoveCommasConcat | src/duty_calculator.py:108 | dropping the commas of a concatenation drops them from each part |
| Numbers.ParseFloat | src/duty_calculator.py:24 | `float(tok)` on a `[0-9.]+` token succeeds exactly when the token has at most one dot and at least one digit; its value is never negative |
| Numbers.ParseFloatPoint | src/duty_calculator.py:24 | `float("w.f")` is the whole digits plus the fraction digits divided by ten to their length, with either side possibly empty |
| Numbers.ParseFloatWhole | src/duty_calculator.py:24 | `float(w)` for a digit string is its decimal value |
| Numbers.NatToDigits | src/duty_calculator.py:122-123 | `str(n)` is a digit string whose value is `n`, with no leading zero unless `n` is 0 |
| Numbers.ParseInt | src/duty_calculator.py:112 | `int(tok)` on a digit string succeeds exactly when the string is non-empty |
| Scan.Search | src/duty_calculator.py:22 | `re.search` reports the leftmost position where the pattern matches; every earlier attempt fails; no report means no position matches |
| Scan.Find | src/duty_calculator.py:96-101 | a search captures something exactly when the pattern matches somewhere; group 1 is non-empty and drawn from the pattern's class |
| PatternSpec.MatchAtIff | src/duty_calculator.py:96-101 | for every pattern, the scanner's attempt at `i` captures `g` exactly when the regular expression matches at `i` with group 1 equal to `g` |
| PatternSpec.SearchLeftmost | src/duty_calculator.py:22 | the search reports `(k, g)` exactly when the pattern matches at `k` with `g` and matches nowhere before `k` |
| PatternSpec.SearchNone | src/duty_calculator.py:23 | a search fails exactly when the pattern matches at no position with any group |
| PatternSpec.RunThenIff | src/duty_calculator.py:27 | `([class]+)lit` captures `g` at `i` exactly when `g` is a non-empty run of the class that cannot be extended and `lit` follows it |
| PatternSpec.AmountEndIff | src/duty_calculator.py:97 | the greedy `[0-9,]+(?:\.[0-9]+)?` ends at `e` exactly when `t[d..e]` is the longest amount starting at `d` |
| PatternSpec.FillerUnique | src/duty_calculator.py:97 | of all the ways `\s*(?:of\s*)?\$?` can match before an amount, the greedy one is the only one |
| PatternSpec.HtsCodeIff | src/duty_calculator.py:96 | the code scanner agrees with `hts code\s*([0-9\.]+)` |
| PatternSpec.AmountAtComplete | src/duty_calculator.py:97-99 | whenever a keyword, the filler and the longest amount match, the amount scanner returns that amount |
| PatternSpec.AmountAtSound | src/duty_calculator.py:97-99 | whatever the amount scanner returns is a match of keyword, filler and longest amount |
| PatternSpec.WeightIff | src/duty_calculator.py:100 | the weight scanner agrees with `([0-9,]+(?:\.[0-9]+)?)\s*kg` |
| PatternSpec.QuantityIff | src/duty_calculator.py:101 | the quantity scanner agrees with `([0-9,]+)\s*units?` |
| Tariff.RateColumns | src/duty_calculator.py:66 | the filtered list holds exactly the column names that contain "Rate", case-sensitively |
| Tariff.RateColumnsHead | src/duty_calculator.py:66-68 | the head of the filtered list is the first column, in column order, whose name contains "Rate" |
| Tariff.DetectColumns | src/duty_calculator.py:54-70 | the code column is "HTS_Code" when present, else "HTS Number"; the duty column is "Duty" when present, else the first "Rate" column; each missing choice raises its own ValueError; the two columns differ and both exist |
| Tariff.CodeNamesAreNotDutyNames | src/duty_calculator.py:63-68 | neither code-column name can also be chosen as the duty column |
| Tariff.FirstMatch | src/duty_calculator.py:83-86 | the lookup returns the first row whose code cell equals the code string, with no match before it; it returns none exactly when no row matches |
| Rate.Classify | src/duty_calculator.py:15-36 | empty and non-text cells give no rule; "free" in any case gives the exempt rule; a cents-per-kg rule uses the given weight and a per-unit rule the given quantity; every number read is non-negative; failures are Python's float conversion errors |
| Rate.ClassifyText | src/duty_calculator.py:21-36 | the three patterns, in their order, never give the exempt rule and need the weight or quantity they use |
| Rate.Fraction | src/duty_calculator.py:24-34 | a rule's fraction fails exactly for a specific rule on a zero CIF, and then with ZeroDivisionError |
| Rate.FractionLevies | src/duty_calculator.py:29-34 | the fraction times CIF is the duty the rule levies: N % of CIF, N cents per kilogram, or N dollars per unit |
| Rate.ParseDuty | src/duty_calculator.py:6-36 | the parser fails only with ZeroDivisionError or a float conversion error, succeeds only on a classified text, and divides by zero only on a zero CIF |
| Rate.ParseDutyLevies | src/duty_calculator.py:10-13 | the documented examples hold in general: fraction times CIF is the duty the classified rule levies |
| Rate.ToFloat | src/duty_calculator.py:24 | `float(tok)` on a captured token succeeds exactly when the token is a decimal, with the value `float` reads, never negative; otherwise it raises Python's ValueError for that token |
| Rate.AdValoremFraction | src/duty_calculator.py:24 | a percentage rule yields its number divided by 100, whatever the CIF |
| Rate.SpecifiedDutyNonNegative | src/duty_calculator.py:10-13 | a rule with non-negative numbers on a non-negative CIF levies a non-negative duty |
| RateProperties.NoFreeWithoutF | src/duty_calculator.py:18 | a text with no letter f in either case never counts as free |
| RateProperties.FreeWins | src/duty_calculator.py:17-19 | "free" in any letter case, anywhere, gives 0.0 whatever else the text holds |
| RateProperties.NoPercentWithoutSign | src/duty_calculator.py:22-23 | without a "%" sign the percentage pattern matches at no position with any group |
| RateProperties.NoCentsWithoutSign | src/duty_calculator.py:27-28 | without a "¢" sign the cents-per-kg pattern matches at no position with any group |
| RateProperties.NoDollarsWithoutSign | src/duty_calculator.py:32-33 | without a "$" sign the dollars-per-unit pattern matches at no position with any group |
| RateProperties.PercentAtStart | src/duty_calculator.py:22 | a token followed by "%" at the start of the text is the leftmost match of the percentage pattern |
| RateProperties.PercentAfter | src/duty_calculator.py:22 | after a prefix with no "%" that does not end in a digit or dot, the first token followed by "%" is the leftmost match, wherever it lies |
| RateProperties.PercentNeedsToken | src/duty_calculator.py:22-23 | when no "%" of the text directly follows a digit or dot, the percentage pattern matches at no position |
| RateProperties.PercentDecides | src/duty_calculator.py:21-24 | the leftmost match of `([0-9.]+)%`, wherever it lies, decides the rule whatever weight or quantity is given and whatever rates the text also names: N percent ad valorem when Python reads N, its ValueError otherwise |
| RateProperties.PercentAfterDecides | src/duty_calculator.py:21-24 | a percentage that follows other rates still decides: prefix then `N%` is N percent ad valorem, with or without a weight or quantity |
| RateProperties.PercentOfDecimal | src/duty_calculator.py:24 | `N%` yields N / 100 |
| RateProperties.CentsAtStart | src/duty_calculator.py:27 | a token followed by "¢/kg" at the start of the text is the leftmost match of the cents-per-kg pattern |
| RateProperties.CentsPerKgDecides | src/duty_calculator.py:26-29 | when the percentage pattern matches nowhere and a weight is given, the leftmost match of `([0-9.]+)¢/kg` decides: N cents per kilogram of that weight when Python reads N, its ValueError otherwise |
| RateProperties.CentsFirst | src/duty_calculator.py:26-29 | with a weight, `N¢/kg` followed by text with no "%" and no "f" is N cents per kilogram, even when a dollar rate follows |
| RateProperties.DollarsAtStart | src/duty_calculator.py:32 | "$", a token and "/unit" at the start of the text make that token the leftmost capture |
| RateProperties.DollarsAfter | src/duty_calculator.py:32 | after a prefix with no "$", the first `$N/unit` is the leftmost match of the dollars-per-unit pattern, wherever it lies |
| RateProperties.DollarsPerUnitDecides | src/duty_calculator.py:31-34 | when the percentage pattern matches nowhere, and either no weight is given or the cents pattern matches nowhere, the leftmost match of `\$([0-9.]+)/unit` decides once a quantity is given: N dollars per unit of that quantity, or the ValueError |
| RateProperties.DollarsAfterDecides | src/duty_calculator.py:26-34 | without a weight, a cents rate is skipped: prefix then `$N/unit`, with no "%" or "$" in the prefix, is N dollars per unit of the quantity |
| RateProperties.DollarsOnly | src/duty_calculator.py:31-34 | `$N/unit` with a quantity is N dollars per unit of that quantity, with or without a weight |
| RateProperties.FallbackIsZero | src/duty_calculator.py:21-36 | when the percentage pattern matches nowhere, the cents pattern matches nowhere or no weight is given, and the dollar pattern matches nowhere or no quantity is given, the result is 0.0 |
| RateProperties.KgTokenSkippedWithoutWeight | src/duty_calculator.py:26-36 | for every digits-and-dots token and every tail with no "%" (and no "$" when a quantity is given), `N¢/kg` without a weight yields 0.0, even when Python cannot read N |
| RateProperties.KgTokenReadWithWeight | src/duty_calculator.py:26-29 | with a weight and no percentage match, a leftmost cents-per-kg match whose token Python cannot read raises that token's ValueError |
| RateProperties.UnreadableKgToken | src/duty_calculator.py:26-29 | with a weight, `N¢/kg` for any digits-and-dots N that Python cannot read raises N's ValueError |
| RateProperties.MalformedKgSkipped | src/duty_calculator.py:28 | the text "1.2.3¢/kg" without a weight gives 0.0 |
| RateProperties.MalformedKgRaises | src/duty_calculator.py:28-29 | the text "1.2.3¢/kg" with a weight raises `float`'s ValueError for "1.2.3" |
| RateProperties.TwoDotsRejected | src/duty_calculator.py:24 | `float` rejects a token with two dots |
| Money.RoundHalfEven | src/duty_calculator.py:122 | the rounding is to the nearest whole number, and a tie goes to the even one |
| Money.GroupThousands | src/duty_calculator.py:122 | the grouped text is the digits with commas exactly every fourth place from the right; removing them gives back the digits |
| Money.Cents | src/duty_calculator.py:122 | the amount shown is within half a cent of the exact value |
| Money.FormatAmount | src/duty_calculator.py:122-123 | the formatted amount carries a minus sign exactly when the amount is negative |
| Money.FormatAmountRoundTrip | src/duty_calculator.py:122-123 | a formatted non-negative amount, with its commas removed, reads back through `float` as the value rounded to cents |
| Engine.NewCalculator | src/duty_calculator.py:54-70 | a calculator is built exactly when both columns are found, the columns exist in the table, and a failure is one of the two column errors |
| Engine.Calculate | src/duty_calculator.py:82-88 | the not-found ValueError is raised exactly when no row carries the code; ZeroDivisionError only on a zero CIF |
| Engine.CalculateLeviesRule | src/duty_calculator.py:82-88 | with the first matching row's rule, the result is the duty that rule levies on cost plus freight plus insurance, except that a specific rule on a zero CIF raises ZeroDivisionError |
| Engine.ScaledFraction | src/duty_calculator.py:87-88 | scaling a rule's fraction by CIF gives the rule's duty, or ZeroDivisionError for a specific rule on a zero CIF |
| Engine.CalculateMalformedRate | src/duty_calculator.py:86-87 | a rate text the parser cannot read surfaces as that parser's ValueError |
| Engine.FloatOfGroup | src/duty_calculator.py:108-111 | converting a capture succeeds exactly when its comma-free text is a decimal, to that decimal's value; otherwise Python's message for that text |
| Engine.IntOfGroup | src/duty_calculator.py:112 | converting a quantity capture succeeds exactly when it holds a digit, to the value of its digits |
| Engine.OptionalFloat | src/duty_calculator.py:109-111 | a missing capture gives the default; a present one succeeds exactly when its text without commas is a decimal, with the value `float` reads, and otherwise raises `float`'s ValueError for that comma-free text |
| Engine.Convert | src/duty_calculator.py:108-112 | the conversions succeed exactly when every present capture is readable; a failure is a ValueError |
| Engine.CaptureWellFormed | src/duty_calculator.py:97-101 | the amount captures hold only digits, commas and dots, and the quantity capture only digits and commas |
| Engine.ExtractFields | src/duty_calculator.py:103-112 | the query is unparsed exactly when the code or the cost is missing; otherwise extraction fails exactly when some conversion fails |
| Engine.ExtractedFields | src/duty_calculator.py:106-112 | the fields are the captures read as numbers, with freight and insurance defaulting to 0.0 and weight and quantity to none; every number is non-negative |
| Engine.CalculateFromQuery | src/duty_calculator.py:90-124 | a query without code or cost gets the parse alert; a conversion error during extraction escapes to the caller unchanged; apart from that, only ZeroDivisionError escapes |
| Engine.Respond | src/duty_calculator.py:115-118 | the `try` lets an exception through exactly when it is not a ValueError |
| Engine.QueryCodeNotFound | src/duty_calculator.py:115-118 | a code the table lacks is answered with the not-found alert |
| Engine.QueryReportsLevy | src/duty_calculator.py:113-124 | the report carries the extracted code, the sum of the extracted costs, and the duty the row's rule levies on that sum |
| Engine.QueryMalformedRate | src/duty_calculator.py:117-118 | a malformed number in the row's rate text is answered with Python's message after the alert sign |
| Engine.ReportReadsBack | src/duty_calculator.py:120-124 | the report is the code line, the CIF line and the duty line; each amount stays on its own line and, with its commas removed, reads back through `float` as the value rounded to cents |
| Engine.ReportAmountsNonNegative | src/duty_calculator.py:120-124 | the CIF and duty a report shows are never negative |
| Engine.ExtractedNonNegative | src/duty_calculator.py:106-112 | every extracted number is non-negative |
| Fixes.ZeroCifPerKgRaises | src/duty_calculator.py:29 | as written, 5 kg at 10¢/kg with all costs zero raises ZeroDivisionError; the corrected calculation gives 0.5 |
| Fixes.CalculateCorrected | src/duty_calculator.py:82-88 | the corrected calculation raises only ValueError, and the not-found one exactly when no row carries the code |
| Fixes.CorrectedLeviesRule | src/duty_calculator.py:10-13 | the corrected calculation levies the first matching row's rule on every CIF, zero included |
| Fixes.CorrectedAgrees | src/duty_calculator.py:82-88 | wherever the code does not divide by zero, the correction gives the same result |
| Fixes.CommaQueryCaptures | src/duty_calculator.py:97 | in "cost , hts code 1" the cost pattern captures a lone comma and the code pattern captures "1" |
| Fixes.CommaCostEscapes | src/duty_calculator.py:108 | as written, that query raises `float('')`'s ValueError to the caller; the corrected door answers with the alert |
| Fixes.CalculateFromQueryCorrected | src/duty_calculator.py:115-118 | the corrected door never raises: extraction and calculation errors all become alert lines |
| Fixes.CorrectedQueryAgrees | src/duty_calculator.py:90-124 | wherever the code does not raise, the corrected door gives the same reply |
| Scenarios.DocumentedExamples | src/duty_calculator.py:10-13 | the four documented rate texts read as documented and levy the documented amounts: nothing, 5 % of CIF, 10 cents times the weight, 2.50 dollars times the quantity |
| Scenarios.CompoundPercentWins | src/duty_calculator.py:21-24 | "1.8¢/kg + 5%" is 5 % ad valorem, with or without a weight |
| Scenarios.CentsBeforeDollars | src/duty_calculator.py:26-29 | "10¢/kg or $2/unit" with a weight is 10 cents per kilogram of that weight, whatever quantity is given |
| Scenarios.DollarsWithoutWeight | src/duty_calculator.py:26-34 | "10¢/kg or $2/unit" without a weight is 2 dollars per unit of the quantity |
| Scenarios.SpacedPercentIsZero | src/duty_calculator.py:21-36 | "100 % cotton" gives 0.0 whatever the weight and quantity |
| Scenarios.TwoPercentOfCif | src/duty_calculator.py:82-88 | a 2 % row with costs 10,000, 500 and 100 levies 212, whatever weight or quantity is given |
| Scenarios.TwoPercentReport | src/duty_calculator.py:122-123 | that report shows the CIF as "10,600.00" and the duty as "212.00" |
| QueryProperties.MatchAtShift | src/duty_calculator.py:96-101 | for every pattern, what precedes a position never changes whether or what the pattern matches there |
| QueryProperties.FirstAtShift | src/duty_calculator.py:96-101 | a piece with no match, followed by a tail whose first match is at `k`, makes a text whose first match is `k` past the piece, with the same capture |
| QueryProperties.FindFirstAt | src/duty_calculator.py:96-101 | when the first successful attempt captures `g`, `re.search` reports `g` |
| QueryProperties.OpensNeeded | src/duty_calculator.py:96-101 | an attempt fails at a character that cannot begin the pattern |
| QueryProperties.ClosedStretch | src/duty_calculator.py:96-101 | a stretch of characters none of which can begin the pattern holds no match |
| QueryProperties.NoWeightInRun | src/duty_calculator.py:100 | a maximal run of number characters not followed, after spaces, by "kg" holds no start of a weight |
| QueryProperties.NoQuantityInRun | src/duty_calculator.py:101 | a maximal run of number characters not followed, after spaces, by "unit" holds no start of a quantity |
| QueryProperties.CodeAtStart | src/duty_calculator.py:96 | "hts code", spaces, then a code the next character does not continue: the code is the first capture |
| QueryProperties.KeywordAmountAtStart | src/duty_calculator.py:97-99 | a keyword, spaces, an optional "$", then an amount the next character does not continue: the amount is the first capture |
| QueryProperties.WeightAtStart | src/duty_calculator.py:100 | an amount, spaces, then "kg": the amount is the first capture |
| QueryProperties.QuantityAtStart | src/duty_calculator.py:101 | digits and commas, spaces, then "unit": the digits are the first capture |
| QueryScenario.QueryCaptures | src/duty_calculator.py:96-101 | on the sample query the six searches capture "0101.30.00.00", "10,000,", "500,", "100,", "500" and no quantity; the cost, freight and insurance captures take the trailing comma |
| QueryScenario.QueryExtracted | src/duty_calculator.py:103-112 | the sample query is read as code "0101.30.00.00", cost 10000, freight 500, insurance 100, weight 500 and no quantity |
| QueryScenario.QueryReported | src/duty_calculator.py:90-124 | against the 2 % table, the sample query is reported with code "0101.30.00.00", CIF 10,600 and duty 212 |
| QueryScenario.CostlessUnparsed | src/duty_calculator.py:103-104 | "HTS code 0101.30.00.00, weight 500 kg" has a code but no cost, and any calculator answers it with the parse alert |

## Left out

- Loading the CSV files (lines 45-52) is not modelled: directory listing, `pandas.read_csv`, concatenation and the "No CSV files" error are I/O. The model starts from the combined table as a value (`Tariff.Table`).
- pandas type inference is not modelled. A cell pandas reads as a number or NaN is `NonStr`: it is never equal to a code string, and the rate parser gives it 0.0. A column absent from some CSV reads as NaN.
- Floating point is not modelled. Costs, weights and fractions are exact reals, so IEEE double rounding in `float()`, in the sums and in the division by CIF is not reproduced.
- Money.FormatAmount: rounds the exact real half to even. Python rounds the binary double, and near a tie the two can differ.
- Numbers.ParseFloat: covers only tokens of digits and dots. That is all the patterns can capture. Signs, exponents, "inf", "nan", underscores and surrounding spaces, which Python's `float()` also accepts, never reach it.
- Text.Lower: folds ASCII letters only. `str.lower()` and `re.I` also fold non-ASCII letters, and `re.I` matches a few non-ASCII characters (the Kelvin sign, for example) against ASCII letters of the patterns.
- Engine.Capture has no contract of its own. It only strings the six searches together; `Engine.CaptureWellFormed` and `Engine.ExtractedFields` state what they give.
- The quantity pattern `([0-9,]+)\s*units?` is modelled as ending at "unit". The optional "s" never changes whether it matches or what it captures.
- The exact wording of Python's `float`/`int` error messages is modelled as the standard "could not convert string to float: '…'" and "invalid literal for int() with base 10: '…'" forms. The quoting of special characters inside them is not modelled.
- Numbers.ParseInt: does not model CPython's limit on converting a string of more than 4300 digits with `int()`. Such a quantity raises ValueError at line 112. The limit is an interpreter setting (`sys.set_int_max_str_digits`), not part of the program.
- Engine.IntOfGroup: the same 4300-digit limit of `int()` is not modelled. A longer quantity would raise ValueError there.
- Engine.Convert: the same 4300-digit limit is not modelled. The ValueError it would raise at line 112 is outside the `try`, so it escapes.
- Engine.ExtractFields: the same 4300-digit limit is not modelled. Extraction of such a quantity would fail with that escaping ValueError.
- Rate.ParseDuty: does not model OverflowError. Line 34 multiplies a float by the integer quantity, and Python raises OverflowError when the quantity is 2**1024 or more. The model's reals are exact and never overflow.
- Engine.CalculateFromQuery: the same OverflowError, and the 4300-digit ValueError of `int()`, are not modelled. Both would escape to the caller, besides the cases the model returns as `Raised`.
- Rate.SpecifiedDuty has no contract of its own. It is the reference definition of each rule's duty. `Rate.ParseDutyLevies`, `Rate.FractionLevies` and `Scenarios.DocumentedExamples` state what it means.
- Everything outside `src/duty_calculator.py` is not part of this model: the chat front end, the UI and the scripts.

## Findings

| source | as written | input that shows it | evidently intended | confidence | as-written member | corrected member |
|---|---|---|---|---|---|---|
| src/duty_calculator.py:29 | a specific rate divides by CIF and `calculate` multiplies back; on a zero CIF this raises ZeroDivisionError, which `calculate_from_query` does not catch | table row "0101" with rate "10¢/kg", costs 0, 0, 0, weight 5 | the duty the rule levies, 10 × 5 / 100 = 0.5, whatever the CIF | not executed | Fixes.ZeroCifPerKgRaises | Fixes.CalculateCorrected, Fixes.CorrectedLeviesRule, Fixes.CorrectedAgrees |
| src/duty_calculator.py:108 | the cost pattern accepts an amount of commas only; `float('')` then raises outside the `try`, so the caller gets an exception | query "cost , hts code 1" | an alert line, as for every other per-request error | not executed | Fixes.CommaCostEscapes | Fixes.CalculateFromQueryCorrected, Fixes.CorrectedQueryAgrees |
