/** The calculator: the table with its detected columns, the structured
    calculation `calculate` and the natural-language front door
    `calculate_from_query`. */
module Engine {
  import opened Wrappers
  import opened Text
  import opened Numbers
  import opened Errors
  import opened Scan
  import opened Tariff
  import opened Rate
  import opened Money

  /** A loaded calculator: the combined table and the columns detected in it. */
  datatype Calculator = Calculator(table: Table, schema: Schema)

  /** The column detection of the constructor, applied to the already
      combined table. */
  function NewCalculator(table: Table): (r: Result<Calculator, PyError>)
    ensures r.Success? ==> r.value.table == table
    ensures r.Success? ==> r.value.schema.codeColumn in table.columns && r.value.schema.dutyColumn in table.columns
    ensures r.Failure? ==> r.error == ValueError(CodeColumnMessage) || r.error == ValueError(DutyColumnMessage)
    ensures r.Failure? <==> DetectColumns(table.columns).Failure?
  {
    var schema :- DetectColumns(table.columns);
    Success(Calculator(table, schema))
  }

  function NotFoundMessage(code: string): string {
    "HTS code " + code + " not found."
  }

  /** The not-found message cannot be mistaken for a conversion error. */
  lemma NotFoundIsNoFloatError(code: string)
    ensures !IsFloatErrorMessage(NotFoundMessage(code))
  {
    forall tok ensures NotFoundMessage(code) != FloatErrorMessage(tok) {
      assert NotFoundMessage(code)[0] != FloatErrorMessage(tok)[0];
    }
  }

  /** The duty a fraction of CIF amounts to. */
  function Scale(fraction: real, cif: real): real {
    fraction * cif
  }

  /** `calculate`: CIF is the sum of the three costs; the first row whose
      code cell is exactly `code` supplies the duty text; the duty is the
      parsed fraction times CIF. */
  function Calculate(calculator: Calculator, cost: real, freight: real, insurance: real, code: string,
                     weight: Option<real>, quantity: Option<int>): (r: Result<real, PyError>)
    ensures r == Failure(ValueError(NotFoundMessage(code))) <==>
      forall j :: 0 <= j < |calculator.table.rows| ==> CellOf(calculator.table.rows[j], calculator.schema.codeColumn) != Str(code)
    ensures r.Failure? && r.error == ZeroDivisionError ==> cost + freight + insurance == 0.0
  {
    var cif := cost + freight + insurance;
    NotFoundIsNoFloatError(code);
    match FirstMatch(calculator.table.rows, calculator.schema.codeColumn, code, 0)
    case None => Failure(ValueError(NotFoundMessage(code)))
    case Some(k) =>
      match ParseDuty(DutyCell(calculator, k), cif, weight, quantity)
      case Failure(e) => Failure(e)
      case Success(f) => Success(Scale(f, cif))
  }

  /** Row `k` is the first row whose code cell is exactly `code`. */
  ghost predicate FirstRowFor(calculator: Calculator, code: string, k: nat) {
    && k < |calculator.table.rows|
    && CellOf(calculator.table.rows[k], calculator.schema.codeColumn) == Str(code)
    && forall j :: 0 <= j < k ==> CellOf(calculator.table.rows[j], calculator.schema.codeColumn) != Str(code)
  }

  /** The duty cell of row `k`. */
  function DutyCell(calculator: Calculator, k: nat): Cell
    requires k < |calculator.table.rows|
  {
    CellOf(calculator.table.rows[k], calculator.schema.dutyColumn)
  }

  /** When the first row carrying `code` holds a duty text of rule `rule`, the
      calculated duty is the duty that rule levies on CIF, unless the rule is
      a specific one and CIF is zero, which raises ZeroDivisionError. */
  lemma CalculateLeviesRule(calculator: Calculator, cost: real, freight: real, insurance: real, code: string,
                            weight: Option<real>, quantity: Option<int>, k: nat, rule: RateRule)
    requires FirstRowFor(calculator, code, k)
    requires Classify(DutyCell(calculator, k), weight, quantity) == Success(rule)
    ensures cost + freight + insurance == 0.0 && (rule.PerKg? || rule.PerUnit?) ==>
      Calculate(calculator, cost, freight, insurance, code, weight, quantity) == Failure(ZeroDivisionError)
    ensures cost + freight + insurance != 0.0 || !(rule.PerKg? || rule.PerUnit?) ==>
      Calculate(calculator, cost, freight, insurance, code, weight, quantity)
        == Success(SpecifiedDuty(rule, cost + freight + insurance))
  {
    var cif := cost + freight + insurance;
    FirstMatchIs(calculator.table.rows, calculator.schema.codeColumn, code, k);
    CalculateAtRow(calculator, cost, freight, insurance, code, weight, quantity, k);
    ParseDutyIsFraction(DutyCell(calculator, k), cif, weight, quantity, rule);
    ScaledFraction(rule, cif);
  }

  /** The result `calculate` makes of a parsed fraction: the error it raised,
      or the fraction times CIF. */
  function Scaled(p: Result<real, PyError>, cif: real): Result<real, PyError> {
    if p.Failure? then Failure(p.error) else Success(Scale(p.value, cif))
  }

  /** Scaling a rule's fraction by CIF gives the duty the rule levies, or
      ZeroDivisionError for a specific rule on zero CIF. */
  lemma ScaledFraction(rule: RateRule, cif: real)
    ensures cif == 0.0 && (rule.PerKg? || rule.PerUnit?) ==> Scaled(Fraction(rule, cif), cif) == Failure(ZeroDivisionError)
    ensures cif != 0.0 || !(rule.PerKg? || rule.PerUnit?) ==> Scaled(Fraction(rule, cif), cif) == Success(SpecifiedDuty(rule, cif))
  {
    var fr := Fraction(rule, cif);
    if fr.Success? {
      ScaleLevies(rule, cif, fr.value);
    }
  }

  lemma ScaleLevies(rule: RateRule, cif: real, f: real)
    requires Fraction(rule, cif) == Success(f)
    ensures Scale(f, cif) == SpecifiedDuty(rule, cif)
  {
    FractionLevies(rule, cif, f);
  }

  /** `CalculateLeviesRule` for the cases where the rule applies without error. */
  lemma CalculateApplies(calculator: Calculator, cost: real, freight: real, insurance: real, code: string,
                         weight: Option<real>, quantity: Option<int>, k: nat, rule: RateRule)
    requires FirstRowFor(calculator, code, k)
    requires Classify(DutyCell(calculator, k), weight, quantity) == Success(rule)
    requires cost + freight + insurance != 0.0 || !(rule.PerKg? || rule.PerUnit?)
    ensures Calculate(calculator, cost, freight, insurance, code, weight, quantity)
         == Success(SpecifiedDuty(rule, cost + freight + insurance))
  {
    CalculateLeviesRule(calculator, cost, freight, insurance, code, weight, quantity, k, rule);
  }

  /** A row carrying `code` with none before it is the one the lookup returns. */
  lemma FirstMatchIs(rows: seq<Row>, column: string, code: string, k: nat)
    requires k < |rows| && CellOf(rows[k], column) == Str(code)
    requires forall j :: 0 <= j < k ==> CellOf(rows[j], column) != Str(code)
    ensures FirstMatch(rows, column, code, 0) == Some(k)
  {
  }

  /** A duty text `calculate` cannot read (a malformed number) surfaces as its ValueError. */
  lemma CalculateMalformedRate(calculator: Calculator, cost: real, freight: real, insurance: real, code: string,
                               weight: Option<real>, quantity: Option<int>, k: nat)
    requires FirstRowFor(calculator, code, k)
    requires Classify(DutyCell(calculator, k), weight, quantity).Failure?
    ensures Calculate(calculator, cost, freight, insurance, code, weight, quantity)
         == Failure(Classify(DutyCell(calculator, k), weight, quantity).error)
  {
    FirstMatchIs(calculator.table.rows, calculator.schema.codeColumn, code, k);
    CalculateAtRow(calculator, cost, freight, insurance, code, weight, quantity, k);
  }

  /** Once the row is found, `calculate` is the parsed fraction times CIF. */
  lemma CalculateAtRow(calculator: Calculator, cost: real, freight: real, insurance: real, code: string,
                       weight: Option<real>, quantity: Option<int>, k: nat)
    requires FirstMatch(calculator.table.rows, calculator.schema.codeColumn, code, 0) == Some(k)
    ensures Calculate(calculator, cost, freight, insurance, code, weight, quantity)
         == Scaled(ParseDuty(DutyCell(calculator, k), cost + freight + insurance, weight, quantity), cost + freight + insurance)
  {
  }

  // ---------------------------------------------------------------------
  // The natural-language front door

  /** A character a captured number may hold: digit, comma or dot. */
  predicate NumberChar(c: char) {
    IsDigit(c) || c == ',' || c == '.'
  }

  /** Removing the commas from a capture of digits, commas and dots leaves a
      token of digits and dots. */
  lemma CommaFreeToken(g: string)
    requires forall x :: 0 <= x < |g| ==> NumberChar(g[x])
    ensures AllIn(RemoveCommas(g), 0, |RemoveCommas(g)|, DigitsDots)
  {
    var r := RemoveCommas(g);
    forall x | 0 <= x < |r| ensures InClass(r[x], DigitsDots) {
      assert r[x] in r;
    }
  }

  /** `float(g.replace(',', ''))`. */
  function FloatOfGroup(g: string): (r: Result<real, PyError>)
    requires forall x :: 0 <= x < |g| ==> NumberChar(g[x])
    ensures AllIn(RemoveCommas(g), 0, |RemoveCommas(g)|, DigitsDots)
    ensures r.Success? <==> IsDecimal(RemoveCommas(g))
    ensures r.Success? ==> Some(r.value) == ParseFloat(RemoveCommas(g))
    ensures r.Failure? ==> r.error == ValueError(FloatErrorMessage(RemoveCommas(g)))
  {
    CommaFreeToken(g);
    ToFloat(RemoveCommas(g))
  }

  /** `int(g.replace(',', ''))` on a capture of digits and commas. */
  function IntOfGroup(g: string): (r: Result<int, PyError>)
    requires forall x :: 0 <= x < |g| ==> IsDigit(g[x]) || g[x] == ','
    ensures AllDigits(RemoveCommas(g))
    ensures r.Success? <==> RemoveCommas(g) != ""
    ensures r.Success? ==> r.value == DigitsValue(RemoveCommas(g))
    ensures r.Failure? ==> r.error == ValueError(IntErrorMessage(RemoveCommas(g)))
  {
    var tok := RemoveCommas(g);
    assert AllDigits(tok) by {
      forall x | 0 <= x < |tok| ensures IsDigit(tok[x]) {
        assert tok[x] in tok;
      }
    }
    match ParseInt(tok)
    case Some(n) => Success(n)
    case None => Failure(ValueError(IntErrorMessage(tok)))
  }

  /** The values extracted from a query, after the defaults are applied. */
  datatype Fields = Fields(code: string, cost: real, freight: real, insurance: real,
                           weight: Option<real>, quantity: Option<int>)

  /** What the extraction step ends in: no HTS code or no cost found, a
      conversion that raised, or the fields. */
  datatype Extraction = Unparsed | Broken(error: PyError) | Extracted(fields: Fields)

  /** The six captures of a query, searched case-insensitively. */
  datatype Captured = Captured(code: Option<string>, cost: Option<string>, freight: Option<string>,
                               insurance: Option<string>, weight: Option<string>, quantity: Option<string>)

  function Capture(query: string): Captured {
    var t := Lower(query);
    Captured(Find(HtsCode, t), Find(Cost, t), Find(Freight, t), Find(Insurance, t),
             Find(Weight, t), Find(Quantity, t))
  }

  /** An optional capture of digits, commas and dots only. */
  predicate NumberGroup(g: Option<string>) {
    g.Some? ==> forall x :: 0 <= x < |g.value| ==> NumberChar(g.value[x])
  }

  /** An optional capture of digits and commas only. */
  predicate CountGroup(g: Option<string>) {
    g.Some? ==> forall x :: 0 <= x < |g.value| ==> IsDigit(g.value[x]) || g.value[x] == ','
  }

  /** The amount captures hold only digits, commas and dots; the quantity
      capture only digits and commas. */
  predicate WellFormed(c: Captured) {
    && NumberGroup(c.cost) && NumberGroup(c.freight) && NumberGroup(c.insurance)
    && NumberGroup(c.weight) && CountGroup(c.quantity)
  }

  lemma FindNumberGroup(p: Pattern, t: string)
    requires p.Cost? || p.Freight? || p.Insurance? || p.Weight?
    ensures NumberGroup(Find(p, t))
  {
  }

  lemma CaptureWellFormed(query: string)
    ensures WellFormed(Capture(query))
  {
    var t := Lower(query);
    FindNumberGroup(Cost, t);
    FindNumberGroup(Freight, t);
    FindNumberGroup(Insurance, t);
    FindNumberGroup(Weight, t);
  }

  /** An optional amount, converted when present. */
  function OptionalFloat(g: Option<string>, default: Option<real>): (r: Result<Option<real>, PyError>)
    requires NumberGroup(g)
    ensures g.None? ==> r == Success(default)
    ensures g.Some? ==> (r.Success? <==> IsDecimal(RemoveCommas(g.value)))
    ensures g.Some? && r.Success? ==> r.value == ParseFloat(RemoveCommas(g.value))
    ensures g.Some? && r.Failure? ==> r.error == ValueError(FloatErrorMessage(RemoveCommas(g.value)))
  {
    match g
    case None => Success(default)
    case Some(tok) =>
      var v :- FloatOfGroup(tok);
      Success(Some(v))
  }

  /** The conversions, in the order the source performs them: cost, freight,
      insurance, weight, quantity; the first that raises ends the step. */
  function Convert(c: Captured): (r: Result<Fields, PyError>)
    requires c.code.Some? && c.cost.Some? && WellFormed(c)
    ensures r.Success? <==> Convertible(c)
    ensures r.Failure? ==> r.error.ValueError?
  {
    var cost :- FloatOfGroup(c.cost.value);
    var freight :- OptionalFloat(c.freight, Some(0.0));
    var insurance :- OptionalFloat(c.insurance, Some(0.0));
    var weight :- OptionalFloat(c.weight, None);
    var quantity :- if c.quantity.Some? then
        var q :- IntOfGroup(c.quantity.value); Success(Some(q))
      else Success(None);
    Success(Fields(c.code.value, cost, freight.value, insurance.value, weight, quantity))
  }

  /** Every conversion of the captures succeeds. */
  ghost predicate Convertible(c: Captured)
    requires c.cost.Some? && WellFormed(c)
  {
    && IsDecimal(RemoveCommas(c.cost.value))
    && (c.freight.Some? ==> IsDecimal(RemoveCommas(c.freight.value)))
    && (c.insurance.Some? ==> IsDecimal(RemoveCommas(c.insurance.value)))
    && (c.weight.Some? ==> IsDecimal(RemoveCommas(c.weight.value)))
    && (c.quantity.Some? ==> RemoveCommas(c.quantity.value) != "")
  }

  /** The extraction step of `calculate_from_query`. */
  function ExtractFields(query: string): (x: Extraction)
    ensures x.Unparsed? <==> Capture(query).code.None? || Capture(query).cost.None?
    ensures !x.Unparsed? ==> WellFormed(Capture(query)) && (x.Broken? <==> !Convertible(Capture(query)))
    ensures x.Broken? ==> x.error.ValueError?
  {
    var c := Capture(query);
    CaptureWellFormed(query);
    if c.code.None? || c.cost.None? then Unparsed
    else
      match Convert(c)
      case Failure(e) => Broken(e)
      case Success(f) => Extracted(f)
  }

  /** The extracted fields are the captures read as numbers, the code as
      captured, the absent freight and insurance defaulting to 0.0 and the
      absent weight and quantity to None; every number is non-negative. */
  lemma ExtractedFields(query: string, f: Fields)
    requires ExtractFields(query) == Extracted(f)
    ensures Find(HtsCode, Lower(query)) == Some(f.code)
    ensures Find(Cost, Lower(query)).Some?
    ensures var c := Capture(query);
      && WellFormed(c)
      && FloatOfGroup(c.cost.value) == Success(f.cost)
      && (c.freight.None? ==> f.freight == 0.0)
      && (c.freight.Some? ==> FloatOfGroup(c.freight.value) == Success(f.freight))
      && (c.insurance.None? ==> f.insurance == 0.0)
      && (c.insurance.Some? ==> FloatOfGroup(c.insurance.value) == Success(f.insurance))
      && (c.weight.None? <==> f.weight.None?)
      && (c.weight.Some? ==> FloatOfGroup(c.weight.value) == Success(f.weight.value))
      && (c.quantity.None? <==> f.quantity.None?)
      && (c.quantity.Some? ==> IntOfGroup(c.quantity.value) == Success(f.quantity.value))
    ensures f.cost >= 0.0 && f.freight >= 0.0 && f.insurance >= 0.0
    ensures f.weight.Some? ==> f.weight.value >= 0.0
    ensures f.quantity.Some? ==> f.quantity.value >= 0
  {
    CaptureWellFormed(query);
  }

  /** What `calculate_from_query` ends in: an alert text, the report of a
      successful calculation (rendered to text by `ReplyText`), or the
      exception that escapes it. */
  datatype Reply =
    | Answer(text: string)
    | Reported(code: string, cif: real, duty: real)
    | Raised(error: PyError)

  /** The warning sign (U+2757 with variation selector U+FE0F) and a space. */
  const Alert := "\U{2757}\U{FE0F} "

  const UnparsedText := Alert + "Could not parse HTS code or cost from the query."

  /** The text returned to the caller; an escaping exception has none. */
  function ReplyText(r: Reply): string
    requires !r.Raised?
  {
    match r
    case Answer(text) => text
    case Reported(code, cif, duty) => Report(code, cif, duty)
  }

  /** The three-line Markdown report. */
  function Report(code: string, cif: real, duty: real): string {
    "**HTS Code:** " + code + "\n**CIF:** $" + FormatAmount(cif) + "\n**Duty:** $" + FormatAmount(duty)
  }

  /** The report is the code line, the CIF line and the duty line; each
      amount stays on its line and, with its commas removed, reads back
      through `float` as the value rounded to cents. */
  lemma ReportReadsBack(code: string, cif: real, duty: real)
    requires cif >= 0.0 && duty >= 0.0
    ensures Report(code, cif, duty)
         == "**HTS Code:** " + code + "\n**CIF:** $" + FormatAmount(cif) + "\n**Duty:** $" + FormatAmount(duty)
    ensures '\n' !in FormatAmount(cif) && '\n' !in FormatAmount(duty)
    ensures AllIn(RemoveCommas(FormatAmount(cif)), 0, |RemoveCommas(FormatAmount(cif))|, DigitsDots)
         && ParseFloat(RemoveCommas(FormatAmount(cif))) == Some(Cents(cif))
    ensures AllIn(RemoveCommas(FormatAmount(duty)), 0, |RemoveCommas(FormatAmount(duty))|, DigitsDots)
         && ParseFloat(RemoveCommas(FormatAmount(duty))) == Some(Cents(duty))
  {
    AmountOnOneLine(cif);
    AmountOnOneLine(duty);
    FormatAmountRoundTrip(cif);
    FormatAmountRoundTrip(duty);
  }

  /** `calculate_from_query`: extract, then calculate; a ValueError from the
      calculation becomes an alert line, any other exception escapes, and so
      does any exception of the extraction, which runs outside the `try`. */
  function CalculateFromQuery(calculator: Calculator, query: string): (r: Reply)
    ensures ExtractFields(query).Unparsed? ==> r == Answer(UnparsedText)
    ensures ExtractFields(query).Broken? ==> r == Raised(ExtractFields(query).error)
    ensures r.Raised? ==> ExtractFields(query).Broken? || r.error == ZeroDivisionError
  {
    match ExtractFields(query)
    case Unparsed => Answer(UnparsedText)
    case Broken(e) => Raised(e)
    case Extracted(f) =>
      Respond(f.code, f.cost + f.freight + f.insurance,
              Calculate(calculator, f.cost, f.freight, f.insurance, f.code, f.weight, f.quantity))
  }

  /** The `try` around `calculate`: the report on success, the alert line for
      a ValueError, and any other exception escapes. */
  function Respond(code: string, cif: real, outcome: Result<real, PyError>): (r: Reply)
    ensures r.Raised? <==> outcome.Failure? && !outcome.error.ValueError?
  {
    match outcome
    case Failure(ValueError(m)) => Answer(Alert + m)
    case Failure(e) => Raised(e)
    case Success(duty) => Reported(code, cif, duty)
  }

  /** Once the fields are extracted, the reply is the response to `calculate` on them. */
  lemma QueryAfterExtraction(calculator: Calculator, query: string, f: Fields)
    requires ExtractFields(query) == Extracted(f)
    ensures CalculateFromQuery(calculator, query)
         == Respond(f.code, f.cost + f.freight + f.insurance,
                    Calculate(calculator, f.cost, f.freight, f.insurance, f.code, f.weight, f.quantity))
  {
  }

  /** An HTS code the table does not carry is answered with the not-found alert. */
  lemma QueryCodeNotFound(calculator: Calculator, query: string, f: Fields)
    requires ExtractFields(query) == Extracted(f)
    requires forall j :: 0 <= j < |calculator.table.rows| ==>
      CellOf(calculator.table.rows[j], calculator.schema.codeColumn) != Str(f.code)
    ensures CalculateFromQuery(calculator, query) == Answer(Alert + NotFoundMessage(f.code))
  {
    QueryAfterExtraction(calculator, query, f);
    var outcome := Calculate(calculator, f.cost, f.freight, f.insurance, f.code, f.weight, f.quantity);
    assert outcome == Failure(ValueError(NotFoundMessage(f.code)));
  }

  /** When the first row carrying the extracted code holds a rule the
      calculation can apply, the answer reports the extracted code, the sum of
      the extracted costs, and the duty that rule levies on it. */
  lemma QueryReportsLevy(calculator: Calculator, query: string, f: Fields, k: nat, rule: RateRule)
    requires ExtractFields(query) == Extracted(f)
    requires FirstRowFor(calculator, f.code, k)
    requires Classify(DutyCell(calculator, k), f.weight, f.quantity) == Success(rule)
    requires f.cost + f.freight + f.insurance != 0.0 || !(rule.PerKg? || rule.PerUnit?)
    ensures var cif := f.cost + f.freight + f.insurance;
      CalculateFromQuery(calculator, query) == Reported(f.code, cif, SpecifiedDuty(rule, cif))
  {
    CalculateApplies(calculator, f.cost, f.freight, f.insurance, f.code, f.weight, f.quantity, k, rule);
  }

  /** A malformed number in the row's duty text is answered with Python's
      conversion message behind the alert sign. */
  lemma QueryMalformedRate(calculator: Calculator, query: string, f: Fields, k: nat, tok: string)
    requires ExtractFields(query) == Extracted(f)
    requires FirstRowFor(calculator, f.code, k)
    requires Classify(DutyCell(calculator, k), f.weight, f.quantity) == Failure(ValueError(FloatErrorMessage(tok)))
    ensures CalculateFromQuery(calculator, query) == Answer(Alert + FloatErrorMessage(tok))
  {
    QueryAfterExtraction(calculator, query, f);
    CalculateMalformedRate(calculator, f.cost, f.freight, f.insurance, f.code, f.weight, f.quantity, k);
  }

  /** The amounts a report shows are never negative, so neither field
      carries a minus sign. */
  lemma ReportAmountsNonNegative(query: string, f: Fields, cell: Cell, rule: RateRule)
    requires ExtractFields(query) == Extracted(f)
    requires Classify(cell, f.weight, f.quantity) == Success(rule)
    ensures f.cost + f.freight + f.insurance >= 0.0
    ensures SpecifiedDuty(rule, f.cost + f.freight + f.insurance) >= 0.0
  {
    ExtractedNonNegative(query, f);
    FieldsLevyNonNegative(f, cell, rule);
  }

  lemma FieldsLevyNonNegative(f: Fields, cell: Cell, rule: RateRule)
    requires f.cost >= 0.0 && f.freight >= 0.0 && f.insurance >= 0.0
    requires f.weight.Some? ==> f.weight.value >= 0.0
    requires f.quantity.Some? ==> f.quantity.value >= 0
    requires Classify(cell, f.weight, f.quantity) == Success(rule)
    ensures SpecifiedDuty(rule, f.cost + f.freight + f.insurance) >= 0.0
  {
    var cif := f.cost + f.freight + f.insurance;
    assert RatesNonNegative(rule);
    assert rule.PerKg? ==> rule.weightKg >= 0.0;
    assert rule.PerUnit? ==> rule.quantity >= 0;
    SpecifiedDutyNonNegative(rule, cif);
  }

  lemma ExtractedNonNegative(query: string, f: Fields)
    requires ExtractFields(query) == Extracted(f)
    ensures f.cost >= 0.0 && f.freight >= 0.0 && f.insurance >= 0.0
    ensures f.weight.Some? ==> f.weight.value >= 0.0
    ensures f.quantity.Some? ==> f.quantity.value >= 0
  {
    ExtractedFields(query, f);
  }
}
