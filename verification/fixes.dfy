/** Two places where the code does not do what it evidently means to, each
    shown on a concrete input, next to the corrected definition and the
    property it restores.

    1. A specific rate (cents per kilogram, dollars per unit) is turned into
       a fraction by dividing by CIF, and `calculate` multiplies it back; when
       CIF is zero the division raises ZeroDivisionError although the duty
       the rate levies does not depend on CIF at all.
    2. `calculate_from_query` converts the captured numbers before its `try`;
       a capture made only of commas, which the amount patterns accept, turns
       into `float('')` and the ValueError escapes instead of becoming an
       alert line. */
module Fixes {
  import opened Wrappers
  import opened Text
  import opened Numbers
  import opened Errors
  import opened Scan
  import opened Tariff
  import opened Rate
  import opened RateProperties
  import opened Engine

  // ---------------------------------------------------------------------
  // 1. Specific rates on a zero CIF

  /** A one-row table: code "0101" at 10 cents per kilogram. */
  function PerKgTable(): Table {
    Table(["HTS_Code", "Duty"], [map["HTS_Code" := Str("0101"), "Duty" := Str("10¢/kg")]])
  }

  lemma PerKgRowClassified(weight: real)
    ensures Classify(Str("10¢/kg"), Some(weight), None) == Success(PerKg(10.0, weight))
  {
    ParseFloatWhole("10");
    assert DigitsValue("10") == 10 by {
      assert "10"[..1] == "1";
    }
    assert "10" + "¢/kg" + "" == "10¢/kg";
    NoFreeWithoutF("10" + "¢/kg" + "");
    CentsLeads("10", "", weight, None);
  }

  /** As written: 5 kg at 10 cents per kilogram with all three costs zero
      raises ZeroDivisionError instead of levying 0.50. */
  lemma ZeroCifPerKgRaises()
    ensures NewCalculator(PerKgTable()).Success?
    ensures Calculate(NewCalculator(PerKgTable()).value, 0.0, 0.0, 0.0, "0101", Some(5.0), None)
         == Failure(ZeroDivisionError)
    ensures CalculateCorrected(NewCalculator(PerKgTable()).value, 0.0, 0.0, 0.0, "0101", Some(5.0), None)
         == Success(0.5)
  {
    var calculator := Calculator(PerKgTable(), Schema("HTS_Code", "Duty"));
    assert NewCalculator(PerKgTable()) == Success(calculator);
    assert FirstRowFor(calculator, "0101", 0);
    PerKgRowClassified(5.0);
    CalculateLeviesRule(calculator, 0.0, 0.0, 0.0, "0101", Some(5.0), None, 0, PerKg(10.0, 5.0));
    CorrectedLeviesRule(calculator, 0.0, 0.0, 0.0, "0101", Some(5.0), None, 0, PerKg(10.0, 5.0));
  }

  /** Corrected `calculate`: the duty the row's rule levies, computed directly
      rather than as a fraction of CIF times CIF. */
  function CalculateCorrected(calculator: Calculator, cost: real, freight: real, insurance: real, code: string,
                              weight: Option<real>, quantity: Option<int>): (r: Result<real, PyError>)
    ensures r.Failure? ==> r.error.ValueError?
    ensures r == Failure(ValueError(NotFoundMessage(code))) <==>
      forall j :: 0 <= j < |calculator.table.rows| ==> CellOf(calculator.table.rows[j], calculator.schema.codeColumn) != Str(code)
  {
    NotFoundIsNoFloatError(code);
    match FirstMatch(calculator.table.rows, calculator.schema.codeColumn, code, 0)
    case None => Failure(ValueError(NotFoundMessage(code)))
    case Some(k) =>
      match Classify(DutyCell(calculator, k), weight, quantity)
      case Failure(e) => Failure(e)
      case Success(rule) => Success(SpecifiedDuty(rule, cost + freight + insurance))
  }

  /** The corrected calculation levies the first matching row's rule on every CIF. */
  lemma CorrectedLeviesRule(calculator: Calculator, cost: real, freight: real, insurance: real, code: string,
                            weight: Option<real>, quantity: Option<int>, k: nat, rule: RateRule)
    requires FirstRowFor(calculator, code, k)
    requires Classify(DutyCell(calculator, k), weight, quantity) == Success(rule)
    ensures CalculateCorrected(calculator, cost, freight, insurance, code, weight, quantity)
         == Success(SpecifiedDuty(rule, cost + freight + insurance))
  {
    FirstMatchIs(calculator.table.rows, calculator.schema.codeColumn, code, k);
  }

  /** Wherever the code does not divide by zero, the correction changes nothing. */
  lemma CorrectedAgrees(calculator: Calculator, cost: real, freight: real, insurance: real, code: string,
                        weight: Option<real>, quantity: Option<int>)
    requires Calculate(calculator, cost, freight, insurance, code, weight, quantity) != Failure(ZeroDivisionError)
    ensures CalculateCorrected(calculator, cost, freight, insurance, code, weight, quantity)
         == Calculate(calculator, cost, freight, insurance, code, weight, quantity)
  {
    var rows := calculator.table.rows;
    match FirstMatch(rows, calculator.schema.codeColumn, code, 0)
    case None =>
    case Some(k) =>
      CalculateAtRow(calculator, cost, freight, insurance, code, weight, quantity, k);
      match Classify(DutyCell(calculator, k), weight, quantity)
      case Failure(e) =>
      case Success(rule) =>
        FirstMatchFound(rows, calculator.schema.codeColumn, code, k);
        CalculateLeviesRule(calculator, cost, freight, insurance, code, weight, quantity, k, rule);
  }

  lemma FirstMatchFound(rows: seq<Row>, column: string, code: string, k: nat)
    requires FirstMatch(rows, column, code, 0) == Some(k)
    ensures k < |rows| && CellOf(rows[k], column) == Str(code)
    ensures forall j :: 0 <= j < k ==> CellOf(rows[j], column) != Str(code)
  {
  }

  // ---------------------------------------------------------------------
  // 2. A comma-only amount in the query

  /** The query "cost , hts code 1": the cost pattern captures the lone comma. */
  const CommaQuery := "cost , hts code 1"

  lemma CommaQueryCaptures()
    ensures Lower(CommaQuery) == CommaQuery
    ensures Find(Cost, CommaQuery) == Some(",")
    ensures Find(HtsCode, CommaQuery) == Some("1")
  {
    CommaQueryLower();
    CommaQueryCost();
    CommaQueryCode();
  }

  lemma CommaQueryLower()
    ensures Lower(CommaQuery) == CommaQuery
  {
    var t := CommaQuery;
    forall x | 0 <= x < |t| ensures !('A' <= t[x] <= 'Z') {
    }
    LowerFixed(t);
  }

  lemma CommaQueryCost()
    ensures Find(Cost, CommaQuery) == Some(",")
  {
    var t := CommaQuery;
    assert t[0..4] == "cost";
    assert KeywordEnd(Keywords(Cost), t, 0) == Some(4);
    RunEndUnique(t, 4, 5, Spaces);
    assert !LitAt(t, 5, "of") && !LitAt(t, 5, "$") by {
      NotLitAt(t, 5, "of");
      NotLitAt(t, 5, "$");
    }
    assert FillerEnd(t, 4) == 5;
    RunEndUnique(t, 5, 6, DigitsCommas);
    assert AmountEnd(t, 5) == Some(6);
    assert t[5..6] == ",";
    assert MatchAt(Cost, t, 0) == Some(",");
  }

  lemma CommaQueryCode()
    ensures Find(HtsCode, CommaQuery) == Some("1")
  {
    var t := CommaQuery;
    forall j | 0 <= j < 7 ensures MatchAt(HtsCode, t, j).None? {
      NotLitAt(t, j, "hts code");
    }
    assert t[7..15] == "hts code";
    RunEndUnique(t, 15, 16, Spaces);
    RunEndUnique(t, 16, 17, DigitsDots);
    assert t[16..17] == "1";
    assert MatchAt(HtsCode, t, 7) == Some("1");
    assert Search(HtsCode, t, 0) == Some(Hit(7, "1"));
  }

  /** As written: the comma-only cost makes `float('')` raise outside the
      `try`, so the ValueError escapes `calculate_from_query`, whatever the
      table holds. */
  lemma CommaCostEscapes(calculator: Calculator)
    ensures CalculateFromQuery(calculator, CommaQuery) == Raised(ValueError(FloatErrorMessage("")))
    ensures CalculateFromQueryCorrected(calculator, CommaQuery) == Answer(Alert + FloatErrorMessage(""))
  {
    CommaQueryCaptures();
    assert RemoveCommas(",") == "";
    assert ExtractFields(CommaQuery) == Broken(ValueError(FloatErrorMessage("")));
  }

  /** Corrected `calculate_from_query`: conversion errors of the extraction
      are reported like those of the calculation, and the calculation is the
      corrected one. */
  function CalculateFromQueryCorrected(calculator: Calculator, query: string): (r: Reply)
    ensures !r.Raised?
    ensures ExtractFields(query).Unparsed? ==> r == Answer(UnparsedText)
    ensures ExtractFields(query).Broken? ==> r == Answer(Alert + ExtractFields(query).error.message)
  {
    match ExtractFields(query)
    case Unparsed => Answer(UnparsedText)
    case Broken(e) => Answer(Alert + e.message)
    case Extracted(f) =>
      Respond(f.code, f.cost + f.freight + f.insurance,
              CalculateCorrected(calculator, f.cost, f.freight, f.insurance, f.code, f.weight, f.quantity))
  }

  /** Wherever the code neither lets an exception escape nor divides by zero,
      the corrected front door answers exactly as the code does. */
  lemma CorrectedQueryAgrees(calculator: Calculator, query: string)
    requires !CalculateFromQuery(calculator, query).Raised?
    ensures CalculateFromQueryCorrected(calculator, query) == CalculateFromQuery(calculator, query)
  {
    match ExtractFields(query)
    case Unparsed =>
    case Broken(e) =>
    case Extracted(f) =>
      QueryAfterExtraction(calculator, query, f);
      CorrectedAgrees(calculator, f.cost, f.freight, f.insurance, f.code, f.weight, f.quantity);
  }
}
