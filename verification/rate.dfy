/** The duty-rate parser: a duty cell, the CIF value and the optional weight
    and quantity become the duty as a fraction of CIF. Parsing is split into
    classifying the text into a `RateRule` (which pattern wins, and its number)
    and turning the rule into the fraction; `SpecifiedDuty` is the absolute
    duty each rule stands for, the reference the fraction is checked against. */
module Rate {
  import opened Wrappers
  import opened Text
  import opened Numbers
  import opened Errors
  import opened Scan
  import opened Tariff

  /** The computation a duty text stands for. The specific rules carry the
      weight or quantity that made them applicable. */
  datatype RateRule =
    | Exempt                                          // "free" anywhere
    | AdValorem(percent: real)                        // N%
    | PerKg(centsPerKg: real, weightKg: real)         // N¢/kg, with a weight
    | PerUnit(dollarsPerUnit: real, quantity: int)    // $N/unit, with a quantity
    | Unrecognized                                    // silent fallback

  /** The numbers a parsed rule carries are never negative: the patterns
      capture no minus sign. */
  predicate RatesNonNegative(rule: RateRule) {
    match rule
    case AdValorem(p) => p >= 0.0
    case PerKg(c, _) => c >= 0.0
    case PerUnit(d, _) => d >= 0.0
    case _ => true
  }

  /** A rule with non-negative numbers, applied to a non-negative CIF with a
      non-negative weight or quantity, levies a non-negative duty. */
  lemma SpecifiedDutyNonNegative(rule: RateRule, cif: real)
    requires RatesNonNegative(rule) && cif >= 0.0
    requires rule.PerKg? ==> rule.weightKg >= 0.0
    requires rule.PerUnit? ==> rule.quantity >= 0
    ensures SpecifiedDuty(rule, cif) >= 0.0
  {
    match rule
    case AdValorem(p) => NonNegativeProduct(p / 100.0, cif);
    case PerKg(c, w) => NonNegativeProduct(c, w);
    case PerUnit(d, q) => NonNegativeProduct(d, q as real);
    case _ =>
  }

  lemma NonNegativeProduct(a: real, b: real)
    requires a >= 0.0 && b >= 0.0
    ensures a * b >= 0.0
  {
  }

  /** The duty, in currency, a rule levies on a shipment of value `cif`: the
      numerators of the documented examples, before they are divided by CIF. */
  function SpecifiedDuty(rule: RateRule, cif: real): real
  {
    match rule
    case Exempt => 0.0
    case AdValorem(p) => p / 100.0 * cif
    case PerKg(c, w) => c * w / 100.0
    case PerUnit(d, q) => d * q as real
    case Unrecognized => 0.0
  }

  /** `float(tok)` on a captured token, raising ValueError when Python would. */
  function ToFloat(tok: string): (r: Result<real, PyError>)
    requires AllIn(tok, 0, |tok|, DigitsDots)
    ensures r.Success? <==> IsDecimal(tok)
    ensures r.Success? ==> Some(r.value) == ParseFloat(tok) && r.value >= 0.0
    ensures r.Failure? ==> r.error == ValueError(FloatErrorMessage(tok))
  {
    match ParseFloat(tok)
    case Some(v) => Success(v)
    case None => Failure(ValueError(FloatErrorMessage(tok)))
  }

  /** The patterns of the duty text tried in their fixed order; a specific
      pattern only counts when the value it needs was given, and its number
      is converted only then. */
  function Classify(cell: Cell, weight: Option<real>, quantity: Option<int>): (r: Result<RateRule, PyError>)
    ensures cell.NonStr? || cell == Str("") ==> r == Success(Unrecognized)
    ensures cell.Str? && Contains(Lower(cell.text), "free") ==> r == Success(Exempt)
    ensures r.Success? && r.value.PerKg? ==> weight == Some(r.value.weightKg)
    ensures r.Success? && r.value.PerUnit? ==> quantity == Some(r.value.quantity)
    ensures r.Success? && r.value.Exempt? ==> cell.Str? && Contains(Lower(cell.text), "free")
    ensures r.Success? ==> RatesNonNegative(r.value)
    ensures r.Failure? ==> r.error.ValueError? && IsFloatErrorMessage(r.error.message)
  {
    match cell
    case NonStr => Success(Unrecognized)
    case Str(s) =>
      if s == "" then Success(Unrecognized)
      else
        var t := Lower(s);
        if Contains(t, "free") then Success(Exempt)
        else ClassifyText(t, weight, quantity)
  }

  /** Classification of a lower-cased, non-empty text that does not contain "free". */
  function ClassifyText(t: string, weight: Option<real>, quantity: Option<int>): (r: Result<RateRule, PyError>)
    ensures r.Success? && r.value.PerKg? ==> weight == Some(r.value.weightKg)
    ensures r.Success? && r.value.PerUnit? ==> quantity == Some(r.value.quantity)
    ensures r.Success? ==> !r.value.Exempt?
    ensures r.Success? ==> RatesNonNegative(r.value)
    ensures r.Failure? ==> r.error.ValueError? && IsFloatErrorMessage(r.error.message)
  {
    match Find(Percent, t)
    case Some(tok) =>
      var v :- ToFloat(tok);
      Success(AdValorem(v))
    case None =>
      var kg := Find(CentsPerKg, t);
      if kg.Some? && weight.Some? then
        var v :- ToFloat(kg.value);
        Success(PerKg(v, weight.value))
      else
        var unit := Find(DollarsPerUnit, t);
        if unit.Some? && quantity.Some? then
          var v :- ToFloat(unit.value);
          Success(PerUnit(v, quantity.value))
        else Success(Unrecognized)
  }

  /** The fraction of CIF a rule yields. The specific rules divide by `cif`,
      which raises ZeroDivisionError when it is zero. */
  function Fraction(rule: RateRule, cif: real): (r: Result<real, PyError>)
    ensures r.Failure? <==> cif == 0.0 && (rule.PerKg? || rule.PerUnit?)
    ensures r.Failure? ==> r.error == ZeroDivisionError
  {
    match rule
    case Exempt => Success(0.0)
    case AdValorem(p) => Success(p / 100.0)
    case PerKg(c, w) => if cif == 0.0 then Failure(ZeroDivisionError) else Success((c * w / 100.0) / cif)
    case PerUnit(d, q) => if cif == 0.0 then Failure(ZeroDivisionError) else Success((d * q as real) / cif)
    case Unrecognized => Success(0.0)
  }

  /** `parse_duty_advanced(duty_str, cif, wt, qty)`. */
  function ParseDuty(cell: Cell, cif: real, weight: Option<real>, quantity: Option<int>): (r: Result<real, PyError>)
    ensures r.Failure? ==> r.error == ZeroDivisionError || (r.error.ValueError? && IsFloatErrorMessage(r.error.message))
    ensures r.Success? ==> Classify(cell, weight, quantity).Success?
    ensures r.Failure? && r.error == ZeroDivisionError ==>
      cif == 0.0 && Classify(cell, weight, quantity).Success?
      && (Classify(cell, weight, quantity).value.PerKg? || Classify(cell, weight, quantity).value.PerUnit?)
  {
    match Classify(cell, weight, quantity)
    case Failure(e) => Failure(e)
    case Success(rule) =>
      Fraction(rule, cif)
  }

  /** The parsed fraction times CIF is the duty the classified rule levies:
      the percentage of CIF, cents per kilogram times the weight, dollars per
      unit times the quantity, or nothing. */
  lemma ParseDutyLevies(cell: Cell, cif: real, weight: Option<real>, quantity: Option<int>,
                        rule: RateRule, f: real)
    requires Classify(cell, weight, quantity) == Success(rule)
    requires ParseDuty(cell, cif, weight, quantity) == Success(f)
    ensures f * cif == SpecifiedDuty(rule, cif)
  {
    ParseDutyIsFraction(cell, cif, weight, quantity, rule);
    FractionLevies(rule, cif, f);
  }

  lemma ParseDutyIsFraction(cell: Cell, cif: real, weight: Option<real>, quantity: Option<int>, rule: RateRule)
    requires Classify(cell, weight, quantity) == Success(rule)
    ensures ParseDuty(cell, cif, weight, quantity) == Fraction(rule, cif)
  {
  }

  lemma AdValoremFraction(cell: Cell, cif: real, weight: Option<real>, quantity: Option<int>, p: real)
    requires Classify(cell, weight, quantity) == Success(AdValorem(p))
    ensures ParseDuty(cell, cif, weight, quantity) == Success(p / 100.0)
  {
    ParseDutyIsFraction(cell, cif, weight, quantity, AdValorem(p));
    AdValoremOfCif(p, cif);
  }

  lemma AdValoremOfCif(p: real, cif: real)
    ensures Fraction(AdValorem(p), cif) == Success(p / 100.0)
  {
  }

  lemma FractionLevies(rule: RateRule, cif: real, f: real)
    requires Fraction(rule, cif) == Success(f)
    ensures f * cif == SpecifiedDuty(rule, cif)
  {
    match rule
    case PerKg(c, w) => DivisionCancels(c * w / 100.0, cif);
    case PerUnit(d, q) => DivisionCancels(d * q as real, cif);
    case _ =>
  }

  lemma DivisionCancels(a: real, b: real)
    requires b != 0.0
    ensures (a / b) * b == a
  {
  }
}
