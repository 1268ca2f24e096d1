/** The end-to-end example of the calculator: a live-animal heading at 2 %
    ad valorem, a shipment of cost 10,000, freight 500 and insurance 100. */
module Scenarios {
  import opened Wrappers
  import opened Text
  import opened Numbers
  import opened Errors
  import opened Tariff
  import opened Rate
  import opened RateProperties
  import opened Money
  import opened Engine
  import opened Fixes

  function TwoPercentTable(): Table {
    Table(["HTS_Code", "Description", "Duty"],
          [map["HTS_Code" := Str("0101.30.00.00"), "Description" := Str("Asses"), "Duty" := Str("2%")]])
  }

  lemma TwoPercentClassified(weight: Option<real>, quantity: Option<int>)
    ensures Classify(Str("2%"), weight, quantity) == Success(AdValorem(2.0))
  {
    ParseFloatWhole("2");
    assert "2"[..0] == "";
    assert "2" + "%" + "" == "2%";
    NoFreeWithoutF("2" + "%" + "");
    PercentLeads("2", "", weight, quantity);
  }

  /** CIF 10,600 at 2 % levies 212, whatever weight or quantity is given. */
  lemma TwoPercentOfCif(weight: Option<real>, quantity: Option<int>)
    ensures NewCalculator(TwoPercentTable()).Success?
    ensures Calculate(NewCalculator(TwoPercentTable()).value, 10000.0, 500.0, 100.0, "0101.30.00.00", weight, quantity)
         == Success(212.0)
  {
    var calculator := Calculator(TwoPercentTable(), Schema("HTS_Code", "Duty"));
    assert NewCalculator(TwoPercentTable()) == Success(calculator);
    assert FirstRowFor(calculator, "0101.30.00.00", 0);
    TwoPercentClassified(weight, quantity);
    CalculateApplies(calculator, 10000.0, 500.0, 100.0, "0101.30.00.00", weight, quantity, 0, AdValorem(2.0));
  }

  /** The report shows the CIF as "10,600.00" and the duty as "212.00". */
  lemma TwoPercentReport()
    ensures FormatAmount(10600.0) == "10,600.00"
    ensures FormatAmount(212.0) == "212.00"
  {
    CifShown();
    DutyShown();
    Joined();
  }

  lemma Joined()
    ensures "10,600" + "." + "00" == "10,600.00"
    ensures "212" + "." + "00" == "212.00"
  {
  }

  lemma CifShown()
    ensures FormatAmount(10600.0) == "10,600" + "." + "00"
  {
    assert RoundHalfEven(10600.0 * 100.0) == 1060000;
    assert 1060000 / 100 == 10600 && 1060000 % 100 == 0;
    Digits10600();
    Group10600();
    assert TwoDigits(0) == "00";
  }

  lemma DutyShown()
    ensures FormatAmount(212.0) == "212" + "." + "00"
  {
    assert RoundHalfEven(212.0 * 100.0) == 21200;
    assert 21200 / 100 == 212 && 21200 % 100 == 0;
    Digits212();
    assert GroupThousands("212") == "212";
    assert TwoDigits(0) == "00";
  }

  lemma Digits10600()
    ensures NatToDigits(10600) == "10600"
  {
    assert NatToDigits(1) == "1";
    assert NatToDigits(10) == "10";
    assert NatToDigits(106) == "106";
    assert NatToDigits(1060) == "1060";
  }

  lemma Digits212()
    ensures NatToDigits(212) == "212"
  {
    assert NatToDigits(2) == "2";
    assert NatToDigits(21) == "21";
  }

  lemma Group10600()
    ensures GroupThousands("10600") == "10,600"
  {
    assert "10600"[..2] == "10" && "10600"[2..] == "600";
    assert GroupThousands("10") == "10";
  }

  // ---------------------------------------------------------------------
  // The examples of the parser's documentation

  /** The four documented examples read as the documented rules and levy the
      documented amounts: "free" nothing, "5%" five hundredths of CIF,
      "10¢/kg" a tenth of a dollar per kilogram and "$2.50/unit" 2.50 dollars
      per unit. `ParseDutyLevies` ties each parsed fraction to that amount. */
  lemma DocumentedExamples(cif: real, wt: real, qty: int)
    ensures Classify(Str("free"), None, None) == Success(Exempt)
    ensures Classify(Str("5%"), None, None) == Success(AdValorem(5.0))
    ensures Classify(Str("10¢/kg"), Some(wt), None) == Success(PerKg(10.0, wt))
    ensures Classify(Str("$2.50/unit"), None, Some(qty)) == Success(PerUnit(2.5, qty))
    ensures SpecifiedDuty(Exempt, cif) == 0.0
    ensures SpecifiedDuty(AdValorem(5.0), cif) == 0.05 * cif
    ensures SpecifiedDuty(PerKg(10.0, wt), cif) == wt / 10.0
    ensures SpecifiedDuty(PerUnit(2.5, qty), cif) == 2.5 * qty as real
  {
    FreeClassified();
    FivePercentClassified();
    PerKgRowClassified(wt);
    PerUnitClassified(qty);
  }

  /** In a compound text the percentage decides even when a specific rate
      comes first: "1.8¢/kg + 5%" is 5 percent ad valorem, weight or not. */
  lemma CompoundPercentWins(weight: Option<real>, quantity: Option<int>)
    ensures Classify(Str("1.8¢/kg + 5%"), weight, quantity) == Success(AdValorem(5.0))
  {
    FiveRead();
    assert "1.8¢/kg + " + "5" + "%" == "1.8¢/kg + 5%";
    PercentAfterDecides("1.8¢/kg + ", "5", 5.0, weight, quantity);
  }

  /** With a weight, "10¢/kg or $2/unit" is the cents-per-kilogram rate,
      whatever quantity is given. */
  lemma CentsBeforeDollars(wt: real, quantity: Option<int>)
    ensures Classify(Str("10¢/kg or $2/unit"), Some(wt), quantity) == Success(PerKg(10.0, wt))
  {
    TenRead();
    assert "10" + "¢/kg" + " or $2/unit" == "10¢/kg or $2/unit";
    CentsFirst("10", 10.0, " or $2/unit", wt, quantity);
  }

  /** Without a weight, "10¢/kg or $2/unit" falls through to the dollar rate:
      2 dollars per unit of the quantity. */
  lemma DollarsWithoutWeight(qty: int)
    ensures Classify(Str("10¢/kg or $2/unit"), None, Some(qty)) == Success(PerUnit(2.0, qty))
  {
    TwoRead();
    assert "10¢/kg or " + "$" + "2" + "/unit" == "10¢/kg or $2/unit";
    DollarsAfterDecides("10¢/kg or ", "2", 2.0, qty);
  }

  /** A "%" apart from its number is no percentage: "100 % cotton" gives 0.0
      whatever the weight and quantity. */
  lemma SpacedPercentIsZero(cif: real, weight: Option<real>, quantity: Option<int>)
    ensures ParseDuty(Str("100 % cotton"), cif, weight, quantity) == Success(0.0)
  {
    var s := "100 % cotton";
    LowerFixed(s);
    assert s[4] == '%' && s[3] == ' ';
    PercentNeedsToken(s);
    NoCentsWithoutSign(s);
    NoDollarsWithoutSign(s);
    FallbackIsZero(s, cif, weight, quantity);
  }

  lemma TwoRead()
    ensures AllIn("2", 0, 1, DigitsDots)
    ensures ParseFloat("2") == Some(2.0)
  {
    ParseFloatWhole("2");
    SmallDigits();
  }

  lemma TenRead()
    ensures AllIn("10", 0, 2, DigitsDots)
    ensures ParseFloat("10") == Some(10.0)
  {
    ParseFloatWhole("10");
    assert DigitsValue("10") == 10 by {
      assert "10"[..1] == "1";
    }
  }

  /** "free" parses to a zero fraction whatever the CIF. */
  lemma FreeExample(cif: real)
    ensures ParseDuty(Str("free"), cif, None, None) == Success(0.0)
  {
    assert "" + "free" + "" == "free";
    LowerFixed("free");
    FreeWins("", "free", "", cif, None, None);
  }

  lemma FreeClassified()
    ensures Classify(Str("free"), None, None) == Success(Exempt)
  {
    FreeExample(0.0);
  }

  lemma FivePercentClassified()
    ensures Classify(Str("5%"), None, None) == Success(AdValorem(5.0))
  {
    FiveRead();
    assert "5" + "%" == "5%";
    PercentClassified("5", 5.0, None, None);
  }

  lemma FiveRead()
    ensures AllIn("5", 0, 1, DigitsDots)
    ensures ParseFloat("5") == Some(5.0)
  {
    ParseFloatWhole("5");
    SmallDigits();
  }

  /** The values of the digit strings the examples use. */
  lemma SmallDigits()
    ensures AllDigits("2") && DigitsValue("2") == 2
    ensures AllDigits("5") && DigitsValue("5") == 5
    ensures AllDigits("50") && DigitsValue("50") == 50
  {
    assert "2"[..0] == "" && "5"[..0] == "" && "50"[..1] == "5";
  }

  lemma PerUnitClassified(qty: int)
    ensures Classify(Str("$2.50/unit"), None, Some(qty)) == Success(PerUnit(2.5, qty))
  {
    TwoFifty();
    DollarsOnly("2.50", 2.5, None, qty);
    PerUnitText();
  }

  lemma PerUnitText()
    ensures "$" + "2.50" + "/unit" == "$2.50/unit"
  {
  }

  lemma TwoFifty()
    ensures AllIn("2.50", 0, 4, DigitsDots)
    ensures ParseFloat("2.50") == Some(2.5)
  {
    ParseFloatPoint("2", "50");
    assert "2" + "." + "50" == "2.50";
    SmallDigits();
    TwoAndAHalf();
  }

  lemma TwoAndAHalf()
    ensures 2 as real + 50 as real / Pow10(2) as real == 2.5
  {
    assert Pow10(2) == 100;
  }
}
