/** A free-text query taken through `calculate_from_query`, start to finish:
    "HTS code 0101.30.00.00, cost 10,000, freight 500, insurance 100,
    weight 500 kg, quantity 5" against the 2 % live-animal table. The query
    is built clause by clause, each clause followed by the rest of the
    sentence, so that every search can be followed from the start of the
    text to its first match. */
module QueryScenario {
  import opened Wrappers
  import opened Text
  import opened Numbers
  import opened Scan
  import opened Engine
  import opened Scenarios
  import opened QueryProperties

  // ---------------------------------------------------------------------
  // The sentence, lower-cased, one clause at a time

  function WeightClause(): string { "500" + " " + "kg" + ", quantity 5" }
  function WeightWord(): string { "weight " + WeightClause() }
  function InsuranceClause(): string { "insurance 100, " + WeightWord() }
  function FreightClause(): string { "freight 500, " + InsuranceClause() }
  function CostClause(): string { "cost 10,000, " + FreightClause() }
  function CodeClause(): string { " code" + " " + "0101.30.00.00" + (", " + CostClause()) }

  /** The query as a user types it. */
  function Query(): string { "HTS" + CodeClause() }

  /** The text the patterns search. */
  function Lowered(): string { "hts" + CodeClause() }

  lemma QueryLowered()
    ensures Lower(Query()) == Lowered()
  {
    LowerConcat("HTS", CodeClause());
    assert Lower("HTS") == "hts";
    CodeClauseLower();
  }

  /** No upper-case letter. */
  predicate NoUpper(s: string) {
    forall x :: 0 <= x < |s| ==> !('A' <= s[x] <= 'Z')
  }

  lemma NoUpperJoin(a: string, b: string)
    requires NoUpper(a) && NoUpper(b)
    ensures NoUpper(a + b)
  {
  }

  lemma CodeClauseLower()
    ensures Lower(CodeClause()) == CodeClause()
  {
    assert NoUpper(WeightClause());
    NoUpperJoin("weight ", WeightClause());
    NoUpperJoin("insurance 100, ", WeightWord());
    NoUpperJoin("freight 500, ", InsuranceClause());
    NoUpperJoin("cost 10,000, ", FreightClause());
    NoUpperJoin(", ", CostClause());
    NoUpperJoin(" code" + " " + "0101.30.00.00", ", " + CostClause());
    LowerFixed(CodeClause());
  }

  /** The code clause read from its start: "hts code", a space, the code. */
  lemma CodeShape()
    ensures Lowered() == "hts code" + " " + "0101.30.00.00" + (", " + CostClause())
    ensures Lowered() == "hts code 0101.30.00.00, " + CostClause()
  {
  }

  // ---------------------------------------------------------------------
  // Clauses that hold no match

  /** A head none of whose characters opens `p`. */
  lemma HeadClosed(p: Pattern, h: string, rest: string)
    requires forall x :: 0 <= x < |h| ==> !Opens(p, h[x])
    ensures NoneIn(p, h + rest, 0, |h|)
  {
    ClosedStretch(p, h + rest, 0, |h|);
  }

  /** A head whose only digits and commas form one run `h[lo..hi]`, followed
      by spaces up to the end of the head, before a tail that does not begin
      with a unit: no weight and no quantity starts in the head. */
  lemma NoAmountInHead(p: Pattern, h: string, rest: string, lo: nat, hi: nat)
    requires p.Weight? || p.Quantity?
    requires lo <= hi < |h|
    requires forall x :: 0 <= x < lo ==> !InClass(h[x], DigitsCommas)
    requires forall x :: lo <= x < hi ==> NumberChar(h[x])
    requires forall x :: hi <= x < |h| ==> IsSpace(h[x])
    requires 0 < |rest| && !IsSpace(rest[0]) && rest[0] != 'k' && rest[0] != 'u'
    ensures NoneIn(p, h + rest, 0, |h|)
  {
    var t := h + rest;
    ClosedStretch(p, t, 0, lo);
    ClosedStretch(p, t, hi, |h|);
    assert AllIn(t, hi, |h|, Spaces);
    RunEndUnique(t, hi, |h|, Spaces);
    NotLitAt(t, |h|, "kg");
    NotLitAt(t, |h|, "unit");
    if p.Weight? {
      NoWeightInRun(t, lo, hi);
    } else {
      NoQuantityInRun(t, lo, hi);
    }
  }

  /** "code" is not "cost", and no other cost keyword starts at its 'c'. */
  lemma NoCostInCodeHead(rest: string)
    ensures NoneIn(Cost, "hts code 0101.30.00.00, " + rest, 0, 24)
  {
    var t := "hts code 0101.30.00.00, " + rest;
    assert t[4] == 'c' && t[6] == 'd';
    ClosedStretch(Cost, t, 0, 4);
    ClosedStretch(Cost, t, 5, 24);
    LitAtDiffers(t, 4, "cost", 2);
    NotLitAt(t, 4, "product cost");
    NotLitAt(t, 4, "fob cost");
    NoKeywordAt(Cost, t, 4);
  }

  /** The 'i' of "freight" does not open "insurance". */
  lemma NoInsuranceInFreightHead()
    ensures NoneIn(Insurance, FreightClause(), 0, 13)
  {
    var t := FreightClause();
    ClosedStretch(Insurance, t, 0, 3);
    ClosedStretch(Insurance, t, 4, 13);
    LitAtDiffers(t, 3, "insurance", 1);
    NoKeywordAt(Insurance, t, 3);
  }

  /** Neither "freight" nor "insurance" is spelled before the cost amount. */
  lemma NoFreightInCodeHead(rest: string)
    ensures NoneIn(Freight, "hts code 0101.30.00.00, " + rest, 0, 24)
  {
    ClosedStretch(Freight, "hts code 0101.30.00.00, " + rest, 0, 24);
  }

  lemma NoInsuranceInCodeHead(rest: string)
    ensures NoneIn(Insurance, "hts code 0101.30.00.00, " + rest, 0, 24)
  {
    ClosedStretch(Insurance, "hts code 0101.30.00.00, " + rest, 0, 24);
  }

  lemma NoFreightInCostHead()
    ensures NoneIn(Freight, CostClause(), 0, 13)
  {
    HeadClosed(Freight, "cost 10,000, ", FreightClause());
  }

  lemma NoInsuranceInCostHead()
    ensures NoneIn(Insurance, CostClause(), 0, 13)
  {
    HeadClosed(Insurance, "cost 10,000, ", FreightClause());
  }

  /** The code and the three amounts before the weight are not followed by
      a unit, and "weight " holds no digit. */
  lemma NoAmountInCodeHead(p: Pattern)
    requires p.Weight? || p.Quantity?
    ensures NoneIn(p, "hts code 0101.30.00.00, " + CostClause(), 0, 24)
  {
    NoAmountInHead(p, "hts code 0101.30.00.00, ", CostClause(), 9, 23);
  }

  lemma NoAmountInCostHead(p: Pattern)
    requires p.Weight? || p.Quantity?
    ensures NoneIn(p, CostClause(), 0, 13)
  {
    NoAmountInHead(p, "cost 10,000, ", FreightClause(), 5, 12);
  }

  lemma NoAmountInFreightHead(p: Pattern)
    requires p.Weight? || p.Quantity?
    ensures NoneIn(p, FreightClause(), 0, 13)
  {
    NoAmountInHead(p, "freight 500, ", InsuranceClause(), 8, 12);
  }

  lemma NoAmountInInsuranceHead(p: Pattern)
    requires p.Weight? || p.Quantity?
    ensures NoneIn(p, InsuranceClause(), 0, 15)
  {
    NoAmountInHead(p, "insurance 100, ", WeightWord(), 10, 14);
  }

  lemma NoAmountInWeightWord(p: Pattern)
    requires p.Weight? || p.Quantity?
    ensures NoneIn(p, WeightWord(), 0, 7)
  {
    HeadClosed(p, "weight ", WeightClause());
  }

  /** "500 kg, quantity 5" holds no quantity: the 500 is in kilograms, the
      comma is followed by a word, and the final 5 has no unit. */
  lemma NoQuantityInWeightClause()
    ensures NoneIn(Quantity, WeightClause(), 0, |WeightClause()| + 1)
  {
    NoQuantityInKilograms();
    NoQuantityAfterKilograms();
  }

  lemma NoQuantityInKilograms()
    ensures NoneIn(Quantity, WeightClause(), 0, 7)
  {
    var t := WeightClause();
    RunEndUnique(t, 3, 4, Spaces);
    NotLitAt(t, 4, "unit");
    NoQuantityInRun(t, 0, 3);
    ClosedStretch(Quantity, t, 3, 6);
    RunEndUnique(t, 7, 8, Spaces);
    NotLitAt(t, 8, "unit");
    NoQuantityInRun(t, 6, 7);
  }

  lemma NoQuantityAfterKilograms()
    ensures NoneIn(Quantity, WeightClause(), 7, 19)
  {
    var t := WeightClause();
    ClosedStretch(Quantity, t, 7, 17);
    RunEndUnique(t, 18, 18, Spaces);
    NoQuantityInRun(t, 17, 18);
    NoneAtEnd(Quantity, t);
  }

  // ---------------------------------------------------------------------
  // The six searches

  /** A keyword clause "<keyword> <amount> " before the rest of the text
      captures the amount at its start. */
  lemma KeywordClause(p: Pattern, n: nat, head: string, g: string, rest: string)
    requires p.Cost? || p.Freight? || p.Insurance?
    requires n < |Keywords(p)|
    requires head == Keywords(p)[n] + " " + g + " "
    requires EndsAmount(g, " " + rest)
    ensures FirstAt(p, head + rest, 0, g)
  {
    KeywordAmountAtStart(p, n, " ", "", g, " " + rest);
    Regroup(Keywords(p)[n], g, rest);
  }

  lemma Regroup(kw: string, g: string, rest: string)
    ensures kw + " " + g + " " + rest == kw + " " + "" + g + (" " + rest)
  {
    assert kw + " " + "" == kw + " ";
  }

  lemma CostFirst()
    ensures FirstAt(Cost, CostClause(), 0, "10,000,")
  {
    assert Keywords(Cost)[0] == "cost";
    KeywordClause(Cost, 0, "cost 10,000, ", "10,000,", FreightClause());
  }

  lemma FreightFirst()
    ensures FirstAt(Freight, FreightClause(), 0, "500,")
  {
    assert Keywords(Freight)[0] == "freight";
    KeywordClause(Freight, 0, "freight 500, ", "500,", InsuranceClause());
  }

  lemma InsuranceFirst()
    ensures FirstAt(Insurance, InsuranceClause(), 0, "100,")
  {
    assert Keywords(Insurance)[0] == "insurance";
    KeywordClause(Insurance, 0, "insurance 100, ", "100,", WeightWord());
  }

  /** The search over a text is the search over any spelling of it. */
  lemma FindAt(p: Pattern, u: string, t: string, k: nat, g: string)
    requires t == u && FirstAt(p, u, k, g)
    ensures Find(p, t) == Some(g)
  {
    FindFirstAt(p, u, k, g);
  }

  lemma CodeFound()
    ensures Find(HtsCode, Lowered()) == Some("0101.30.00.00")
  {
    CodeShape();
    CodeAtStart(" ", "0101.30.00.00", ", " + CostClause());
    FindFirstAt(HtsCode, Lowered(), 0, "0101.30.00.00");
  }

  lemma CostInText()
    ensures FirstAt(Cost, "hts code 0101.30.00.00, " + CostClause(), 24, "10,000,")
  {
    CostFirst();
    NoCostInCodeHead(CostClause());
    FirstAtShift(Cost, "hts code 0101.30.00.00, ", CostClause(), 0, "10,000,");
  }

  lemma CostFound()
    ensures Find(Cost, Lowered()) == Some("10,000,")
  {
    CostInText();
    CodeShape();
    FindAt(Cost, "hts code 0101.30.00.00, " + CostClause(), Lowered(), 24, "10,000,");
  }

  lemma FreightInCostClause()
    ensures FirstAt(Freight, CostClause(), 13, "500,")
  {
    FreightFirst();
    NoFreightInCostHead();
    FirstAtShift(Freight, "cost 10,000, ", FreightClause(), 0, "500,");
  }

  lemma FreightInText()
    ensures FirstAt(Freight, "hts code 0101.30.00.00, " + CostClause(), 37, "500,")
  {
    FreightInCostClause();
    NoFreightInCodeHead(CostClause());
    FirstAtShift(Freight, "hts code 0101.30.00.00, ", CostClause(), 13, "500,");
  }

  lemma FreightFound()
    ensures Find(Freight, Lowered()) == Some("500,")
  {
    FreightInText();
    CodeShape();
    FindAt(Freight, "hts code 0101.30.00.00, " + CostClause(), Lowered(), 37, "500,");
  }

  lemma InsuranceInFreightClause()
    ensures FirstAt(Insurance, FreightClause(), 13, "100,")
  {
    InsuranceFirst();
    NoInsuranceInFreightHead();
    FirstAtShift(Insurance, "freight 500, ", InsuranceClause(), 0, "100,");
  }

  lemma InsuranceInCostClause()
    ensures FirstAt(Insurance, CostClause(), 26, "100,")
  {
    InsuranceInFreightClause();
    NoInsuranceInCostHead();
    FirstAtShift(Insurance, "cost 10,000, ", FreightClause(), 13, "100,");
  }

  lemma InsuranceInText()
    ensures FirstAt(Insurance, "hts code 0101.30.00.00, " + CostClause(), 50, "100,")
  {
    InsuranceInCostClause();
    NoInsuranceInCodeHead(CostClause());
    FirstAtShift(Insurance, "hts code 0101.30.00.00, ", CostClause(), 26, "100,");
  }

  lemma InsuranceFound()
    ensures Find(Insurance, Lowered()) == Some("100,")
  {
    InsuranceInText();
    CodeShape();
    FindAt(Insurance, "hts code 0101.30.00.00, " + CostClause(), Lowered(), 50, "100,");
  }

  lemma WeightInWeightWord()
    ensures FirstAt(Weight, WeightWord(), 7, "500")
  {
    WeightAtStart("500", " ", ", quantity 5");
    NoAmountInWeightWord(Weight);
    FirstAtShift(Weight, "weight ", WeightClause(), 0, "500");
  }

  lemma WeightInInsuranceClause()
    ensures FirstAt(Weight, InsuranceClause(), 22, "500")
  {
    WeightInWeightWord();
    NoAmountInInsuranceHead(Weight);
    FirstAtShift(Weight, "insurance 100, ", WeightWord(), 7, "500");
  }

  lemma WeightInFreightClause()
    ensures FirstAt(Weight, FreightClause(), 35, "500")
  {
    WeightInInsuranceClause();
    NoAmountInFreightHead(Weight);
    FirstAtShift(Weight, "freight 500, ", InsuranceClause(), 22, "500");
  }

  lemma WeightInCostClause()
    ensures FirstAt(Weight, CostClause(), 48, "500")
  {
    WeightInFreightClause();
    NoAmountInCostHead(Weight);
    FirstAtShift(Weight, "cost 10,000, ", FreightClause(), 35, "500");
  }

  lemma WeightInText()
    ensures FirstAt(Weight, "hts code 0101.30.00.00, " + CostClause(), 72, "500")
  {
    WeightInCostClause();
    NoAmountInCodeHead(Weight);
    FirstAtShift(Weight, "hts code 0101.30.00.00, ", CostClause(), 48, "500");
  }

  lemma WeightFound()
    ensures Find(Weight, Lowered()) == Some("500")
  {
    WeightInText();
    CodeShape();
    FindAt(Weight, "hts code 0101.30.00.00, " + CostClause(), Lowered(), 72, "500");
  }

  lemma QuantityNotInInsuranceClause()
    ensures NoneIn(Quantity, InsuranceClause(), 0, |InsuranceClause()| + 1)
  {
    NoQuantityInWeightClause();
    NoAmountInWeightWord(Quantity);
    NoneInJoin(Quantity, "weight ", WeightClause());
    NoAmountInInsuranceHead(Quantity);
    NoneInJoin(Quantity, "insurance 100, ", WeightWord());
  }

  lemma QuantityNotInCostClause()
    ensures NoneIn(Quantity, CostClause(), 0, |CostClause()| + 1)
  {
    QuantityNotInInsuranceClause();
    NoAmountInFreightHead(Quantity);
    NoneInJoin(Quantity, "freight 500, ", InsuranceClause());
    NoAmountInCostHead(Quantity);
    NoneInJoin(Quantity, "cost 10,000, ", FreightClause());
  }

  lemma QuantityMissing()
    ensures Find(Quantity, Lowered()).None?
  {
    QuantityNotInCostClause();
    NoAmountInCodeHead(Quantity);
    NoneInJoin(Quantity, "hts code 0101.30.00.00, ", CostClause());
    CodeShape();
    FindNowhere(Quantity, Lowered());
  }

  /** The six captures of the query: the code, the three amounts with the
      comma that follows each, the weight, and no quantity. */
  lemma QueryCaptures()
    ensures Capture(Query()) == QueryGroups()
  {
    QueryLowered();
    CodeFound();
    CostFound();
    FreightFound();
    InsuranceFound();
    WeightFound();
    QuantityMissing();
  }

  // ---------------------------------------------------------------------
  // The captures read as numbers, and the reply

  lemma TenThousandRead()
    ensures RemoveCommas("10,000,") == "10000"
    ensures ParseFloat("10000") == Some(10000.0)
  {
    TenThousandUncomma();
    TenThousandValue();
    ParseFloatWhole("10000");
  }

  lemma TenThousandUncomma()
    ensures RemoveCommas("10,000,") == "10000"
  {
    assert "10,000," == "10" + ("," + ("000" + ","));
    TenThousandPieces();
    assert "10" + "000" == "10000";
  }

  lemma TenThousandPieces()
    ensures RemoveCommas("10" + ("," + ("000" + ","))) == "10" + "000"
  {
    RemoveCommasConcat("10", "," + ("000" + ","));
    RemoveCommasConcat(",", "000" + ",");
    RemoveCommasConcat("000", ",");
    assert RemoveCommas(",") == "";
  }

  lemma TenThousandValue()
    ensures AllDigits("10000") && DigitsValue("10000") == 10000
  {
    assert "1"[..0] == "";
    DigitsValueSnoc("1", '0');
    assert "1" + ['0'] == "10";
    DigitsValueSnoc("10", '0');
    assert "10" + ['0'] == "100";
    DigitsValueSnoc("100", '0');
    assert "100" + ['0'] == "1000";
    DigitsValueSnoc("1000", '0');
    assert "1000" + ['0'] == "10000";
  }

  /** A three-digit whole amount followed by a comma. */
  lemma HundredsRead(d: string, n: nat)
    requires |d| == 3 && AllDigits(d)
    requires n == DigitValue(d[0]) * 100 + DigitValue(d[1]) * 10 + DigitValue(d[2])
    ensures RemoveCommas(d + ",") == d && RemoveCommas(d) == d
    ensures ParseFloat(d) == Some(n as real)
  {
    RemoveCommasConcat(d, ",");
    assert RemoveCommas(",") == "";
    ParseFloatWhole(d);
    assert d[..2][..1] == d[..1];
    assert DigitsValue(d[..1]) == DigitValue(d[0]) by {
      assert d[..1][..0] == "";
    }
  }

  /** The six captures of the query. */
  function QueryGroups(): Captured {
    Captured(Some("0101.30.00.00"), Some("10,000,"), Some("500,"), Some("100,"), Some("500"), None)
  }

  /** Each amount capture read as Python reads it. */
  lemma GroupsRead(c: Captured)
    requires c == QueryGroups() && WellFormed(c)
    ensures FloatOfGroup(c.cost.value) == Success(10000.0)
    ensures OptionalFloat(c.freight, Some(0.0)) == Success(Some(500.0))
    ensures OptionalFloat(c.insurance, Some(0.0)) == Success(Some(100.0))
    ensures OptionalFloat(c.weight, None) == Success(Some(500.0))
  {
    CostGroupRead(c);
    FiveHundredRead();
    FloatReads(c.freight.value, "500", 500.0);
    FloatReads(c.weight.value, "500", 500.0);
    HundredRead();
    FloatReads(c.insurance.value, "100", 100.0);
  }

  lemma CostGroupRead(c: Captured)
    requires c == QueryGroups() && WellFormed(c)
    ensures FloatOfGroup(c.cost.value) == Success(10000.0)
  {
    TenThousandRead();
    FloatReads(c.cost.value, "10000", 10000.0);
  }

  lemma FiveHundredRead()
    ensures RemoveCommas("500,") == "500" && RemoveCommas("500") == "500"
    ensures AllIn("500", 0, 3, DigitsDots) && ParseFloat("500") == Some(500.0)
  {
    HundredsRead("500", 500);
    assert "500" + "," == "500,";
  }

  lemma HundredRead()
    ensures RemoveCommas("100,") == "100"
    ensures AllIn("100", 0, 3, DigitsDots) && ParseFloat("100") == Some(100.0)
  {
    HundredsRead("100", 100);
    assert "100" + "," == "100,";
  }

  /** A capture whose comma-free text parses to `v` converts to `v`. */
  lemma FloatReads(g: string, tok: string, v: real)
    requires forall x :: 0 <= x < |g| ==> NumberChar(g[x])
    requires RemoveCommas(g) == tok && AllIn(tok, 0, |tok|, DigitsDots) && ParseFloat(tok) == Some(v)
    ensures FloatOfGroup(g) == Success(v)
  {
  }

  /** Captures without a quantity whose amounts read as given convert to
      those amounts. */
  lemma ConvertReads(c: Captured, cost: real, freight: real, insurance: real, weight: Option<real>)
    requires c.code.Some? && c.cost.Some? && WellFormed(c) && c.quantity.None?
    requires FloatOfGroup(c.cost.value) == Success(cost)
    requires OptionalFloat(c.freight, Some(0.0)) == Success(Some(freight))
    requires OptionalFloat(c.insurance, Some(0.0)) == Success(Some(insurance))
    requires OptionalFloat(c.weight, None) == Success(weight)
    ensures Convert(c) == Success(Fields(c.code.value, cost, freight, insurance, weight, None))
  {
  }

  /** The captures convert to cost 10,000, freight 500, insurance 100 and
      weight 500, with no quantity. */
  lemma QueryExtracted()
    ensures ExtractFields(Query()) == Extracted(Fields("0101.30.00.00", 10000.0, 500.0, 100.0, Some(500.0), None))
  {
    QueryCaptures();
    var c := Capture(Query());
    CaptureWellFormed(Query());
    GroupsRead(c);
    ConvertReads(c, 10000.0, 500.0, 100.0, Some(500.0));
  }

  /** The sample query against the 2 % table: CIF 10,600 and duty 212
      are reported for the captured code. */
  lemma QueryReported()
    ensures NewCalculator(TwoPercentTable()).Success?
    ensures CalculateFromQuery(NewCalculator(TwoPercentTable()).value, Query())
         == Reported("0101.30.00.00", 10600.0, 212.0)
  {
    QueryExtracted();
    TwoPercentOfCif(Some(500.0), None);
    QueryAfterExtraction(NewCalculator(TwoPercentTable()).value, Query(),
                         Fields("0101.30.00.00", 10000.0, 500.0, 100.0, Some(500.0), None));
  }

  // ---------------------------------------------------------------------
  // A query without a cost

  /** "HTS code 0101.30.00.00, weight 500 kg": a code, but no cost keyword. */
  function CostlessQuery(): string { "HTS" + (" code 0101.30.00.00, " + "weight 500 kg") }

  lemma CostlessLowered()
    ensures Lower(CostlessQuery()) == "hts code 0101.30.00.00, " + "weight 500 kg"
  {
    CostlessTailLower();
    assert "hts" + " code 0101.30.00.00, " == "hts code 0101.30.00.00, ";
  }

  lemma CostlessTailLower()
    ensures Lower(CostlessQuery()) == "hts" + (" code 0101.30.00.00, " + "weight 500 kg")
  {
    var tail := " code 0101.30.00.00, " + "weight 500 kg";
    LowerConcat("HTS", tail);
    assert Lower("HTS") == "hts";
    assert NoUpper(" code 0101.30.00.00, ") && NoUpper("weight 500 kg");
    NoUpperJoin(" code 0101.30.00.00, ", "weight 500 kg");
    LowerFixed(tail);
  }

  lemma CostlessHasNoCost()
    ensures Find(Cost, Lower(CostlessQuery())).None?
  {
    CostlessLowered();
    var b := "weight 500 kg";
    NoCostInCodeHead(b);
    ClosedStretch(Cost, b, 0, |b|);
    NoneAtEnd(Cost, b);
    NoneInJoin(Cost, "hts code 0101.30.00.00, ", b);
    FindNowhere(Cost, "hts code 0101.30.00.00, " + b);
  }

  /** Without a cost the query is answered with the could-not-parse alert,
      whatever the table holds. */
  lemma CostlessUnparsed(calculator: Calculator)
    ensures CalculateFromQuery(calculator, CostlessQuery()) == Answer(UnparsedText)
  {
    CostlessHasNoCost();
  }
}
