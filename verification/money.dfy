/** Python's `format(x, ",.2f")` on the exact value `x`: rounded half to even
    to cents, the whole part grouped by commas in threes, two decimals. */
module Money {
  import opened Wrappers
  import opened Text
  import opened Numbers

  /** The nearest natural number to `x`, ties going to the even one. */
  function RoundHalfEven(x: real): (n: nat)
    requires x >= 0.0
    ensures -0.5 <= x - n as real <= 0.5
    ensures x - n as real == 0.5 || x - n as real == -0.5 ==> n % 2 == 0
  {
    var f := x.Floor;
    var d := x - f as real;
    if d < 0.5 then f
    else if d > 0.5 then f + 1
    else if f % 2 == 0 then f
    else f + 1
  }

  /** Only one natural number is that close to `x` with the tie rule, so the
      rounding is the nearest-even rounding and nothing else. */
  lemma RoundHalfEvenUnique(x: real, n: nat)
    requires x >= 0.0
    requires -0.5 <= x - n as real <= 0.5
    requires x - n as real == 0.5 || x - n as real == -0.5 ==> n % 2 == 0
    ensures n == RoundHalfEven(x)
  {
  }

  /** Commas stand exactly at the positions four, eight, ... from the end. */
  predicate CommaEveryFourth(r: string) {
    forall x :: 0 <= x < |r| ==> (r[x] == ',' <==> (|r| - x) % 4 == 0)
  }

  /** The digits with a comma before every group of three counted from the right. */
  function GroupThousands(d: string): (r: string)
    requires AllDigits(d)
    ensures RemoveCommas(r) == d
    ensures CommaEveryFourth(r)
    ensures |d| <= 3 ==> r == d
    ensures 0 < |d| ==> |r| == |d| + (|d| - 1) / 3
    decreases |d|
  {
    if |d| <= 3 then d
    else
      var hi := GroupThousands(d[..|d| - 3]);
      var lo := d[|d| - 3..];
      assert d[..|d| - 3] + lo == d;
      GroupStep(hi, lo);
      hi + "," + lo
  }

  lemma GroupStep(hi: string, lo: string)
    requires CommaEveryFourth(hi) && |lo| == 3 && AllDigits(lo)
    ensures CommaEveryFourth(hi + "," + lo)
    ensures RemoveCommas(hi + "," + lo) == RemoveCommas(hi) + lo
  {
    GroupStepCommas(hi, lo);
    GroupStepDigits(hi, lo);
  }

  lemma GroupStepDigits(hi: string, lo: string)
    requires AllDigits(lo)
    ensures RemoveCommas(hi + "," + lo) == RemoveCommas(hi) + lo
  {
    RemoveCommasConcat(hi + ",", lo);
    RemoveCommasConcat(hi, ",");
    assert RemoveCommas(",") == "";
    assert RemoveCommas(lo) == lo;
  }

  lemma GroupStepCommas(hi: string, lo: string)
    requires CommaEveryFourth(hi) && |lo| == 3 && AllDigits(lo)
    ensures CommaEveryFourth(hi + "," + lo)
  {
    var r := hi + "," + lo;
    forall x | 0 <= x < |r| ensures r[x] == ',' <==> (|r| - x) % 4 == 0 {
      if x < |hi| {
        assert r[x] == hi[x];
        assert |r| - x == (|hi| - x) + 4;
      } else if x > |hi| {
        assert r[x] == lo[x - |hi| - 1];
      }
    }
  }

  /** The text of a non-negative amount: whole part grouped, then cents. */
  function FormatMagnitude(x: real): (r: string)
    requires x >= 0.0
  {
    var cents := RoundHalfEven(x * 100.0);
    GroupThousands(NatToDigits(cents / 100)) + "." + TwoDigits(cents % 100)
  }

  /** `f"{x:,.2f}"`: a minus sign for a negative value, then the magnitude. */
  function FormatAmount(x: real): (r: string)
    ensures '-' in r <==> x < 0.0
  {
    if x < 0.0 then "-" + FormatMagnitude(-x)
    else
      MagnitudeUnsigned(x);
      FormatMagnitude(x)
  }

  /** The text of a magnitude holds digits, commas and a dot, never a minus sign. */
  lemma MagnitudeUnsigned(x: real)
    requires x >= 0.0
    ensures '-' !in FormatMagnitude(x)
  {
    var cents := RoundHalfEven(x * 100.0);
    var whole := NatToDigits(cents / 100);
    var grouped := GroupThousands(whole);
    var frac := TwoDigits(cents % 100);
    assert FormatMagnitude(x) == grouped + "." + frac;
    assert '-' !in whole;
  }

  /** The value a formatted amount shows: `x` rounded half to even to cents. */
  function Cents(x: real): (v: real)
    requires x >= 0.0
    ensures -0.005 <= x - v <= 0.005
  {
    RoundHalfEven(x * 100.0) as real / 100.0
  }

  /** Reading the formatted amount back, commas removed, gives `x` rounded to
      cents: the text is a well-formed decimal and no digit is lost. */
  lemma {:induction false} FormatAmountRoundTrip(x: real)
    requires x >= 0.0
    ensures AllIn(RemoveCommas(FormatAmount(x)), 0, |RemoveCommas(FormatAmount(x))|, DigitsDots)
    ensures ParseFloat(RemoveCommas(FormatAmount(x))) == Some(Cents(x))
  {
    FormatAmountDigits(x);
    ReadBack(RemoveCommas(FormatAmount(x)), RoundHalfEven(x * 100.0));
  }

  /** A formatted non-negative amount has no line break in it. */
  lemma AmountOnOneLine(x: real)
    requires x >= 0.0
    ensures '\n' !in FormatAmount(x)
  {
    FormatAmountRoundTrip(x);
    var r := RemoveCommas(FormatAmount(x));
    assert forall i :: 0 <= i < |r| ==> r[i] != '\n';
  }

  /** The plain digits of `c` cents, a dot and the two cent digits read back as `c / 100`. */
  lemma ReadBack(s: string, c: nat)
    requires s == NatToDigits(c / 100) + "." + TwoDigits(c % 100)
    ensures AllIn(s, 0, |s|, DigitsDots)
    ensures ParseFloat(s) == Some(c as real / 100.0)
  {
    ParseFloatPoint(NatToDigits(c / 100), TwoDigits(c % 100));
    CentsDecimal(c);
  }

  /** The whole digits and the two cent digits of `c` cents read back as `c / 100`. */
  lemma CentsDecimal(c: nat)
    ensures DecimalValue(NatToDigits(c / 100), TwoDigits(c % 100)) == c as real / 100.0
  {
    assert Pow10(2) == 100 by {
      assert Pow10(1) == 10;
    }
    CentsSplit(c);
  }

  /** Without its commas the formatted amount is the plain whole digits, a
      dot and the two cent digits. */
  lemma FormatAmountDigits(x: real)
    requires x >= 0.0
    ensures var cents := RoundHalfEven(x * 100.0);
      RemoveCommas(FormatAmount(x)) == NatToDigits(cents / 100) + "." + TwoDigits(cents % 100)
  {
    var cents := RoundHalfEven(x * 100.0);
    var w := NatToDigits(cents / 100);
    var f := TwoDigits(cents % 100);
    var g := GroupThousands(w);
    RemoveCommasConcat(g + ".", f);
    RemoveCommasConcat(g, ".");
    assert RemoveCommas(".") == ".";
    assert RemoveCommas(f) == f;
  }

  lemma CentsSplit(c: nat)
    ensures (c / 100) as real + (c % 100) as real / 100.0 == c as real / 100.0
  {
    assert (c / 100) * 100 + c % 100 == c;
  }
}
