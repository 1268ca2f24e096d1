/** Decimal digit strings and the two Python conversions the engine applies to
    captured tokens: `float(tok)` and `int(tok)`. Values are exact: `real`
    stands in for the double-precision result. */
module Numbers {
  import opened Wrappers
  import opened Text

  predicate AllDigits(d: string) {
    forall x :: 0 <= x < |d| ==> IsDigit(d[x])
  }

  function DigitValue(c: char): nat
    requires IsDigit(c)
  {
    c as int - '0' as int
  }

  function DigitChar(n: nat): (c: char)
    requires n < 10
    ensures IsDigit(c) && DigitValue(c) == n
  {
    ('0' as int + n) as char
  }

  /** Value of a digit string, most significant digit first; "" is 0. */
  function DigitsValue(d: string): nat
    requires AllDigits(d)
    decreases |d|
  {
    if |d| == 0 then 0 else DigitsValue(d[..|d| - 1]) * 10 + DigitValue(d[|d| - 1])
  }

  function Pow10(n: nat): (p: nat)
    ensures p >= 1
  {
    if n == 0 then 1 else 10 * Pow10(n - 1)
  }

  /** Appending a digit shifts the value one decimal place. */
  lemma DigitsValueSnoc(d: string, c: char)
    requires AllDigits(d) && IsDigit(c)
    ensures AllDigits(d + [c])
    ensures DigitsValue(d + [c]) == DigitsValue(d) * 10 + DigitValue(c)
  {
    assert (d + [c])[..|d|] == d;
  }

  /** `str(n)` for a non-negative integer: its decimal digits. */
  function NatToDigits(n: nat): (d: string)
    ensures 1 <= |d| && AllDigits(d)
    ensures DigitsValue(d) == n
    ensures d[0] == '0' ==> n == 0
    decreases n
  {
    if n < 10 then [DigitChar(n)]
    else
      var hi := NatToDigits(n / 10);
      DigitsValueSnoc(hi, DigitChar(n % 10));
      hi + [DigitChar(n % 10)]
  }

  /** The two-digit field `{:02d}` of a number below 100. */
  function TwoDigits(n: nat): (d: string)
    requires n < 100
    ensures |d| == 2 && AllDigits(d)
    ensures DigitsValue(d) == n
  {
    var d := [DigitChar(n / 10)] + [DigitChar(n % 10)];
    DigitsValueSnoc([DigitChar(n / 10)], DigitChar(n % 10));
    assert [DigitChar(n / 10)][..0] == [];
    d
  }

  /** The number written `w.f`: the whole digits plus the fraction digits
      scaled by their count. */
  function DecimalValue(w: string, f: string): real
    requires AllDigits(w) && AllDigits(f)
  {
    DigitsValue(w) as real + DigitsValue(f) as real / Pow10(|f|) as real
  }

  /** Position of the first '.' in `tok`, `|tok|` when there is none. */
  function DotIndex(tok: string): (k: nat)
    ensures k <= |tok|
    ensures forall x :: 0 <= x < k ==> tok[x] != '.'
    ensures k < |tok| ==> tok[k] == '.'
  {
    if |tok| == 0 || tok[0] == '.' then 0 else 1 + DotIndex(tok[1..])
  }

  /** The strings Python's `float()` accepts among those made of digits and
      dots: at least one digit and at most one dot. */
  ghost predicate IsDecimal(tok: string) {
    || (0 < |tok| && AllDigits(tok))
    || exists k :: 0 <= k < |tok| && tok[k] == '.' && 1 < |tok|
                   && AllDigits(tok[..k]) && AllDigits(tok[k + 1..])
  }

  /** Python's `float(tok)` on a token of digits and dots, as the `[0-9.]+`
      patterns capture them; None where Python raises ValueError. */
  function ParseFloat(tok: string): (r: Option<real>)
    requires AllIn(tok, 0, |tok|, DigitsDots)
    ensures r.Some? <==> IsDecimal(tok)
    ensures r.Some? ==> r.value >= 0.0
  {
    var k := DotIndex(tok);
    if k == |tok| then
      if k == 0 then None else Some(DigitsValue(tok) as real)
    else
      var frac := tok[k + 1..];
      if !AllDigits(frac) then
        None
      else if |tok| == 1 then None
      else
        assert AllDigits(tok[..k]);
        Some(DecimalValue(tok[..k], frac))
  }

  /** Value of `float(w + "." + f)`: whole part plus the fraction scaled by its length. */
  lemma ParseFloatPoint(w: string, f: string)
    requires AllDigits(w) && AllDigits(f) && 0 < |w| + |f|
    ensures AllIn(w + "." + f, 0, |w + "." + f|, DigitsDots)
    ensures ParseFloat(w + "." + f)
         == Some(DecimalValue(w, f))
  {
    var tok := w + "." + f;
    assert tok[..|w|] == w;
    assert tok[|w| + 1..] == f;
    assert forall x :: 0 <= x < |w| ==> tok[x] == w[x];
    assert AllIn(tok, 0, |tok|, DigitsDots) by {
      forall x | 0 <= x < |tok| ensures InClass(tok[x], DigitsDots) {
        if x > |w| { assert tok[x] == f[x - |w| - 1]; }
      }
    }
    DotIndexFirst(tok, |w|);
    var k := DotIndex(tok);
    assert k == |w| && k < |tok|;
    assert tok[..k] == w && tok[k + 1..] == f;
    assert |tok| != 1;
  }

  /** Value of `float(w)` for a plain digit string. */
  lemma ParseFloatWhole(w: string)
    requires 0 < |w| && AllDigits(w)
    ensures AllIn(w, 0, |w|, DigitsDots)
    ensures ParseFloat(w) == Some(DigitsValue(w) as real)
  {
    DotIndexNone(w);
  }

  lemma DotIndexFirst(tok: string, k: nat)
    requires k < |tok| && tok[k] == '.'
    requires forall x :: 0 <= x < k ==> tok[x] != '.'
    ensures DotIndex(tok) == k
  {
  }

  lemma DotIndexNone(tok: string)
    requires forall x :: 0 <= x < |tok| ==> tok[x] != '.'
    ensures DotIndex(tok) == |tok|
  {
  }

  /** Python's `int(tok)` on a string of digits; None where it raises ValueError. */
  function ParseInt(tok: string): (r: Option<nat>)
    requires AllDigits(tok)
    ensures r.Some? <==> 0 < |tok|
  {
    if |tok| == 0 then None else Some(DigitsValue(tok))
  }

  /** The message of the ValueError `float(tok)` raises. */
  function FloatErrorMessage(tok: string): string {
    "could not convert string to float: '" + tok + "'"
  }

  /** A message of the ValueError `float()` raises, for some token. */
  ghost predicate IsFloatErrorMessage(m: string) {
    exists tok :: m == FloatErrorMessage(tok)
  }

  /** The message of the ValueError `int(tok)` raises. */
  function IntErrorMessage(tok: string): string {
    "invalid literal for int() with base 10: '" + tok + "'"
  }
}
