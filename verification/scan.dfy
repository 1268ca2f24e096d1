/** The regular-expression searches of the duty engine as hand-written
    scanners. `MatchAt` is the deterministic attempt of one pattern at one
    position; `Search` is `re.search`: the leftmost position where the
    attempt succeeds. `Captures` is the declarative reading of each pattern,
    and `MatchAtIff` shows the scanner agrees with it. The duty-rate patterns
    run on the lower-cased duty text; the query patterns run with `re.I`,
    which for ASCII is the same as running on the lower-cased query. */
module Scan {
  import opened Wrappers
  import opened Text

  datatype Pattern =
    | Percent         // digits-and-dots, then "%"
    | CentsPerKg      // digits-and-dots, then "¢/kg"
    | DollarsPerUnit  // "$", digits-and-dots, then "/unit"
    | HtsCode         // "hts code", spaces, digits-and-dots
    | Cost            // "cost" / "product cost" / "fob cost", then an amount
    | Freight         // "freight", then an amount
    | Insurance       // "insurance", then an amount
    | Weight          // an amount, spaces, "kg"
    | Quantity        // digits-and-commas, spaces, "unit"

  /** The characters group 1 of `p` is drawn from. */
  predicate GroupChar(p: Pattern, c: char) {
    match p
    case Quantity => InClass(c, DigitsCommas)
    case Cost => InClass(c, DigitsCommas) || c == '.'
    case Freight => InClass(c, DigitsCommas) || c == '.'
    case Insurance => InClass(c, DigitsCommas) || c == '.'
    case Weight => InClass(c, DigitsCommas) || c == '.'
    case _ => InClass(c, DigitsDots)
  }

  /** A successful search: where the match starts and what group 1 captured. */
  datatype Hit = Hit(at: nat, group: string)

  /** The alternatives of the keyword that opens an amount pattern, in the
      order the regular expression tries them. */
  function Keywords(p: Pattern): seq<string> {
    match p
    case Cost => ["cost", "product cost", "fob cost"]
    case Freight => ["freight"]
    case Insurance => ["insurance"]
    case _ => []
  }

  /** End of the first keyword alternative that reads at `i`. */
  function KeywordEnd(kws: seq<string>, t: string, i: nat): (k: Option<nat>)
    ensures k.Some? ==> exists n :: 0 <= n < |kws| && LitAt(t, i, kws[n]) && k.value == i + |kws[n]|
    ensures k.None? ==> forall n :: 0 <= n < |kws| ==> !LitAt(t, i, kws[n])
  {
    if |kws| == 0 then None
    else if LitAt(t, i, kws[0]) then Some(i + |kws[0]|)
    else
      var k := KeywordEnd(kws[1..], t, i);
      assert forall n :: 1 <= n < |kws| ==> kws[n] == kws[1..][n - 1];
      k
  }

  /** Where the filler `\s*(?:of\s*)?\$?` between a keyword ending at `k` and
      its amount stops. Each optional part is taken when present; giving one
      back never lets an amount start, so this greedy choice is the only one
      the regular expression can succeed with. */
  function FillerEnd(t: string, k: nat): (d: nat)
    requires k <= |t|
    ensures k <= d <= |t|
  {
    var a := RunEnd(t, k, Spaces);
    var b := if LitAt(t, a, "of") then RunEnd(t, a + 2, Spaces) else a;
    if LitAt(t, b, "$") then b + 1 else b
  }

  /** End of the greedy match of an amount `[0-9,]+(?:\.[0-9]+)?` started at `d`. */
  function AmountEnd(t: string, d: nat): (e: Option<nat>)
    requires d <= |t|
    ensures e.Some? ==> d < e.value <= |t|
    ensures e.Some? ==> forall x :: d <= x < e.value ==> InClass(t[x], DigitsCommas) || t[x] == '.'
  {
    var j := RunEnd(t, d, DigitsCommas);
    if j == d then None
    else if j + 1 < |t| && t[j] == '.' && IsDigit(t[j + 1]) then Some(RunEnd(t, j + 1, Digits))
    else Some(j)
  }

  /** One attempt of pattern `p` at position `i` of the (lower-cased) text:
      the captured group, or None when the pattern cannot match there. */
  function MatchAt(p: Pattern, t: string, i: nat): (r: Option<string>)
    ensures r.Some? ==> 0 < |r.value|
    ensures r.Some? ==> forall x :: 0 <= x < |r.value| ==> GroupChar(p, r.value[x])
  {
    if |t| < i then None
    else
      match p
      case Percent => RunThen(t, i, DigitsDots, "%")
      case CentsPerKg => RunThen(t, i, DigitsDots, "¢/kg")
      case DollarsPerUnit =>
        if LitAt(t, i, "$") then RunThen(t, i + 1, DigitsDots, "/unit") else None
      case HtsCode => CodeAt(t, i)
      case Weight => WeightAt(t, i)
      case Quantity => QuantityAt(t, i)
      case Cost => AmountAfterKeyword(Keywords(p), t, i)
      case Freight => AmountAfterKeyword(Keywords(p), t, i)
      case Insurance => AmountAfterKeyword(Keywords(p), t, i)
  }

  /** "hts code", greedy spaces, then a non-empty digits-and-dots run. */
  function CodeAt(t: string, i: nat): (r: Option<string>)
    requires i <= |t|
    ensures r.Some? ==> 0 < |r.value| && AllIn(r.value, 0, |r.value|, DigitsDots)
  {
    if LitAt(t, i, "hts code") then
      var w := RunEnd(t, i + 8, Spaces);
      var j := RunEnd(t, w, DigitsDots);
      assert forall x :: 0 <= x < j - w ==> t[w..j][x] == t[w + x];
      if w < j then Some(t[w..j]) else None
    else None
  }

  /** A greedy amount, greedy spaces, then "kg". */
  function WeightAt(t: string, i: nat): (r: Option<string>)
    requires i <= |t|
    ensures r.Some? ==> 0 < |r.value|
    ensures r.Some? ==> forall x :: 0 <= x < |r.value| ==> InClass(r.value[x], DigitsCommas) || r.value[x] == '.'
  {
    match AmountEnd(t, i)
    case None => None
    case Some(e) => if LitAt(t, RunEnd(t, e, Spaces), "kg") then Some(t[i..e]) else None
  }

  /** A non-empty digits-and-commas run, greedy spaces, then "unit". */
  function QuantityAt(t: string, i: nat): (r: Option<string>)
    requires i <= |t|
    ensures r.Some? ==> 0 < |r.value| && AllIn(r.value, 0, |r.value|, DigitsCommas)
  {
    var j := RunEnd(t, i, DigitsCommas);
    assert forall x :: 0 <= x < j - i ==> t[i..j][x] == t[i + x];
    if i < j && LitAt(t, RunEnd(t, j, Spaces), "unit") then Some(t[i..j]) else None
  }

  /** A keyword alternative, the filler, then a greedy amount. */
  function AmountAfterKeyword(kws: seq<string>, t: string, i: nat): (r: Option<string>)
    requires i <= |t|
    ensures r.Some? ==> 0 < |r.value|
    ensures r.Some? ==> forall x :: 0 <= x < |r.value| ==> InClass(r.value[x], DigitsCommas) || r.value[x] == '.'
  {
    match KeywordEnd(kws, t, i)
    case None => None
    case Some(k) =>
      var d := FillerEnd(t, k);
      match AmountEnd(t, d)
      case None => None
      case Some(e) => Some(t[d..e])
  }

  /** `([class]+)lit` attempted at `i`: the greedy run, when it is non-empty
      and the literal follows it. */
  function RunThen(t: string, i: nat, k: CharClass, lit: string): (r: Option<string>)
    requires i <= |t|
    ensures r.Some? ==> 0 < |r.value| && AllIn(r.value, 0, |r.value|, k)
  {
    var j := RunEnd(t, i, k);
    assert forall x :: 0 <= x < j - i ==> t[i..j][x] == t[i + x];
    if i < j && LitAt(t, j, lit) then Some(t[i..j]) else None
  }

  /** The attempts of `p` at every position of `t`, the end included. */
  function Attempts(p: Pattern, t: string): (a: seq<Option<string>>)
    ensures |a| == |t| + 1
    ensures forall j :: 0 <= j <= |t| ==> a[j] == MatchAt(p, t, j)
  {
    seq(|t| + 1, j requires 0 <= j <= |t| => MatchAt(p, t, j))
  }

  /** The first successful attempt from index `i` on. */
  function FirstHit(a: seq<Option<string>>, i: nat): (r: Option<Hit>)
    ensures r.Some? ==> i <= r.value.at < |a| && a[r.value.at] == Some(r.value.group)
    ensures r.Some? ==> forall j :: i <= j < r.value.at ==> a[j].None?
    ensures r.None? ==> forall j :: i <= j < |a| ==> a[j].None?
    decreases |a| - i
  {
    if |a| <= i then None
    else
      match a[i]
      case Some(g) => Some(Hit(i, g))
      case None => FirstHit(a, i + 1)
  }

  /** `re.search(p, t[i..])`: the leftmost position from `i` on where `p`
      matches, with its capture; None when it matches nowhere. */
  function Search(p: Pattern, t: string, i: nat): (r: Option<Hit>)
    ensures r.Some? ==> i <= r.value.at <= |t| && MatchAt(p, t, r.value.at) == Some(r.value.group)
    ensures r.Some? ==> forall j :: i <= j < r.value.at ==> MatchAt(p, t, j).None?
    ensures r.None? ==> forall j :: i <= j <= |t| ==> MatchAt(p, t, j).None?
  {
    FirstHit(Attempts(p, t), i)
  }

  /** The capture of a search from the start of the text, or None. */
  function Find(p: Pattern, t: string): (g: Option<string>)
    ensures g.Some? <==> exists j :: 0 <= j <= |t| && MatchAt(p, t, j).Some?
    ensures g.Some? ==> 0 < |g.value| && forall x :: 0 <= x < |g.value| ==> GroupChar(p, g.value[x])
  {
    match Search(p, t, 0)
    case None => None
    case Some(h) => Some(h.group)
  }
}
