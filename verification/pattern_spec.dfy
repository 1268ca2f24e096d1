/** The declarative reading of the engine's patterns, and the proof that the
    scanners of `Scan` implement exactly it: `MatchAt` captures `g` at `i`
    precisely when the pattern describes the text at `i` with group `g`, and
    `Search` returns the leftmost such position. */
module PatternSpec {
  import opened Wrappers
  import opened Text
  import opened Scan

  /** `g` is in the language of `[0-9,]+(?:\.[0-9]+)?`. */
  ghost predicate IsAmount(g: string) {
    exists j :: 0 < j <= |g| && AllIn(g, 0, j, DigitsCommas)
      && (j == |g| || (j + 1 < |g| && g[j] == '.' && AllIn(g, j + 1, |g|, Digits)))
  }

  /** `t[d..e]` is the longest amount that starts at `d`, which is what the
      greedy quantifiers capture when the amount ends the pattern. */
  ghost predicate LongestAmount(t: string, d: nat, e: nat) {
    && d <= e <= |t|
    && IsAmount(t[d..e])
    && forall e' :: e < e' <= |t| ==> !IsAmount(t[d..e'])
  }

  /** `t[k..d]` is the filler `\s*(?:of\s*)?\$?`. */
  ghost predicate Filler(t: string, k: nat, d: nat) {
    exists a, b :: k <= a <= b <= d <= |t|
      && AllIn(t, k, a, Spaces)
      && (b == a || (LitAt(t, a, "of") && a + 2 <= b && AllIn(t, a + 2, b, Spaces)))
      && (d == b || (d == b + 1 && t[b] == '$'))
  }

  /** Pattern `p` matches the text at position `i` with group 1 equal to `g`. */
  ghost predicate Captures(p: Pattern, t: string, i: nat, g: string) {
    match p
    case Percent => RunFollowedBy(t, i, g, DigitsDots, "%")
    case CentsPerKg => RunFollowedBy(t, i, g, DigitsDots, "¢/kg")
    case DollarsPerUnit => LitAt(t, i, "$") && RunFollowedBy(t, i + 1, g, DigitsDots, "/unit")
    case HtsCode => CodeCaptures(t, i, g)
    case Weight => WeightCaptures(t, i, g)
    case Quantity => QuantityCaptures(t, i, g)
    case Cost => AmountCaptures(Keywords(p), t, i, g)
    case Freight => AmountCaptures(Keywords(p), t, i, g)
    case Insurance => AmountCaptures(Keywords(p), t, i, g)
  }

  /** "hts code", any spaces, then `g`: the whole digits-and-dots run there. */
  ghost predicate CodeCaptures(t: string, i: nat, g: string) {
    && LitAt(t, i, "hts code")
    && exists w :: i + 8 <= w <= |t| && AllIn(t, i + 8, w, Spaces)
                   && 0 < |g| && LitAt(t, w, g) && AllIn(g, 0, |g|, DigitsDots)
                   && RunStops(t, w + |g|, DigitsDots)
  }

  /** The amount `g`, any spaces, then "kg". */
  ghost predicate WeightCaptures(t: string, i: nat, g: string) {
    && IsAmount(g) && LitAt(t, i, g)
    && exists w :: i + |g| <= w <= |t| && AllIn(t, i + |g|, w, Spaces) && LitAt(t, w, "kg")
  }

  /** The digits-and-commas run `g`, any spaces, then "unit". */
  ghost predicate QuantityCaptures(t: string, i: nat, g: string) {
    && 0 < |g| && LitAt(t, i, g) && AllIn(g, 0, |g|, DigitsCommas)
    && exists w :: i + |g| <= w <= |t| && AllIn(t, i + |g|, w, Spaces) && LitAt(t, w, "unit")
  }

  /** One of the keywords, the filler, then `g`: the longest amount there. */
  ghost predicate AmountCaptures(kws: seq<string>, t: string, i: nat, g: string) {
    exists n: nat, d: nat :: AmountCapturesVia(kws, t, i, g, n, d)
  }

  /** `AmountCaptures` with the keyword alternative `n` and the amount start `d` fixed. */
  ghost predicate AmountCapturesVia(kws: seq<string>, t: string, i: nat, g: string, n: nat, d: nat) {
    && n < |kws| && LitAt(t, i, kws[n])
    && Filler(t, i + |kws[n]|, d)
    && LongestAmount(t, d, d + |g|) && LitAt(t, d, g)
  }

  /** A non-empty run of class `k` spelling `g` at `i`, then `lit`. */
  ghost predicate RunFollowedBy(t: string, i: nat, g: string, k: CharClass, lit: string) {
    0 < |g| && LitAt(t, i, g) && AllIn(g, 0, |g|, k) && LitAt(t, i + |g|, lit)
  }

  lemma LitAtChars(t: string, i: nat, g: string)
    requires LitAt(t, i, g)
    ensures forall x :: 0 <= x < |g| ==> t[i + x] == g[x]
  {
    forall x | 0 <= x < |g| ensures t[i + x] == g[x] {
      assert t[i..i + |g|][x] == t[i + x];
    }
  }

  lemma RunThenIff(t: string, i: nat, g: string, k: CharClass, lit: string)
    requires i <= |t| && 0 < |lit| && !InClass(lit[0], k)
    ensures RunThen(t, i, k, lit) == Some(g) <==> RunFollowedBy(t, i, g, k, lit)
  {
    if RunFollowedBy(t, i, g, k, lit) {
      LitAtChars(t, i, g);
      LitAtChars(t, i + |g|, lit);
      RunEndUnique(t, i, i + |g|, k);
    }
    if RunThen(t, i, k, lit) == Some(g) {
      var j := RunEnd(t, i, k);
      assert g == t[i..j];
      forall x | 0 <= x < |g| ensures InClass(g[x], k) {
        assert g[x] == t[i + x];
      }
    }
  }

  /** Every character of an amount is a digit, a comma or a dot. */
  lemma AmountChars(g: string, x: nat)
    requires IsAmount(g) && x < |g|
    ensures InClass(g[x], DigitsCommas) || g[x] == '.'
  {
    var j :| 0 < j <= |g| && AllIn(g, 0, j, DigitsCommas)
      && (j == |g| || (j + 1 < |g| && g[j] == '.' && AllIn(g, j + 1, |g|, Digits)));
    if x > j { assert InClass(g[x], Digits); }
  }

  /** The split point of an amount is the end of its leading digits-and-commas run. */
  lemma AmountSplit(t: string, d: nat, e: nat, j: nat)
    requires d <= e <= |t| && IsAmount(t[d..e])
    requires d < j <= e && AllIn(t, d, j, DigitsCommas) && RunStops(t, j, DigitsCommas)
    ensures j == e || (j + 1 < e && t[j] == '.' && AllIn(t, j + 1, e, Digits))
  {
    var g := t[d..e];
    var j' :| 0 < j' <= |g| && AllIn(g, 0, j', DigitsCommas)
      && (j' == |g| || (j' + 1 < |g| && g[j'] == '.' && AllIn(g, j' + 1, |g|, Digits)));
    assert d + j' == j;
    if j < e {
      forall x | j + 1 <= x < e ensures InClass(t[x], Digits) {
        assert t[x] == g[x - d];
      }
    }
  }

  lemma AmountEndIff(t: string, d: nat, e: nat)
    requires d <= |t|
    ensures AmountEnd(t, d) == Some(e) <==> LongestAmount(t, d, e)
  {
    var j := RunEnd(t, d, DigitsCommas);
    if AmountEnd(t, d) == Some(e) {
      AmountEndLongest(t, d, e);
    }
    if LongestAmount(t, d, e) {
      var g := t[d..e];
      AmountChars(g, 0);
      assert g[0] == t[d];
      assert j > d;
      var e0 := AmountEnd(t, d).value;
      AmountEndLongest(t, d, e0);
    }
  }

  lemma AmountEndLongest(t: string, d: nat, e: nat)
    requires d <= |t| && AmountEnd(t, d) == Some(e)
    ensures LongestAmount(t, d, e)
  {
    var j := RunEnd(t, d, DigitsCommas);
    var g := t[d..e];
    var frac := j + 1 < |t| && t[j] == '.' && IsDigit(t[j + 1]);
    assert AllIn(g, 0, j - d, DigitsCommas) by {
      forall x | 0 <= x < j - d ensures InClass(g[x], DigitsCommas) {
        assert g[x] == t[d + x];
      }
    }
    if frac {
      assert AllIn(g, j - d + 1, |g|, Digits) by {
        forall x | j - d + 1 <= x < |g| ensures InClass(g[x], Digits) {
          assert g[x] == t[d + x];
        }
      }
      assert g[j - d] == '.';
    }
    assert IsAmount(g);
    forall e' | e < e' <= |t| ensures !IsAmount(t[d..e']) {
      if IsAmount(t[d..e']) {
        AmountSplit(t, d, e', j);
      }
    }
  }

  lemma HtsCodeIff(t: string, i: nat, g: string)
    requires i <= |t|
    ensures CodeAt(t, i) == Some(g) <==> CodeCaptures(t, i, g)
  {
    if CodeAt(t, i) == Some(g) {
      CodeAtSound(t, i);
    }
    if CodeCaptures(t, i, g) {
      CodeAtComplete(t, i, g);
    }
  }

  lemma CodeAtSound(t: string, i: nat)
    requires i <= |t| && CodeAt(t, i).Some?
    ensures CodeCaptures(t, i, CodeAt(t, i).value)
  {
    var g := CodeAt(t, i).value;
    var w := RunEnd(t, i + 8, Spaces);
    var j := RunEnd(t, w, DigitsDots);
    assert g == t[w..j];
    forall x | 0 <= x < |g| ensures InClass(g[x], DigitsDots) {
      assert g[x] == t[w + x];
    }
    assert LitAt(t, w, g);
    assert i + 8 <= w <= |t| && AllIn(t, i + 8, w, Spaces);
  }

  lemma CodeAtComplete(t: string, i: nat, g: string)
    requires i <= |t| && CodeCaptures(t, i, g)
    ensures CodeAt(t, i) == Some(g)
  {
    var w :| i + 8 <= w <= |t| && AllIn(t, i + 8, w, Spaces)
             && 0 < |g| && LitAt(t, w, g) && AllIn(g, 0, |g|, DigitsDots)
             && RunStops(t, w + |g|, DigitsDots);
    LitAtChars(t, w, g);
    assert !InClass(t[w], Spaces);
    RunEndUnique(t, i + 8, w, Spaces);
    RunEndUnique(t, w, w + |g|, DigitsDots);
  }

  lemma QuantityIff(t: string, i: nat, g: string)
    requires i <= |t|
    ensures QuantityAt(t, i) == Some(g) <==> QuantityCaptures(t, i, g)
  {
    if QuantityAt(t, i) == Some(g) {
      QuantityAtSound(t, i);
    }
    if QuantityCaptures(t, i, g) {
      QuantityAtComplete(t, i, g);
    }
  }

  lemma QuantityAtSound(t: string, i: nat)
    requires i <= |t| && QuantityAt(t, i).Some?
    ensures QuantityCaptures(t, i, QuantityAt(t, i).value)
  {
    var g := QuantityAt(t, i).value;
    var j := RunEnd(t, i, DigitsCommas);
    assert g == t[i..j];
    forall x | 0 <= x < |g| ensures InClass(g[x], DigitsCommas) {
      assert g[x] == t[i + x];
    }
    var w := RunEnd(t, j, Spaces);
    assert i + |g| <= w <= |t| && AllIn(t, i + |g|, w, Spaces) && LitAt(t, w, "unit");
  }

  lemma QuantityAtComplete(t: string, i: nat, g: string)
    requires i <= |t| && QuantityCaptures(t, i, g)
    ensures QuantityAt(t, i) == Some(g)
  {
    var w :| i + |g| <= w <= |t| && AllIn(t, i + |g|, w, Spaces) && LitAt(t, w, "unit");
    LitAtChars(t, i, g);
    LitAtChars(t, w, "unit");
    RunEndUnique(t, i, i + |g|, DigitsCommas);
    RunEndUnique(t, i + |g|, w, Spaces);
  }

  lemma WeightIff(t: string, i: nat, g: string)
    requires i <= |t|
    ensures WeightAt(t, i) == Some(g) <==> WeightCaptures(t, i, g)
  {
    if WeightAt(t, i) == Some(g) {
      WeightAtSound(t, i);
    }
    if WeightCaptures(t, i, g) {
      WeightAtComplete(t, i, g);
    }
  }

  lemma WeightAtSound(t: string, i: nat)
    requires i <= |t| && WeightAt(t, i).Some?
    ensures WeightCaptures(t, i, WeightAt(t, i).value)
  {
    var g := WeightAt(t, i).value;
    var e := AmountEnd(t, i).value;
    AmountEndIff(t, i, e);
    var w := RunEnd(t, e, Spaces);
    assert g == t[i..e];
    assert i + |g| <= w <= |t| && AllIn(t, i + |g|, w, Spaces) && LitAt(t, w, "kg");
  }

  lemma WeightAtComplete(t: string, i: nat, g: string)
    requires i <= |t| && WeightCaptures(t, i, g)
    ensures WeightAt(t, i) == Some(g)
  {
    var w :| i + |g| <= w <= |t| && AllIn(t, i + |g|, w, Spaces) && LitAt(t, w, "kg");
    var e := i + |g|;
    LitAtChars(t, w, "kg");
    assert t[i..e] == g;
    forall e' | e < e' <= |t| ensures !IsAmount(t[i..e']) {
      if IsAmount(t[i..e']) {
        AmountChars(t[i..e'], |g|);
      }
    }
    AmountEndIff(t, i, e);
    RunEndUnique(t, e, w, Spaces);
  }

  /** The greedy filler is the only one after which an amount can start. */
  lemma FillerUnique(t: string, k: nat, d: nat)
    requires k <= |t| && Filler(t, k, d) && d < |t| && InClass(t[d], DigitsCommas)
    ensures FillerEnd(t, k) == d
  {
    var a, b :| k <= a <= b <= d <= |t|
      && AllIn(t, k, a, Spaces)
      && (b == a || (LitAt(t, a, "of") && a + 2 <= b && AllIn(t, a + 2, b, Spaces)))
      && (d == b || (d == b + 1 && t[b] == '$'));
    // After the optional "of" part comes the dollar sign or the amount.
    var c := t[b];
    assert c == '$' || InClass(c, DigitsCommas);
    StopsFiller(c);
    DollarAt(t, b);
    if b == a {
      NotLitAt(t, a, "of");
      RunEndUnique(t, k, a, Spaces);
    } else {
      LitAtChars(t, a, "of");
      StopsFiller(t[a]);
      RunEndUnique(t, k, a, Spaces);
      RunEndUnique(t, a + 2, b, Spaces);
    }
  }

  /** Neither the letter of "of", the dollar sign nor an amount character is a space. */
  lemma StopsFiller(c: char)
    requires c == 'o' || c == '$' || InClass(c, DigitsCommas)
    ensures !InClass(c, Spaces)
  {
  }

  lemma DollarAt(t: string, b: nat)
    requires b < |t|
    ensures LitAt(t, b, "$") <==> t[b] == '$'
  {
    assert t[b..b + 1][0] == t[b];
  }

  lemma FillerOfEnd(t: string, k: nat)
    requires k <= |t|
    ensures Filler(t, k, FillerEnd(t, k))
  {
    var a := RunEnd(t, k, Spaces);
    var b := if LitAt(t, a, "of") then RunEnd(t, a + 2, Spaces) else a;
    assert k <= a <= b <= FillerEnd(t, k) <= |t|;
  }

  /** Keyword alternatives that start with different letters: at most one reads at a position. */
  ghost predicate DistinctHeads(kws: seq<string>) {
    forall n, m :: 0 <= n < m < |kws| ==> 0 < |kws[n]| && 0 < |kws[m]| && kws[n][0] != kws[m][0]
  }

  lemma KeywordsDistinct(p: Pattern)
    ensures DistinctHeads(Keywords(p))
  {
  }

  lemma AmountAtSound(kws: seq<string>, t: string, i: nat)
    requires i <= |t| && AmountAfterKeyword(kws, t, i).Some?
    ensures AmountCaptures(kws, t, i, AmountAfterKeyword(kws, t, i).value)
  {
    var g := AmountAfterKeyword(kws, t, i).value;
    var k := KeywordEnd(kws, t, i).value;
    var n :| 0 <= n < |kws| && LitAt(t, i, kws[n]) && k == i + |kws[n]|;
    var d := FillerEnd(t, k);
    var e := AmountEnd(t, d).value;
    FillerOfEnd(t, k);
    AmountEndIff(t, d, e);
    AmountCapturesOf(kws, t, i, n, d, e);
  }

  lemma AmountCapturesOf(kws: seq<string>, t: string, i: nat, n: nat, d: nat, e: nat)
    requires n < |kws| && LitAt(t, i, kws[n])
    requires Filler(t, i + |kws[n]|, d) && LongestAmount(t, d, e)
    ensures AmountCaptures(kws, t, i, t[d..e])
  {
    var g := t[d..e];
    assert d + |g| == e;
    assert AmountCapturesVia(kws, t, i, g, n, d);
  }

  lemma AmountAtComplete(kws: seq<string>, t: string, i: nat, g: string)
    requires i <= |t| && DistinctHeads(kws) && AmountCaptures(kws, t, i, g)
    ensures AmountAfterKeyword(kws, t, i) == Some(g)
  {
    var n: nat, d: nat :| AmountCapturesVia(kws, t, i, g, n, d);
    AmountAtCompleteVia(kws, t, i, g, n, d);
  }

  lemma AmountAtCompleteVia(kws: seq<string>, t: string, i: nat, g: string, n: nat, d: nat)
    requires i <= |t| && DistinctHeads(kws) && AmountCapturesVia(kws, t, i, g, n, d)
    ensures AmountAfterKeyword(kws, t, i) == Some(g)
  {
    var k := i + |kws[n]|;
    var e := d + |g|;
    KeywordEndOf(kws, t, i, n);
    AmountStartsWell(t, d, e);
    FillerUnique(t, k, d);
    AmountEndIff(t, d, e);
    assert t[d..e] == g;
    AmountAfterKeywordOf(kws, t, i, k, d, e);
  }

  lemma AmountAfterKeywordOf(kws: seq<string>, t: string, i: nat, k: nat, d: nat, e: nat)
    requires i <= |t| && d <= e <= |t|
    requires KeywordEnd(kws, t, i) == Some(k) && FillerEnd(t, k) == d && AmountEnd(t, d) == Some(e)
    ensures AmountAfterKeyword(kws, t, i) == Some(t[d..e])
  {
  }

  lemma KeywordEndOf(kws: seq<string>, t: string, i: nat, n: nat)
    requires DistinctHeads(kws) && n < |kws| && LitAt(t, i, kws[n])
    ensures KeywordEnd(kws, t, i) == Some(i + |kws[n]|)
  {
    var k0 := KeywordEnd(kws, t, i);
    var m :| 0 <= m < |kws| && LitAt(t, i, kws[m]) && k0.value == i + |kws[m]|;
    LitAtChars(t, i, kws[n]);
    LitAtChars(t, i, kws[m]);
  }

  lemma AmountStartsWell(t: string, d: nat, e: nat)
    requires LongestAmount(t, d, e)
    ensures d < |t| && InClass(t[d], DigitsCommas)
  {
    AmountChars(t[d..e], 0);
    var j :| 0 < j <= e - d && AllIn(t[d..e], 0, j, DigitsCommas);
    assert t[d..e][0] == t[d];
  }

  /** The scanner attempt and the declarative reading agree on every pattern. */
  lemma MatchAtIff(p: Pattern, t: string, i: nat, g: string)
    ensures MatchAt(p, t, i) == Some(g) <==> Captures(p, t, i, g)
  {
    if |t| < i {
      return;
    }
    match p
    case Percent => RunThenIff(t, i, g, DigitsDots, "%");
    case CentsPerKg => RunThenIff(t, i, g, DigitsDots, "¢/kg");
    case DollarsPerUnit =>
      if LitAt(t, i, "$") {
        RunThenIff(t, i + 1, g, DigitsDots, "/unit");
      }
    case HtsCode => HtsCodeIff(t, i, g);
    case Weight => WeightIff(t, i, g);
    case Quantity => QuantityIff(t, i, g);
    case _ =>
      KeywordsDistinct(p);
      if AmountAfterKeyword(Keywords(p), t, i) == Some(g) {
        AmountAtSound(Keywords(p), t, i);
      }
      if AmountCaptures(Keywords(p), t, i, g) {
        AmountAtComplete(Keywords(p), t, i, g);
      }
  }

  /** `re.search` semantics: the search reports position `k` with group `g`
      exactly when the pattern matches there with that group and matches at
      no earlier position. */
  lemma SearchLeftmost(p: Pattern, t: string, k: nat, g: string)
    ensures Search(p, t, 0) == Some(Hit(k, g))
        <==> Captures(p, t, k, g) && forall j: nat, g': string :: j < k ==> !Captures(p, t, j, g')
  {
    if Search(p, t, 0) == Some(Hit(k, g)) {
      SearchFirstCapture(p, t, k, g);
    }
    if Captures(p, t, k, g) && forall j: nat, g': string :: j < k ==> !Captures(p, t, j, g') {
      FirstCaptureSearched(p, t, k, g);
    }
  }

  lemma SearchFirstCapture(p: Pattern, t: string, k: nat, g: string)
    requires Search(p, t, 0) == Some(Hit(k, g))
    ensures Captures(p, t, k, g)
    ensures forall j: nat, g': string :: j < k ==> !Captures(p, t, j, g')
  {
    MatchAtIff(p, t, k, g);
    forall j: nat, g': string | j < k ensures !Captures(p, t, j, g') {
      MatchAtIff(p, t, j, g');
    }
  }

  lemma FirstCaptureSearched(p: Pattern, t: string, k: nat, g: string)
    requires Captures(p, t, k, g)
    requires forall j: nat, g': string :: j < k ==> !Captures(p, t, j, g')
    ensures Search(p, t, 0) == Some(Hit(k, g))
  {
    MatchAtIff(p, t, k, g);
    assert MatchAt(p, t, k) == Some(g);
    assert k <= |t|;
    var h := Search(p, t, 0).value;
    MatchAtIff(p, t, h.at, h.group);
    assert !Captures(p, t, h.at, h.group) || k <= h.at;
    assert h.at <= k;
  }

  /** The search finds nothing exactly when the pattern matches nowhere. */
  lemma SearchNone(p: Pattern, t: string)
    ensures Search(p, t, 0).None? <==> forall j: nat, g: string :: !Captures(p, t, j, g)
  {
    if Search(p, t, 0).None? {
      forall j: nat, g: string ensures !Captures(p, t, j, g) {
        MatchAtIff(p, t, j, g);
        if j <= |t| { assert MatchAt(p, t, j).None?; }
      }
    } else {
      var h := Search(p, t, 0).value;
      MatchAtIff(p, t, h.at, h.group);
    }
  }

  /** Pattern `p` matches `t` at `k` with group `g`, and at no earlier
      position with any group: the match `re.search` reports. */
  ghost predicate FirstCapture(p: Pattern, t: string, k: nat, g: string) {
    Captures(p, t, k, g) && forall j: nat, g': string :: j < k ==> !Captures(p, t, j, g')
  }

  /** Pattern `p` matches `t` at no position with any group. */
  ghost predicate NoCapture(p: Pattern, t: string) {
    forall j: nat, g: string :: !Captures(p, t, j, g)
  }

  /** The capture of the search is the group of the leftmost match. */
  lemma FindFirst(p: Pattern, t: string, k: nat, g: string)
    requires FirstCapture(p, t, k, g)
    ensures Find(p, t) == Some(g)
  {
    SearchLeftmost(p, t, k, g);
  }

  /** A pattern that matches nowhere is found nowhere. */
  lemma FindNone(p: Pattern, t: string)
    requires NoCapture(p, t)
    ensures Find(p, t).None?
  {
    SearchNone(p, t);
  }
}
