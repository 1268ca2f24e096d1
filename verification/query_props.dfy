/** How the searches of `calculate_from_query` behave on a query assembled
    from pieces. An attempt of a pattern reads the text only from its own
    position on, so the attempts inside a tail are the attempts on the tail
    alone; a position whose character cannot open the pattern fails; and a
    run of number characters with no "kg" (or "unit") after it holds no
    weight (or quantity). With these, `re.search` over a query is decided one
    piece at a time. */
module QueryProperties {
  import opened Wrappers
  import opened Text
  import opened Scan
  import opened PatternSpec
  import opened Engine

  // ---------------------------------------------------------------------
  // Locality: a prefix moves every position and changes no attempt

  lemma SliceShift(a: string, b: string, i: nat, j: nat)
    requires i <= j <= |b|
    ensures (a + b)[|a| + i..|a| + j] == b[i..j]
  {
    var t := a + b;
    forall x | 0 <= x < j - i ensures t[|a| + i..|a| + j][x] == b[i..j][x] {
      assert t[|a| + i..|a| + j][x] == t[|a| + i + x];
    }
  }

  lemma LitAtShift(a: string, b: string, i: nat, lit: string)
    ensures LitAt(a + b, |a| + i, lit) <==> LitAt(b, i, lit)
  {
    if i + |lit| <= |b| {
      SliceShift(a, b, i, i + |lit|);
    }
  }

  lemma RunEndShift(a: string, b: string, i: nat, k: CharClass)
    requires i <= |b|
    ensures RunEnd(a + b, |a| + i, k) == |a| + RunEnd(b, i, k)
  {
    var t, j := a + b, RunEnd(b, i, k);
    assert AllIn(t, |a| + i, |a| + j, k) by {
      forall x | |a| + i <= x < |a| + j ensures InClass(t[x], k) {
        assert t[x] == b[x - |a|];
      }
    }
    assert RunStops(t, |a| + j, k) by {
      if j < |b| {
        assert t[|a| + j] == b[j];
      }
    }
    RunEndUnique(t, |a| + i, |a| + j, k);
  }

  /** A position found in the tail, seen from the whole text. */
  function Moved(k: Option<nat>, n: nat): Option<nat> {
    if k.Some? then Some(k.value + n) else None
  }

  lemma {:induction false} KeywordEndShift(kws: seq<string>, a: string, b: string, i: nat)
    ensures KeywordEnd(kws, a + b, |a| + i) == Moved(KeywordEnd(kws, b, i), |a|)
    decreases |kws|
  {
    if 0 < |kws| {
      LitAtShift(a, b, i, kws[0]);
      if !LitAt(b, i, kws[0]) {
        KeywordEndShift(kws[1..], a, b, i);
      }
    }
  }

  lemma FillerEndShift(a: string, b: string, k: nat)
    requires k <= |b|
    ensures FillerEnd(a + b, |a| + k) == |a| + FillerEnd(b, k)
  {
    var x := RunEnd(b, k, Spaces);
    RunEndShift(a, b, k, Spaces);
    LitAtShift(a, b, x, "of");
    if LitAt(b, x, "of") {
      RunEndShift(a, b, x + 2, Spaces);
      LitAtShift(a, b, RunEnd(b, x + 2, Spaces), "$");
    } else {
      LitAtShift(a, b, x, "$");
    }
  }

  lemma AmountEndShift(a: string, b: string, d: nat)
    requires d <= |b|
    ensures AmountEnd(a + b, |a| + d) == Moved(AmountEnd(b, d), |a|)
  {
    var t, j := a + b, RunEnd(b, d, DigitsCommas);
    RunEndShift(a, b, d, DigitsCommas);
    if j + 1 < |b| {
      assert t[|a| + j] == b[j] && t[|a| + j + 1] == b[j + 1];
      if b[j] == '.' && IsDigit(b[j + 1]) {
        RunEndShift(a, b, j + 1, Digits);
      }
    }
  }

  lemma RunThenShift(a: string, b: string, i: nat, k: CharClass, lit: string)
    requires i <= |b|
    ensures RunThen(a + b, |a| + i, k, lit) == RunThen(b, i, k, lit)
  {
    var j := RunEnd(b, i, k);
    RunEndShift(a, b, i, k);
    LitAtShift(a, b, j, lit);
    SliceShift(a, b, i, j);
  }

  lemma CodeAtShift(a: string, b: string, i: nat)
    requires i <= |b|
    ensures CodeAt(a + b, |a| + i) == CodeAt(b, i)
  {
    LitAtShift(a, b, i, "hts code");
    if LitAt(b, i, "hts code") {
      var w := RunEnd(b, i + 8, Spaces);
      RunEndShift(a, b, i + 8, Spaces);
      RunEndShift(a, b, w, DigitsDots);
      SliceShift(a, b, w, RunEnd(b, w, DigitsDots));
    }
  }

  lemma WeightAtShift(a: string, b: string, i: nat)
    requires i <= |b|
    ensures WeightAt(a + b, |a| + i) == WeightAt(b, i)
  {
    AmountEndShift(a, b, i);
    match AmountEnd(b, i)
    case None =>
    case Some(e) => WeightAtShiftFound(a, b, i, e);
  }

  lemma WeightAtShiftFound(a: string, b: string, i: nat, e: nat)
    requires i <= |b| && AmountEnd(b, i) == Some(e) && AmountEnd(a + b, |a| + i) == Some(|a| + e)
    ensures WeightAt(a + b, |a| + i) == WeightAt(b, i)
  {
    RunEndShift(a, b, e, Spaces);
    LitAtShift(a, b, RunEnd(b, e, Spaces), "kg");
    SliceShift(a, b, i, e);
  }

  lemma QuantityAtShift(a: string, b: string, i: nat)
    requires i <= |b|
    ensures QuantityAt(a + b, |a| + i) == QuantityAt(b, i)
  {
    var j := RunEnd(b, i, DigitsCommas);
    RunEndShift(a, b, i, DigitsCommas);
    RunEndShift(a, b, j, Spaces);
    LitAtShift(a, b, RunEnd(b, j, Spaces), "unit");
    SliceShift(a, b, i, j);
  }

  /** The amount the greedy quantifiers read from `d` on, if any. */
  function AmountFrom(t: string, d: nat): Option<string>
    requires d <= |t|
  {
    match AmountEnd(t, d)
    case None => None
    case Some(e) => Some(t[d..e])
  }

  /** Once a keyword has been read, the attempt captures the amount after
      the filler. */
  lemma AfterKeywordIs(kws: seq<string>, t: string, i: nat, k: nat)
    requires i <= |t| && KeywordEnd(kws, t, i) == Some(k) && k <= |t|
    ensures AmountAfterKeyword(kws, t, i) == AmountFrom(t, FillerEnd(t, k))
  {
  }

  lemma KeywordEndBound(kws: seq<string>, t: string, i: nat)
    requires KeywordEnd(kws, t, i).Some?
    ensures KeywordEnd(kws, t, i).value <= |t|
  {
  }

  lemma KeywordStep(kws: seq<string>, a: string, b: string, i: nat, k: nat)
    requires i <= |b| && KeywordEnd(kws, b, i) == Some(k)
    ensures KeywordEnd(kws, a + b, |a| + i) == Some(|a| + k) && k <= |b|
  {
    KeywordEndShift(kws, a, b, i);
    KeywordEndBound(kws, b, i);
  }

  lemma AmountFromShift(a: string, b: string, d: nat)
    requires d <= |b|
    ensures AmountFrom(a + b, |a| + d) == AmountFrom(b, d)
  {
    AmountEndShift(a, b, d);
    if AmountEnd(b, d).Some? {
      SliceShift(a, b, d, AmountEnd(b, d).value);
    }
  }

  lemma AmountAfterKeywordShift(kws: seq<string>, a: string, b: string, i: nat)
    requires i <= |b|
    ensures AmountAfterKeyword(kws, a + b, |a| + i) == AmountAfterKeyword(kws, b, i)
  {
    KeywordEndShift(kws, a, b, i);
    if KeywordEnd(kws, b, i).Some? {
      AmountAfterKeywordShiftFound(kws, a, b, i, KeywordEnd(kws, b, i).value);
    }
  }

  lemma AmountAfterKeywordShiftFound(kws: seq<string>, a: string, b: string, i: nat, k: nat)
    requires i <= |b| && KeywordEnd(kws, b, i) == Some(k)
    ensures AmountAfterKeyword(kws, a + b, |a| + i) == AmountAfterKeyword(kws, b, i)
  {
    AmountAfterShiftedKeyword(kws, a, b, i, k);
    AfterKeywordIs(kws, b, i, k);
  }

  lemma AmountAfterShiftedKeyword(kws: seq<string>, a: string, b: string, i: nat, k: nat)
    requires i <= |b| && KeywordEnd(kws, b, i) == Some(k)
    ensures k <= |b| && AmountAfterKeyword(kws, a + b, |a| + i) == AmountFrom(b, FillerEnd(b, k))
  {
    KeywordStep(kws, a, b, i, k);
    AfterShiftedKeywordIs(kws, a, b, i, k);
    AfterShiftedFiller(kws, a, b, i, k);
  }

  lemma AfterShiftedKeywordIs(kws: seq<string>, a: string, b: string, i: nat, k: nat)
    requires i <= |b| && KeywordEnd(kws, a + b, |a| + i) == Some(|a| + k) && k <= |b|
    ensures AmountAfterKeyword(kws, a + b, |a| + i) == AmountFrom(a + b, FillerEnd(a + b, |a| + k))
  {
    AfterKeywordIs(kws, a + b, |a| + i, |a| + k);
  }

  lemma AfterShiftedFiller(kws: seq<string>, a: string, b: string, i: nat, k: nat)
    requires i <= |b| && k <= |b|
    requires AmountAfterKeyword(kws, a + b, |a| + i) == AmountFrom(a + b, FillerEnd(a + b, |a| + k))
    ensures AmountAfterKeyword(kws, a + b, |a| + i) == AmountFrom(b, FillerEnd(b, k))
  {
    AmountAfterFillerShift(a, b, k);
  }

  lemma AmountAfterFillerShift(a: string, b: string, k: nat)
    requires k <= |b|
    ensures FillerEnd(a + b, |a| + k) <= |a + b|
    ensures AmountFrom(a + b, FillerEnd(a + b, |a| + k)) == AmountFrom(b, FillerEnd(b, k))
  {
    FillerEndShift(a, b, k);
    AmountFromShift(a, b, FillerEnd(b, k));
  }

  /** Every pattern's attempt at a position of the tail `b` is its attempt on
      `b` alone: what precedes a position never changes whether or what the
      pattern matches there. */
  lemma MatchAtShift(p: Pattern, a: string, b: string, i: nat)
    ensures MatchAt(p, a + b, |a| + i) == MatchAt(p, b, i)
  {
    if i <= |b| {
      match p
      case Percent => RunThenShift(a, b, i, DigitsDots, "%");
      case CentsPerKg => RunThenShift(a, b, i, DigitsDots, "¢/kg");
      case DollarsPerUnit =>
        LitAtShift(a, b, i, "$");
        if LitAt(b, i, "$") {
          RunThenShift(a, b, i + 1, DigitsDots, "/unit");
        }
      case HtsCode => CodeAtShift(a, b, i);
      case Weight => WeightAtShift(a, b, i);
      case Quantity => QuantityAtShift(a, b, i);
      case Cost => AmountAfterKeywordShift(Keywords(p), a, b, i);
      case Freight => AmountAfterKeywordShift(Keywords(p), a, b, i);
      case Insurance => AmountAfterKeywordShift(Keywords(p), a, b, i);
    }
  }

  // ---------------------------------------------------------------------
  // Leftmost matches, assembled piece by piece

  /** No attempt of `p` succeeds at a position in `[lo, hi)`. */
  ghost predicate NoneIn(p: Pattern, t: string, lo: nat, hi: nat) {
    forall j :: lo <= j < hi ==> MatchAt(p, t, j).None?
  }

  /** The first attempt of `p` that succeeds is at `k` and captures `g`. */
  ghost predicate FirstAt(p: Pattern, t: string, k: nat, g: string) {
    NoneIn(p, t, 0, k) && MatchAt(p, t, k) == Some(g)
  }

  lemma NoneInShift(p: Pattern, a: string, b: string, lo: nat, hi: nat)
    requires NoneIn(p, b, lo, hi)
    ensures NoneIn(p, a + b, |a| + lo, |a| + hi)
  {
    forall j | |a| + lo <= j < |a| + hi ensures MatchAt(p, a + b, j).None? {
      NoneAtShiftTo(p, a, b, j);
    }
  }

  lemma NoneAtShiftTo(p: Pattern, a: string, b: string, j: nat)
    requires |a| <= j && MatchAt(p, b, j - |a|).None?
    ensures MatchAt(p, a + b, j).None?
  {
    NoneAtShift(p, a, b, j - |a|);
  }

  lemma NoneAtShift(p: Pattern, a: string, b: string, i: nat)
    requires MatchAt(p, b, i).None?
    ensures MatchAt(p, a + b, |a| + i).None?
  {
    MatchAtShift(p, a, b, i);
  }

  /** A piece in which `p` never succeeds, followed by a tail in which it
      first succeeds at `k`: the whole text first succeeds `|a|` later. */
  lemma FirstAtShift(p: Pattern, a: string, b: string, k: nat, g: string)
    requires NoneIn(p, a + b, 0, |a|) && FirstAt(p, b, k, g)
    ensures FirstAt(p, a + b, |a| + k, g)
  {
    NoneInShift(p, a, b, 0, k);
    MatchAtShift(p, a, b, k);
  }

  /** A piece in which `p` never succeeds, followed by a tail in which it
      never succeeds either. */
  lemma NoneInJoin(p: Pattern, a: string, b: string)
    requires NoneIn(p, a + b, 0, |a|) && NoneIn(p, b, 0, |b| + 1)
    ensures NoneIn(p, a + b, 0, |a + b| + 1)
  {
    NoneInShift(p, a, b, 0, |b| + 1);
  }

  /** `re.search` reports the first successful attempt. */
  lemma FindFirstAt(p: Pattern, t: string, k: nat, g: string)
    requires FirstAt(p, t, k, g)
    ensures Find(p, t) == Some(g)
  {
    assert MatchAt(p, t, k) == Some(g);
    assert k <= |t|;
    var h := Search(p, t, 0).value;
    assert MatchAt(p, t, h.at).Some?;
    assert h.at <= k;
    assert k <= h.at;
  }

  /** `re.search` fails when no attempt succeeds. */
  lemma FindNowhere(p: Pattern, t: string)
    requires NoneIn(p, t, 0, |t| + 1)
    ensures Find(p, t).None?
  {
  }

  // ---------------------------------------------------------------------
  // Positions where a pattern cannot match

  /** The characters a match of `p` can start with. */
  predicate Opens(p: Pattern, c: char) {
    match p
    case Percent => InClass(c, DigitsDots)
    case CentsPerKg => InClass(c, DigitsDots)
    case DollarsPerUnit => c == '$'
    case HtsCode => c == 'h'
    case Cost => c == 'c' || c == 'p' || c == 'f'
    case Freight => c == 'f'
    case Insurance => c == 'i'
    case Weight => InClass(c, DigitsCommas)
    case Quantity => InClass(c, DigitsCommas)
  }

  /** An attempt at a character that cannot open `p` fails. */
  lemma OpensNeeded(p: Pattern, t: string, j: nat)
    requires j < |t| && !Opens(p, t[j])
    ensures MatchAt(p, t, j).None?
  {
    match p
    case Percent => RunEndUnique(t, j, j, DigitsDots);
    case CentsPerKg => RunEndUnique(t, j, j, DigitsDots);
    case DollarsPerUnit => NotLitAt(t, j, "$");
    case HtsCode => NotLitAt(t, j, "hts code");
    case Weight => RunEndUnique(t, j, j, DigitsCommas);
    case Quantity => RunEndUnique(t, j, j, DigitsCommas);
    case _ =>
      forall n | 0 <= n < |Keywords(p)| ensures !LitAt(t, j, Keywords(p)[n]) {
        NotLitAt(t, j, Keywords(p)[n]);
      }
  }

  /** A stretch of characters none of which opens `p` holds no match of `p`. */
  lemma ClosedStretch(p: Pattern, t: string, lo: nat, hi: nat)
    requires hi <= |t|
    requires forall x :: lo <= x < hi ==> !Opens(p, t[x])
    ensures NoneIn(p, t, lo, hi)
  {
    forall j | lo <= j < hi ensures MatchAt(p, t, j).None? {
      OpensNeeded(p, t, j);
    }
  }

  /** No pattern matches at the very end of the text. */
  lemma NoneAtEnd(p: Pattern, t: string)
    ensures NoneIn(p, t, |t|, |t| + 1)
  {
    assert RunEnd(t, |t|, DigitsDots) == |t| && RunEnd(t, |t|, DigitsCommas) == |t|;
  }

  /** A literal does not read where one of its characters differs. */
  lemma LitAtDiffers(t: string, i: nat, lit: string, x: nat)
    requires x < |lit| && i + x < |t| && t[i + x] != lit[x]
    ensures !LitAt(t, i, lit)
  {
    if i + |lit| <= |t| {
      assert t[i..i + |lit|][x] == t[i + x];
    }
  }

  /** A keyword pattern fails where none of its keywords reads. */
  lemma NoKeywordAt(p: Pattern, t: string, j: nat)
    requires p.Cost? || p.Freight? || p.Insurance?
    requires forall n :: 0 <= n < |Keywords(p)| ==> !LitAt(t, j, Keywords(p)[n])
    ensures MatchAt(p, t, j).None?
  {
  }

  /** A run of number characters over `[lo, hi)` that the next character does
      not continue, with no "kg" after the spaces that follow it, holds no
      start of a weight. */
  lemma NoWeightInRun(t: string, lo: nat, hi: nat)
    requires lo <= hi <= |t|
    requires forall x :: lo <= x < hi ==> NumberChar(t[x])
    requires hi == |t| || !NumberChar(t[hi])
    requires !LitAt(t, RunEnd(t, hi, Spaces), "kg")
    ensures NoneIn(Weight, t, lo, hi)
  {
    forall j | lo <= j < hi ensures MatchAt(Weight, t, j).None? {
      NoWeightInRunAt(t, j, hi);
    }
  }

  lemma NoWeightInRunAt(t: string, j: nat, hi: nat)
    requires j < hi <= |t|
    requires forall x :: j <= x < hi ==> NumberChar(t[x])
    requires hi == |t| || !NumberChar(t[hi])
    requires !LitAt(t, RunEnd(t, hi, Spaces), "kg")
    ensures WeightAt(t, j).None?
  {
    AmountEndWithin(t, j, hi);
    match AmountEnd(t, j)
    case None =>
    case Some(e) => NoUnitAfter(t, e, hi, "kg");
  }

  /** An amount read inside a run of number characters ends within it. */
  lemma AmountEndWithin(t: string, j: nat, hi: nat)
    requires j <= hi <= |t|
    requires hi == |t| || !NumberChar(t[hi])
    ensures AmountEnd(t, j).Some? ==> AmountEnd(t, j).value <= hi
  {
  }

  /** A unit after spaces cannot follow a position inside a run of number
      characters, and after the run none follows. */
  lemma NoUnitAfter(t: string, e: nat, hi: nat, unit: string)
    requires e <= hi <= |t|
    requires forall x :: e <= x < hi ==> NumberChar(t[x])
    requires 0 < |unit| && !NumberChar(unit[0])
    requires !LitAt(t, RunEnd(t, hi, Spaces), unit)
    ensures !LitAt(t, RunEnd(t, e, Spaces), unit)
  {
    if e < hi {
      assert NumberChar(t[e]);
      RunEndUnique(t, e, e, Spaces);
      NotLitAt(t, e, unit);
    }
  }

  /** The same for a quantity: a run of number characters with no "unit"
      after the spaces that follow it holds no start of a quantity. */
  lemma NoQuantityInRun(t: string, lo: nat, hi: nat)
    requires lo <= hi <= |t|
    requires forall x :: lo <= x < hi ==> NumberChar(t[x])
    requires hi == |t| || !NumberChar(t[hi])
    requires !LitAt(t, RunEnd(t, hi, Spaces), "unit")
    ensures NoneIn(Quantity, t, lo, hi)
  {
    forall j | lo <= j < hi ensures MatchAt(Quantity, t, j).None? {
      NoQuantityInRunAt(t, j, hi);
    }
  }

  lemma NoQuantityInRunAt(t: string, j: nat, hi: nat)
    requires j < hi <= |t|
    requires forall x :: j <= x < hi ==> NumberChar(t[x])
    requires hi == |t| || !NumberChar(t[hi])
    requires !LitAt(t, RunEnd(t, hi, Spaces), "unit")
    ensures QuantityAt(t, j).None?
  {
    RunEndWithin(t, j, hi);
    NoUnitAfter(t, RunEnd(t, j, DigitsCommas), hi, "unit");
  }

  /** A digits-and-commas run started inside a run of number characters
      ends within it. */
  lemma RunEndWithin(t: string, j: nat, hi: nat)
    requires j <= hi <= |t|
    requires hi == |t| || !NumberChar(t[hi])
    ensures RunEnd(t, j, DigitsCommas) <= hi
  {
  }

  // ---------------------------------------------------------------------
  // Matches at the start of a tail

  /** Spaces only. */
  predicate Blank(s: string) {
    forall x :: 0 <= x < |s| ==> IsSpace(s[x])
  }

  /** A group of digits and commas that the next character does not continue,
      not even with a fractional part. */
  predicate EndsAmount(g: string, rest: string) {
    && 0 < |g| && (forall x :: 0 <= x < |g| ==> InClass(g[x], DigitsCommas))
    && (rest == [] || (!InClass(rest[0], DigitsCommas) && rest[0] != '.'))
  }

  /** "hts code", spaces, then a code that the next character does not
      continue: the code is captured. */
  lemma CodeAtStart(sp: string, code: string, rest: string)
    requires Blank(sp) && 0 < |code| && AllIn(code, 0, |code|, DigitsDots)
    requires rest == [] || !InClass(rest[0], DigitsDots)
    ensures FirstAt(HtsCode, "hts code" + sp + code + rest, 0, code)
  {
    var t := "hts code" + sp + code + rest;
    var w, j := 8 + |sp|, 8 + |sp| + |code|;
    assert LitAt(t, 0, "hts code") by {
      assert t[..8] == "hts code";
    }
    RunEndUnique(t, 8, w, Spaces);
    assert AllIn(t, w, j, DigitsDots) by {
      forall x | w <= x < j ensures InClass(t[x], DigitsDots) {
        assert t[x] == code[x - w];
      }
    }
    RunEndUnique(t, w, j, DigitsDots);
    assert t[w..j] == code;
  }

  /** A keyword of `p`, spaces, an optional dollar sign, then an amount the
      next character does not continue: the amount is captured. */
  lemma KeywordAmountAtStart(p: Pattern, n: nat, sp: string, dollar: string, g: string, rest: string)
    requires p.Cost? || p.Freight? || p.Insurance?
    requires n < |Keywords(p)|
    requires Blank(sp) && (dollar == "" || dollar == "$") && EndsAmount(g, rest)
    ensures FirstAt(p, Keywords(p)[n] + sp + dollar + g + rest, 0, g)
  {
    var kws := Keywords(p);
    var t := kws[n] + sp + dollar + g + rest;
    KeywordsDistinct(p);
    KeywordOpens(kws, n, sp, dollar, g, rest);
    FillerOfAmount(kws[n], sp, dollar, g, rest);
    AmountOfAmount(kws[n], sp, dollar, g, rest);
    KeywordThenAmount(p, t, |kws[n]|, |kws[n]| + |sp| + |dollar|, g);
  }

  lemma KeywordOpens(kws: seq<string>, n: nat, sp: string, dollar: string, g: string, rest: string)
    requires DistinctHeads(kws) && n < |kws|
    ensures KeywordEnd(kws, kws[n] + sp + dollar + g + rest, 0) == Some(|kws[n]|)
  {
    var t := kws[n] + sp + dollar + g + rest;
    assert t[..|kws[n]|] == kws[n];
    KeywordEndOf(kws, t, 0, n);
  }

  lemma FillerOfAmount(kw: string, sp: string, dollar: string, g: string, rest: string)
    requires Blank(sp) && (dollar == "" || dollar == "$") && EndsAmount(g, rest)
    ensures FillerEnd(kw + sp + dollar + g + rest, |kw|) == |kw| + |sp| + |dollar|
  {
    assert kw + sp + dollar + g + rest == kw + sp + dollar + (g + rest);
    FillerBeforeAmount(kw, sp, dollar, g + rest);
  }

  lemma AmountOfAmount(kw: string, sp: string, dollar: string, g: string, rest: string)
    requires EndsAmount(g, rest)
    ensures AmountFrom(kw + sp + dollar + g + rest, |kw| + |sp| + |dollar|) == Some(g)
  {
    AmountInTail(kw + sp + dollar, g, rest);
  }

  lemma KeywordThenAmount(p: Pattern, t: string, k: nat, d: nat, g: string)
    requires p.Cost? || p.Freight? || p.Insurance?
    requires KeywordEnd(Keywords(p), t, 0) == Some(k) && k <= |t| && FillerEnd(t, k) == d
    requires d <= |t| && AmountFrom(t, d) == Some(g)
    ensures FirstAt(p, t, 0, g)
  {
    AfterKeywordIs(Keywords(p), t, 0, k);
    assert MatchAt(p, t, 0) == AmountAfterKeyword(Keywords(p), t, 0);
  }

  /** Spaces and an optional dollar sign before an amount are the filler. */
  lemma FillerBeforeAmount(kw: string, sp: string, dollar: string, u: string)
    requires Blank(sp) && (dollar == "" || dollar == "$")
    requires 0 < |u| && InClass(u[0], DigitsCommas)
    ensures FillerEnd(kw + sp + dollar + u, |kw|) == |kw| + |sp| + |dollar|
  {
    var t := kw + sp + dollar + u;
    var k, a := |kw|, |kw| + |sp|;
    assert t[a] == if dollar == "" then u[0] else '$';
    StopsFiller(t[a]);
    assert AllIn(t, k, a, Spaces) by {
      forall x | k <= x < a ensures InClass(t[x], Spaces) {
        assert t[x] == sp[x - k];
      }
    }
    RunEndUnique(t, k, a, Spaces);
    NotLitAt(t, a, "of");
    DollarAt(t, a);
  }

  /** An amount the next character does not continue ends where it ends. */
  lemma AmountInTail(pre: string, g: string, rest: string)
    requires EndsAmount(g, rest)
    ensures AmountEnd(pre + g + rest, |pre|) == Some(|pre| + |g|)
    ensures (pre + g + rest)[|pre|..|pre| + |g|] == g
  {
    var t := pre + g + rest;
    var d, e := |pre|, |pre| + |g|;
    assert AllIn(t, d, e, DigitsCommas) by {
      forall x | d <= x < e ensures InClass(t[x], DigitsCommas) {
        assert t[x] == g[x - d];
      }
    }
    assert RunStops(t, e, DigitsCommas) by {
      if e < |t| {
        assert t[e] == rest[0];
      }
    }
    RunEndUnique(t, d, e, DigitsCommas);
    assert e + 1 < |t| ==> t[e] == rest[0];
    assert t[d..e] == g;
  }

  /** An amount, spaces, then "kg": the amount is captured. */
  lemma WeightAtStart(g: string, sp: string, rest: string)
    requires Blank(sp) && EndsAmount(g, sp + "kg" + rest)
    ensures FirstAt(Weight, g + sp + "kg" + rest, 0, g)
  {
    var t := g + sp + "kg" + rest;
    var e := |g|;
    assert AllIn(t, 0, e, DigitsCommas) by {
      forall x | 0 <= x < e ensures InClass(t[x], DigitsCommas) {
        assert t[x] == g[x];
      }
    }
    RunEndUnique(t, 0, e, DigitsCommas);
    assert AmountEnd(t, 0) == Some(e);
    RunEndUnique(t, e, e + |sp|, Spaces);
    assert t[e + |sp|..e + |sp| + 2] == "kg";
    assert t[0..e] == g;
  }

  /** Digits and commas, spaces, then "unit": the digits are captured. */
  lemma QuantityAtStart(g: string, sp: string, rest: string)
    requires Blank(sp) && EndsAmount(g, sp + "unit" + rest)
    ensures FirstAt(Quantity, g + sp + "unit" + rest, 0, g)
  {
    var t := g + sp + "unit" + rest;
    var e := |g|;
    assert AllIn(t, 0, e, DigitsCommas) by {
      forall x | 0 <= x < e ensures InClass(t[x], DigitsCommas) {
        assert t[x] == g[x];
      }
    }
    RunEndUnique(t, 0, e, DigitsCommas);
    RunEndUnique(t, e, e + |sp|, Spaces);
    assert t[e + |sp|..e + |sp| + 4] == "unit";
    assert t[0..e] == g;
  }
}
