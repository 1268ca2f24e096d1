/** What the duty-rate parser promises: empty or non-string cells give zero,
    "free" anywhere wins, a percentage anywhere in the text is decided before
    the specific rates, a specific rate needs its weight or quantity, and
    anything else falls back to zero. Each pattern is read through the match
    `re.search` reports: the leftmost position where it matches
    (`FirstCapture`), or none at all (`NoCapture`). */
module RateProperties {
  import opened Wrappers
  import opened Text
  import opened Numbers
  import opened Errors
  import opened Scan
  import opened PatternSpec
  import opened Tariff
  import opened Rate

  /** Without a "%" sign the percentage pattern matches nowhere. */
  lemma NoPercentWithoutSign(t: string)
    requires '%' !in t
    ensures NoCapture(Percent, t)
  {
    forall j: nat, g: string ensures !Captures(Percent, t, j, g) {
      NoLitWithoutHead(t, j + |g|, "%");
    }
  }

  /** Without a "¢" sign the cents-per-kilogram pattern matches nowhere. */
  lemma NoCentsWithoutSign(t: string)
    requires '¢' !in t
    ensures NoCapture(CentsPerKg, t)
  {
    forall j: nat, g: string ensures !Captures(CentsPerKg, t, j, g) {
      NoLitWithoutHead(t, j + |g|, "¢/kg");
    }
  }

  /** Without a "$" sign the dollars-per-unit pattern matches nowhere. */
  lemma NoDollarsWithoutSign(t: string)
    requires '$' !in t
    ensures NoCapture(DollarsPerUnit, t)
  {
    forall j: nat, g: string ensures !Captures(DollarsPerUnit, t, j, g) {
      NoLitWithoutHead(t, j, "$");
    }
  }

  /** A text with no letter f in either case does not contain "free" once lower-cased. */
  lemma NoFreeWithoutF(s: string)
    requires 'f' !in s && 'F' !in s
    ensures !Contains(Lower(s), "free")
  {
    if Contains(Lower(s), "free") {
      ContainsHead(Lower(s), "free");
    }
  }

  /** "free" in any letter case and at any position gives 0.0, whatever else
      the text holds. */
  lemma FreeWins(before: string, free: string, after: string,
                 cif: real, weight: Option<real>, quantity: Option<int>)
    requires Lower(free) == "free"
    ensures ParseDuty(Str(before + free + after), cif, weight, quantity) == Success(0.0)
  {
    LowerConcat(before + free, after);
    LowerConcat(before, free);
    ContainsInfix(Lower(before), "free", Lower(after));
  }

  /** A capture of any pattern lies inside the text, so the text is not empty. */
  lemma CapturedTextNonEmpty(p: Pattern, s: string, k: nat, g: string)
    requires FirstCapture(p, Lower(s), k, g)
    ensures s != ""
  {
    MatchAtIff(p, Lower(s), k, g);
  }

  /** Wherever the leftmost match of `([0-9.]+)%` lies, its number decides the
      rule: a percentage, whatever weight or quantity is given and whatever
      specific rates the text also holds, before or after it; a number Python
      cannot read raises ValueError. */
  lemma PercentDecides(s: string, k: nat, tok: string, weight: Option<real>, quantity: Option<int>)
    requires !Contains(Lower(s), "free")
    requires FirstCapture(Percent, Lower(s), k, tok)
    ensures AllIn(tok, 0, |tok|, DigitsDots)
    ensures Classify(Str(s), weight, quantity)
         == match ParseFloat(tok)
            case Some(v) => Success(AdValorem(v))
            case None => Failure(ValueError(FloatErrorMessage(tok)))
  {
    CapturedTextNonEmpty(Percent, s, k, tok);
    FindFirst(Percent, Lower(s), k, tok);
  }

  /** When the percentage pattern matches nowhere and a weight is given, the
      leftmost match of `([0-9.]+)¢/kg` decides: that many cents per
      kilogram of the weight, whatever else the text holds. */
  lemma CentsPerKgDecides(s: string, k: nat, tok: string, wt: real, quantity: Option<int>)
    requires !Contains(Lower(s), "free")
    requires NoCapture(Percent, Lower(s))
    requires FirstCapture(CentsPerKg, Lower(s), k, tok)
    ensures AllIn(tok, 0, |tok|, DigitsDots)
    ensures Classify(Str(s), Some(wt), quantity)
         == match ParseFloat(tok)
            case Some(v) => Success(PerKg(v, wt))
            case None => Failure(ValueError(FloatErrorMessage(tok)))
  {
    CapturedTextNonEmpty(CentsPerKg, s, k, tok);
    FindNone(Percent, Lower(s));
    FindFirst(CentsPerKg, Lower(s), k, tok);
  }

  /** When the percentage pattern matches nowhere, and either no weight is
      given or the cents-per-kilogram pattern matches nowhere, the leftmost
      match of `\$([0-9.]+)/unit` decides with the given quantity. */
  lemma DollarsPerUnitDecides(s: string, k: nat, tok: string, weight: Option<real>, qty: int)
    requires !Contains(Lower(s), "free")
    requires NoCapture(Percent, Lower(s))
    requires weight.None? || NoCapture(CentsPerKg, Lower(s))
    requires FirstCapture(DollarsPerUnit, Lower(s), k, tok)
    ensures AllIn(tok, 0, |tok|, DigitsDots)
    ensures Classify(Str(s), weight, Some(qty))
         == match ParseFloat(tok)
            case Some(v) => Success(PerUnit(v, qty))
            case None => Failure(ValueError(FloatErrorMessage(tok)))
  {
    DollarsFound(s, k, tok, weight);
  }

  lemma DollarsFound(s: string, k: nat, tok: string, weight: Option<real>)
    requires NoCapture(Percent, Lower(s))
    requires weight.None? || NoCapture(CentsPerKg, Lower(s))
    requires FirstCapture(DollarsPerUnit, Lower(s), k, tok)
    ensures s != "" && AllIn(tok, 0, |tok|, DigitsDots)
    ensures Find(Percent, Lower(s)).None?
    ensures weight.None? || Find(CentsPerKg, Lower(s)).None?
    ensures Find(DollarsPerUnit, Lower(s)) == Some(tok)
  {
    CapturedTextNonEmpty(DollarsPerUnit, s, k, tok);
    FindNone(Percent, Lower(s));
    if weight.Some? {
      FindNone(CentsPerKg, Lower(s));
    }
    FindFirst(DollarsPerUnit, Lower(s), k, tok);
  }

  /** When no percentage matches, no cents-per-kilogram rate matches with a
      weight to apply it to, and no dollars-per-unit rate matches with a
      quantity, the fraction is 0.0. */
  lemma FallbackIsZero(s: string, cif: real, weight: Option<real>, quantity: Option<int>)
    requires NoCapture(Percent, Lower(s))
    requires weight.None? || NoCapture(CentsPerKg, Lower(s))
    requires quantity.None? || NoCapture(DollarsPerUnit, Lower(s))
    ensures ParseDuty(Str(s), cif, weight, quantity) == Success(0.0)
  {
    FindNone(Percent, Lower(s));
    if weight.Some? {
      FindNone(CentsPerKg, Lower(s));
    }
    if quantity.Some? {
      FindNone(DollarsPerUnit, Lower(s));
    }
  }

  /** Lower-casing a text of digits, dots and symbols followed by `rest`. */
  lemma LowerPrefix(head: string, rest: string)
    requires forall x :: 0 <= x < |head| ==> !('A' <= head[x] <= 'Z')
    ensures Lower(head + rest) == head + Lower(rest)
  {
    LowerConcat(head, rest);
    LowerFixed(head);
  }

  /** A digits-and-dots token directly followed by "%" at the start of the
      text is the leftmost percentage match. */
  lemma PercentAtStart(tok: string, rest: string)
    requires 0 < |tok| && AllIn(tok, 0, |tok|, DigitsDots)
    ensures FirstCapture(Percent, tok + "%" + rest, 0, tok)
  {
    var t := tok + "%" + rest;
    assert t[0..|tok|] == tok;
    assert t[|tok|..|tok| + 1] == "%";
  }

  /** A digits-and-dots token directly followed by "¢/kg" at the start of the
      text is the leftmost cents-per-kilogram match. */
  lemma CentsAtStart(tok: string, rest: string)
    requires 0 < |tok| && AllIn(tok, 0, |tok|, DigitsDots)
    ensures FirstCapture(CentsPerKg, tok + "¢/kg" + rest, 0, tok)
  {
    var t := tok + "¢/kg" + rest;
    assert t[0..|tok|] == tok;
    assert t[|tok|..|tok| + 4] == "¢/kg";
  }

  /** "$", a digits-and-dots token and "/unit" at the start of the text are
      the leftmost dollars-per-unit match. */
  lemma DollarsAtStart(tok: string, rest: string)
    requires 0 < |tok| && AllIn(tok, 0, |tok|, DigitsDots)
    ensures FirstCapture(DollarsPerUnit, "$" + tok + "/unit" + rest, 0, tok)
  {
    var t := "$" + tok + "/unit" + rest;
    assert t[0..1] == "$";
    assert t[1..1 + |tok|] == tok;
    assert t[1 + |tok|..1 + |tok| + 5] == "/unit";
  }

  /** A run of class `k` that starts at or before position `b`, where the
      text holds a character outside `k`, ends before `b`. */
  lemma RunBeforeBarrier(t: string, j: nat, g: string, b: nat, k: CharClass)
    requires LitAt(t, j, g) && AllIn(g, 0, |g|, k)
    requires j <= b < |t| && !InClass(t[b], k)
    ensures j + |g| <= b
  {
    forall p | j <= p < j + |g| ensures InClass(t[p], k) {
      LitAtChars(t, j, g);
      assert t[p] == g[p - j];
    }
  }

  /** Before the first `N%`, a prefix with no "%" that does not end in a digit
      or dot holds no match: that `N%` is the leftmost one, wherever it lies. */
  lemma PercentAfter(pre: string, tok: string, rest: string)
    requires 0 < |tok| && AllIn(tok, 0, |tok|, DigitsDots)
    requires '%' !in pre
    requires pre == "" || !InClass(pre[|pre| - 1], DigitsDots)
    ensures FirstCapture(Percent, pre + tok + "%" + rest, |pre|, tok)
  {
    var t := pre + tok + "%" + rest;
    assert t[|pre|..|pre| + |tok|] == tok;
    assert t[|pre| + |tok|..|pre| + |tok| + 1] == "%";
    forall j: nat, g: string | j < |pre| ensures !Captures(Percent, t, j, g) {
      if 0 < |g| && LitAt(t, j, g) && AllIn(g, 0, |g|, DigitsDots) {
        assert t[|pre| - 1] == pre[|pre| - 1];
        RunBeforeBarrier(t, j, g, |pre| - 1, DigitsDots);
        assert t[j + |g|] == pre[j + |g|];
        assert pre[j + |g|] in pre;
        NotLitAt(t, j + |g|, "%");
      }
    }
  }

  /** A percentage that follows other rates still decides: a lower-case text
      `pre` + `N%` with no "%" and no "f" in `pre` is N percent ad valorem,
      whatever weight or quantity is given and whatever rates `pre` names. */
  lemma PercentAfterDecides(pre: string, tok: string, v: real, weight: Option<real>, quantity: Option<int>)
    requires 0 < |tok| && AllIn(tok, 0, |tok|, DigitsDots)
    requires ParseFloat(tok) == Some(v)
    requires forall x :: 0 <= x < |pre| ==> !('A' <= pre[x] <= 'Z') && pre[x] != 'f'
    requires '%' !in pre
    requires pre == "" || !InClass(pre[|pre| - 1], DigitsDots)
    ensures Classify(Str(pre + tok + "%"), weight, quantity) == Success(AdValorem(v))
  {
    var s := pre + tok + "%";
    assert s == pre + tok + "%" + "";
    forall x | 0 <= x < |s| ensures !('A' <= s[x] <= 'Z') && s[x] != 'f' && s[x] != 'F' {
      if |pre| <= x < |pre| + |tok| {
        assert s[x] == tok[x - |pre|] && InClass(tok[x - |pre|], DigitsDots);
      }
    }
    LowerFixed(s);
    NoFreeWithoutF(s);
    PercentAfter(pre, tok, "");
    PercentDecides(s, |pre|, tok, weight, quantity);
  }

  /** A "%" matches only right after a digit or dot: when no "%" of the text
      follows one, the percentage pattern matches nowhere. */
  lemma PercentNeedsToken(t: string)
    requires forall i :: 0 < i < |t| && t[i] == '%' ==> !InClass(t[i - 1], DigitsDots)
    ensures NoCapture(Percent, t)
  {
    forall j: nat, g: string ensures !Captures(Percent, t, j, g) {
      if 0 < |g| && LitAt(t, j, g) && AllIn(g, 0, |g|, DigitsDots) && j + |g| < |t| {
        LitAtChars(t, j, g);
        assert t[j + |g| - 1] == g[|g| - 1];
        assert InClass(t[j + |g| - 1], DigitsDots);
        NotLitAt(t, j + |g|, "%");
      }
    }
  }

  /** Before the first "$", the dollars-per-unit pattern cannot match: `$N/unit`
      after a prefix with no "$" is the leftmost match, wherever it lies. */
  lemma DollarsAfter(pre: string, tok: string, rest: string)
    requires 0 < |tok| && AllIn(tok, 0, |tok|, DigitsDots)
    requires '$' !in pre
    ensures FirstCapture(DollarsPerUnit, pre + "$" + tok + "/unit" + rest, |pre|, tok)
  {
    var t := pre + "$" + tok + "/unit" + rest;
    assert t[|pre|..|pre| + 1] == "$";
    assert t[|pre| + 1..|pre| + 1 + |tok|] == tok;
    assert t[|pre| + 1 + |tok|..|pre| + 1 + |tok| + 5] == "/unit";
    forall j: nat, g: string | j < |pre| ensures !Captures(DollarsPerUnit, t, j, g) {
      assert t[j] == pre[j] && pre[j] in pre;
      NotLitAt(t, j, "$");
    }
  }

  /** Without a weight a cents rate is skipped: a lower-case text `pre` +
      `$N/unit` with no "%", "$" or "f" in `pre` is N dollars per unit of the
      quantity, whatever cents rates `pre` names. */
  lemma DollarsAfterDecides(pre: string, tok: string, v: real, qty: int)
    requires 0 < |tok| && AllIn(tok, 0, |tok|, DigitsDots)
    requires ParseFloat(tok) == Some(v)
    requires forall x :: 0 <= x < |pre| ==> !('A' <= pre[x] <= 'Z') && pre[x] != 'f' && pre[x] != '%' && pre[x] != '$'
    ensures Classify(Str(pre + "$" + tok + "/unit"), None, Some(qty)) == Success(PerUnit(v, qty))
  {
    var s := pre + "$" + tok + "/unit";
    assert s == pre + "$" + tok + "/unit" + "";
    forall x | 0 <= x < |s| ensures !('A' <= s[x] <= 'Z') && s[x] != 'f' && s[x] != 'F' && s[x] != '%' {
      if |pre| + 1 <= x < |pre| + 1 + |tok| {
        assert s[x] == tok[x - |pre| - 1] && InClass(tok[x - |pre| - 1], DigitsDots);
      }
    }
    assert '$' !in pre by {
      forall x | 0 <= x < |pre| ensures pre[x] != '$' { }
    }
    assert '%' !in s by {
      forall x | 0 <= x < |s| ensures s[x] != '%' { }
    }
    LowerFixed(s);
    NoFreeWithoutF(s);
    NoPercentWithoutSign(s);
    DollarsAfter(pre, tok, "");
    DollarsPerUnitDecides(s, |pre|, tok, None, qty);
  }

  /** `PercentDecides` for a text that starts with `N%`. */
  lemma PercentLeads(tok: string, rest: string, weight: Option<real>, quantity: Option<int>)
    requires 0 < |tok| && AllIn(tok, 0, |tok|, DigitsDots)
    requires !Contains(Lower(tok + "%" + rest), "free")
    ensures Classify(Str(tok + "%" + rest), weight, quantity)
         == match ParseFloat(tok)
            case Some(v) => Success(AdValorem(v))
            case None => Failure(ValueError(FloatErrorMessage(tok)))
  {
    LowerPrefix(tok + "%", rest);
    PercentAtStart(tok, Lower(rest));
    PercentDecides(tok + "%" + rest, 0, tok, weight, quantity);
  }

  /** `CentsPerKgDecides` for a text that starts with `N¢/kg` and holds no "%". */
  lemma CentsLeads(tok: string, rest: string, wt: real, quantity: Option<int>)
    requires 0 < |tok| && AllIn(tok, 0, |tok|, DigitsDots)
    requires '%' !in rest
    requires !Contains(Lower(tok + "¢/kg" + rest), "free")
    ensures Classify(Str(tok + "¢/kg" + rest), Some(wt), quantity)
         == match ParseFloat(tok)
            case Some(v) => Success(PerKg(v, wt))
            case None => Failure(ValueError(FloatErrorMessage(tok)))
  {
    var s := tok + "¢/kg" + rest;
    assert '%' !in s;
    LowerKeeps(s, '%');
    NoPercentWithoutSign(Lower(s));
    LowerPrefix(tok + "¢/kg", rest);
    CentsAtStart(tok, Lower(rest));
    CentsPerKgDecides(s, 0, tok, wt, quantity);
  }

  /** With a weight, a text that starts with `N¢/kg` and holds no "%" and no
      letter f is N cents per kilogram of that weight, whatever follows. */
  lemma CentsFirst(tok: string, v: real, rest: string, wt: real, quantity: Option<int>)
    requires 0 < |tok| && AllIn(tok, 0, |tok|, DigitsDots)
    requires ParseFloat(tok) == Some(v)
    requires forall x :: 0 <= x < |rest| ==> rest[x] != '%' && rest[x] != 'f' && rest[x] != 'F'
    ensures Classify(Str(tok + "¢/kg" + rest), Some(wt), quantity) == Success(PerKg(v, wt))
  {
    var s := tok + "¢/kg" + rest;
    forall x | 0 <= x < |s| ensures s[x] != 'f' && s[x] != 'F' {
      if x < |tok| {
        assert s[x] == tok[x] && InClass(tok[x], DigitsDots);
      } else if |tok| + 4 <= x {
        assert s[x] == rest[x - |tok| - 4];
      }
    }
    assert '%' !in rest by {
      forall x | 0 <= x < |rest| ensures rest[x] != '%' { }
    }
    NoFreeWithoutF(s);
    CentsLeads(tok, rest, wt, quantity);
  }

  /** `DollarsPerUnitDecides` for a text that starts with `$N/unit` and holds
      neither "%" nor "¢". */
  lemma DollarsLeads(tok: string, rest: string, weight: Option<real>, qty: int)
    requires 0 < |tok| && AllIn(tok, 0, |tok|, DigitsDots)
    requires '%' !in rest && '¢' !in rest
    requires !Contains(Lower("$" + tok + "/unit" + rest), "free")
    ensures Classify(Str("$" + tok + "/unit" + rest), weight, Some(qty))
         == match ParseFloat(tok)
            case Some(v) => Success(PerUnit(v, qty))
            case None => Failure(ValueError(FloatErrorMessage(tok)))
  {
    var s := "$" + tok + "/unit" + rest;
    assert '%' !in s && '¢' !in s;
    LowerKeeps(s, '%');
    LowerKeeps(s, '¢');
    NoPercentWithoutSign(Lower(s));
    NoCentsWithoutSign(Lower(s));
    LowerPrefix("$" + tok + "/unit", rest);
    DollarsAtStart(tok, Lower(rest));
    DollarsPerUnitDecides(s, 0, tok, weight, qty);
  }

  /** `N%` for a number N Python reads yields the fraction N / 100. */
  lemma PercentOfDecimal(tok: string, v: real, cif: real, weight: Option<real>, quantity: Option<int>)
    requires 0 < |tok| && AllIn(tok, 0, |tok|, DigitsDots)
    requires ParseFloat(tok) == Some(v)
    ensures ParseDuty(Str(tok + "%"), cif, weight, quantity) == Success(v / 100.0)
  {
    PercentClassified(tok, v, weight, quantity);
    AdValoremFraction(Str(tok + "%"), cif, weight, quantity, v);
  }

  lemma PercentClassified(tok: string, v: real, weight: Option<real>, quantity: Option<int>)
    requires 0 < |tok| && AllIn(tok, 0, |tok|, DigitsDots)
    requires ParseFloat(tok) == Some(v)
    ensures Classify(Str(tok + "%"), weight, quantity) == Success(AdValorem(v))
  {
    assert tok + "%" + "" == tok + "%";
    NoFreeWithoutF(tok + "%");
    PercentLeads(tok, "", weight, quantity);
  }

  /** Without a weight a cents-per-kilogram text is never read: `N¢/kg` with
      no percentage, and no dollar sign when a quantity is given, yields 0.0
      whatever N is, even a number Python cannot read. */
  lemma KgTokenSkippedWithoutWeight(tok: string, rest: string, cif: real, quantity: Option<int>)
    requires AllIn(tok, 0, |tok|, DigitsDots)
    requires '%' !in rest
    requires quantity.None? || '$' !in rest
    ensures ParseDuty(Str(tok + "¢/kg" + rest), cif, None, quantity) == Success(0.0)
  {
    var s := tok + "¢/kg" + rest;
    assert '%' !in s;
    LowerKeeps(s, '%');
    NoPercentWithoutSign(Lower(s));
    if quantity.Some? {
      assert '$' !in s;
      LowerKeeps(s, '$');
      NoDollarsWithoutSign(Lower(s));
    }
    FallbackIsZero(s, cif, None, quantity);
  }

  /** With a weight, a leftmost cents-per-kilogram match whose number Python
      cannot read raises ValueError when no percentage matches. */
  lemma KgTokenReadWithWeight(s: string, k: nat, tok: string, cif: real, wt: real, quantity: Option<int>)
    requires !Contains(Lower(s), "free")
    requires NoCapture(Percent, Lower(s))
    requires FirstCapture(CentsPerKg, Lower(s), k, tok)
    requires !IsDecimal(tok)
    ensures ParseDuty(Str(s), cif, Some(wt), quantity) == Failure(ValueError(FloatErrorMessage(tok)))
  {
    CentsPerKgDecides(s, k, tok, wt, quantity);
  }

  /** A text that is only `$N/unit`, with an N Python reads as v, is v
      dollars per unit once a quantity is given. */
  lemma DollarsOnly(tok: string, v: real, weight: Option<real>, qty: int)
    requires 0 < |tok| && AllIn(tok, 0, |tok|, DigitsDots)
    requires ParseFloat(tok) == Some(v)
    ensures Classify(Str("$" + tok + "/unit"), weight, Some(qty)) == Success(PerUnit(v, qty))
  {
    var s := "$" + tok + "/unit";
    assert s == "$" + tok + "/unit" + "";
    assert 'f' !in s && 'F' !in s by {
      forall i | 0 <= i < |s| ensures s[i] != 'f' && s[i] != 'F' {
        if 1 <= i < 1 + |tok| {
          assert s[i] == tok[i - 1] && InClass(tok[i - 1], DigitsDots);
        }
      }
    }
    NoFreeWithoutF(s);
    DollarsLeads(tok, "", weight, qty);
  }

  /** The text "1.2.3¢/kg" gives 0.0 without a weight... */
  lemma MalformedKgSkipped(cif: real)
    ensures ParseDuty(Str("1.2.3¢/kg"), cif, None, None) == Success(0.0)
  {
    TwoDotsRejected();
    assert "1.2.3" + "¢/kg" + "" == "1.2.3¢/kg";
    KgTokenSkippedWithoutWeight("1.2.3", "", cif, None);
  }

  /** ...and raises with one. */
  lemma MalformedKgRaises(cif: real, wt: real)
    ensures ParseDuty(Str("1.2.3¢/kg"), cif, Some(wt), None) == Failure(ValueError(FloatErrorMessage("1.2.3")))
  {
    KgTokenClassified(wt);
  }

  lemma KgTokenClassified(wt: real)
    ensures Classify(Str("1.2.3¢/kg"), Some(wt), None) == Failure(ValueError(FloatErrorMessage("1.2.3")))
  {
    TwoDotsRejected();
    assert "1.2.3" + "¢/kg" == "1.2.3¢/kg";
    UnreadableKgToken("1.2.3", wt, None);
  }

  /** A text that is only `N¢/kg`, with an N Python cannot read, raises the
      conversion error once a weight is given. */
  lemma UnreadableKgToken(tok: string, wt: real, quantity: Option<int>)
    requires 0 < |tok| && AllIn(tok, 0, |tok|, DigitsDots)
    requires ParseFloat(tok) == None
    ensures Classify(Str(tok + "¢/kg"), Some(wt), quantity) == Failure(ValueError(FloatErrorMessage(tok)))
  {
    var s := tok + "¢/kg";
    assert s == tok + "¢/kg" + "";
    assert 'f' !in s && 'F' !in s by {
      forall i | 0 <= i < |s| ensures s[i] != 'f' && s[i] != 'F' {
        if i < |tok| {
          assert s[i] == tok[i] && InClass(tok[i], DigitsDots);
        }
      }
    }
    NoFreeWithoutF(s);
    CentsLeads(tok, "", wt, quantity);
  }

  /** Python's `float` rejects a token with two dots. */
  lemma TwoDotsRejected()
    ensures AllIn("1.2.3", 0, 5, DigitsDots)
    ensures ParseFloat("1.2.3") == None
  {
    var tok := "1.2.3";
    DotIndexFirst(tok, 1);
    assert tok[2..][1] == '.';
  }
}
