/** Character-level vocabulary of the duty engine: case folding, Python's
    whitespace, the character classes of its regular expressions, greedy runs
    and substring search. */
module Text {

  predicate IsDigit(c: char) {
    '0' <= c <= '9'
  }

  /** ASCII upper-case letters fold to lower case; every other character is kept. */
  function LowerChar(c: char): char {
    if 'A' <= c <= 'Z' then (c as int + 32) as char else c
  }

  /** `str.lower()`, and the folding `re.I` applies to both sides of a match. */
  function Lower(s: string): (t: string)
    ensures |t| == |s|
    ensures forall i :: 0 <= i < |s| ==> t[i] == LowerChar(s[i])
  {
    seq(|s|, i requires 0 <= i < |s| => LowerChar(s[i]))
  }

  /** Lower-casing distributes over concatenation. */
  lemma LowerConcat(a: string, b: string)
    ensures Lower(a + b) == Lower(a) + Lower(b)
  {
  }

  /** A string without upper-case letters is its own lower case. */
  lemma LowerFixed(s: string)
    requires forall x :: 0 <= x < |s| ==> !('A' <= s[x] <= 'Z')
    ensures Lower(s) == s
  {
  }

  /** Lower-casing neither creates nor removes a character that is not a letter. */
  lemma LowerKeeps(s: string, c: char)
    requires !('a' <= c <= 'z') && !('A' <= c <= 'Z')
    ensures c in Lower(s) <==> c in s
  {
    if c in Lower(s) {
      var x :| 0 <= x < |s| && Lower(s)[x] == c;
      assert s[x] == c;
    }
    if c in s {
      var x :| 0 <= x < |s| && s[x] == c;
      assert Lower(s)[x] == c;
    }
  }

  /** The characters Python's `\s` matches in a `str` pattern (those for
      which `str.isspace()` holds). */
  predicate IsSpace(c: char) {
    || '\U{9}' <= c <= '\U{D}'
    || '\U{1C}' <= c <= '\U{20}'
    || c == '\U{85}' || c == '\U{A0}' || c == '\U{1680}'
    || '\U{2000}' <= c <= '\U{200A}'
    || c == '\U{2028}' || c == '\U{2029}' || c == '\U{202F}'
    || c == '\U{205F}' || c == '\U{3000}'
  }

  /** The bracketed classes and `\s` used by the engine's patterns. */
  datatype CharClass =
    | Digits        // [0-9]
    | DigitsDots    // [0-9.]
    | DigitsCommas  // [0-9,]
    | Spaces        // \s

  predicate InClass(c: char, k: CharClass) {
    match k
    case Digits => IsDigit(c)
    case DigitsDots => IsDigit(c) || c == '.'
    case DigitsCommas => IsDigit(c) || c == ','
    case Spaces => IsSpace(c)
  }

  /** Every character of `t[a..b]` belongs to `k`. */
  predicate AllIn(t: string, a: nat, b: nat, k: CharClass)
    requires a <= b <= |t|
  {
    forall x :: a <= x < b ==> InClass(t[x], k)
  }

  /** A run of class `k` cannot be extended past position `b`. */
  predicate RunStops(t: string, b: nat, k: CharClass)
    requires b <= |t|
  {
    b == |t| || !InClass(t[b], k)
  }

  /** The text reads `lit` at position `i`. */
  predicate LitAt(t: string, i: nat, lit: string) {
    i + |lit| <= |t| && t[i..i + |lit|] == lit
  }

  /** Where the greedy repetition `k*` started at `i` stops: the end of the
      longest run of class `k` that begins at `i`. */
  function RunEnd(t: string, i: nat, k: CharClass): (j: nat)
    requires i <= |t|
    ensures i <= j <= |t|
    ensures AllIn(t, i, j, k)
    ensures RunStops(t, j, k)
    decreases |t| - i
  {
    if i < |t| && InClass(t[i], k) then RunEnd(t, i + 1, k) else i
  }

  /** A run that covers `t[a..b]` and stops at `b` is exactly the greedy run. */
  lemma {:induction false} RunEndUnique(t: string, a: nat, b: nat, k: CharClass)
    requires a <= b <= |t|
    requires AllIn(t, a, b, k) && RunStops(t, b, k)
    ensures RunEnd(t, a, k) == b
    decreases b - a
  {
    if a < b {
      RunEndUnique(t, a + 1, b, k);
    }
  }

  /** Python's `sub in s` on strings. */
  predicate Contains(s: string, sub: string)
    decreases |s|
  {
    |sub| <= |s| && (s[..|sub|] == sub || (0 < |s| && Contains(s[1..], sub)))
  }

  /** `Contains` agrees with the positional reading of "occurs somewhere". */
  lemma {:induction false} ContainsIff(s: string, sub: string)
    ensures Contains(s, sub) <==> exists k: nat :: LitAt(s, k, sub)
    decreases |s|
  {
    if |sub| <= |s| && s[..|sub|] == sub {
      assert LitAt(s, 0, sub);
    } else if |sub| <= |s| && 0 < |s| {
      ContainsIff(s[1..], sub);
      if Contains(s[1..], sub) {
        var k: nat :| LitAt(s[1..], k, sub);
        SliceOfTail(s, k, |sub|);
        assert LitAt(s, k + 1, sub);
      } else {
        forall k: nat | LitAt(s, k, sub)
          ensures false
        {
          if k > 0 {
            SliceOfTail(s, k - 1, |sub|);
            assert LitAt(s[1..], k - 1, sub);
          }
        }
      }
    }
  }

  /** A slice of the tail is the slice of the whole string one place later. */
  lemma SliceOfTail(s: string, k: nat, n: nat)
    requires k + n < |s|
    ensures s[1..][k..k + n] == s[k + 1..k + 1 + n]
  {
    var a, b := s[1..][k..k + n], s[k + 1..k + 1 + n];
    assert |a| == |b|;
    forall x | 0 <= x < n ensures a[x] == b[x] {
      assert a[x] == s[1..][k + x] == s[k + 1 + x];
    }
  }

  /** A string that contains `sub` contains its first character. */
  lemma {:induction false} ContainsHead(s: string, sub: string)
    requires Contains(s, sub) && 0 < |sub|
    ensures sub[0] in s
    decreases |s|
  {
    if s[..|sub|] == sub {
      assert s[0] == sub[0];
    } else {
      ContainsHead(s[1..], sub);
    }
  }

  /** A string without the first character of `sub` does not contain `sub`. */
  lemma NotContainedWithoutHead(s: string, sub: string)
    requires 0 < |sub| && sub[0] !in s
    ensures !Contains(s, sub)
  {
    if Contains(s, sub) {
      ContainsHead(s, sub);
    }
  }

  /** A literal cannot read where its first character is absent. */
  lemma NotLitAt(t: string, i: nat, lit: string)
    requires 0 < |lit| && i < |t| && t[i] != lit[0]
    ensures !LitAt(t, i, lit)
  {
    if i + |lit| <= |t| {
      assert t[i..i + |lit|][0] == t[i];
    }
  }

  /** A text without the first character of `lit` reads `lit` nowhere. */
  lemma NoLitWithoutHead(t: string, i: nat, lit: string)
    requires 0 < |lit| && lit[0] !in t
    ensures !LitAt(t, i, lit)
  {
    if i < |t| {
      assert t[i] in t;
      NotLitAt(t, i, lit);
    }
  }

  /** A string that has `sub` at position `|a|` contains it. */
  lemma ContainsInfix(a: string, sub: string, b: string)
    ensures Contains(a + sub + b, sub)
  {
    var s := a + sub + b;
    assert s[|a|..|a| + |sub|] == sub;
    assert LitAt(s, |a|, sub);
    ContainsIff(s, sub);
  }

  /** `str.replace(',', '')`. */
  function RemoveCommas(s: string): (r: string)
    ensures |r| <= |s|
    ensures forall c :: c in r <==> c in s && c != ','
    ensures (forall x :: 0 <= x < |s| ==> s[x] != ',') ==> r == s
  {
    if |s| == 0 then ""
    else if s[0] == ',' then RemoveCommas(s[1..])
    else [s[0]] + RemoveCommas(s[1..])
  }

  /** Removing commas distributes over concatenation. */
  lemma {:induction false} RemoveCommasConcat(a: string, b: string)
    ensures RemoveCommas(a + b) == RemoveCommas(a) + RemoveCommas(b)
    decreases |a|
  {
    if |a| == 0 {
      assert a + b == b;
    } else {
      assert (a + b)[0] == a[0];
      assert (a + b)[1..] == a[1..] + b;
      RemoveCommasConcat(a[1..], b);
    }
  }
}
