/**
  Character classes and the few operations of Go's `strings` package that the
  parser uses, on strings of Unicode scalar values.
 */
module Text {

  /** Whitespace as `unicode.IsSpace`, and therefore `strings.TrimSpace`, sees it. */
  predicate IsSpace(c: char) {
    || c == '\t' || c == '\n' || c == '\U{000B}' || c == '\U{000C}' || c == '\r' || c == ' '
    || c == '\U{0085}' || c == '\U{00A0}' || c == '\U{1680}'
    || ('\U{2000}' <= c <= '\U{200A}')
    || c == '\U{2028}' || c == '\U{2029}' || c == '\U{202F}' || c == '\U{205F}' || c == '\U{3000}'
  }

  /** `\d` in Go's regular expressions: the ASCII digits only. */
  predicate IsDigit(c: char) {
    '0' <= c <= '9'
  }

  /** The class `[\d.]` of the numeral group. */
  predicate IsNumeralChar(c: char) {
    IsDigit(c) || c == '.'
  }

  /** `\s` in Go's regular expressions: `[\t\n\f\r ]`, without the vertical tab. */
  predicate IsPatternSpace(c: char) {
    c == '\t' || c == '\n' || c == '\U{000C}' || c == '\r' || c == ' '
  }

  /** `[a-z]` under the `(?i)` flag: ASCII letters of both cases, plus the two
      characters that simple case folding joins to `s` and `k`. */
  predicate IsLetter(c: char) {
    ('a' <= c <= 'z') || ('A' <= c <= 'Z') || c == '\U{017F}' || c == '\U{212A}'
  }

  /** Lower-casing of one character, for the ASCII range. */
  function LowerChar(c: char): char {
    if 'A' <= c <= 'Z' then (c as int + 32) as char else c
  }

  /** `strings.ToLower`, restricted to the ASCII upper-case letters. */
  function ToLower(s: string): (r: string)
    ensures |r| == |s|
    ensures forall k :: 0 <= k < |s| ==> r[k] == LowerChar(s[k])
  {
    seq(|s|, k requires 0 <= k < |s| => LowerChar(s[k]))
  }

  /** Upper-casing of one character, for the ASCII range. */
  function UpperChar(c: char): char {
    if 'a' <= c <= 'z' then (c as int - 32) as char else c
  }

  /** `strings.ToUpper`, restricted to the ASCII lower-case letters. */
  function ToUpper(s: string): (r: string)
    ensures |r| == |s|
    ensures forall k :: 0 <= k < |s| ==> r[k] == UpperChar(s[k])
  {
    seq(|s|, k requires 0 <= k < |s| => UpperChar(s[k]))
  }

  /** Upper-casing forgets any earlier lower-casing: both spellings of a text
      have the same upper case. */
  lemma ToUpperOfLower(s: string)
    ensures ToUpper(ToLower(s)) == ToUpper(s)
  {
  }

  /** A string none of whose characters is an ASCII upper-case letter is its own lower case. */
  lemma ToLowerOfLower(s: string)
    requires forall k :: 0 <= k < |s| ==> !('A' <= s[k] <= 'Z')
    ensures ToLower(s) == s
  {
  }

  /** Lower-casing twice changes nothing more. */
  lemma ToLowerTwice(s: string)
    ensures ToLower(ToLower(s)) == ToLower(s)
  {
  }

  /** Lower-casing works character by character, so it commutes with slicing. */
  lemma ToLowerSlice(s: string, a: nat, b: nat)
    requires a <= b <= |s|
    ensures ToLower(s[a..b]) == ToLower(s)[a..b]
  {
  }

  /** `strings.HasPrefix`. */
  predicate HasPrefix(s: string, prefix: string) {
    |prefix| <= |s| && s[..|prefix|] == prefix
  }

  /** `strings.HasSuffix`. */
  predicate HasSuffix(s: string, suffix: string) {
    |suffix| <= |s| && s[|s| - |suffix|..] == suffix
  }

  /** The end of the longest run of characters satisfying `p` that starts at `i`:
      the run stops at the end of `s` or at a character outside `p` (and, by
      `SpanEndRun`, every character before that is in `p`). */
  function SpanEnd(s: string, i: nat, p: char -> bool): (j: nat)
    requires i <= |s|
    ensures i <= j <= |s|
    ensures j == |s| || !p(s[j])
    decreases |s| - i
  {
    if i == |s| || !p(s[i]) then i else SpanEnd(s, i + 1, p)
  }

  /** A run is empty exactly when its first character is not in `p`, and a
      non-empty run ends with a character in `p`. */
  lemma SpanEndEdges(s: string, i: nat, p: char -> bool)
    requires i <= |s|
    ensures i < |s| && p(s[i]) <==> i < SpanEnd(s, i, p)
    ensures i < SpanEnd(s, i, p) ==> p(s[SpanEnd(s, i, p) - 1])
  {
    SpanEndRun(s, i, p);
  }

  /** Every character of the run is in `p`. */
  lemma {:induction false} SpanEndRun(s: string, i: nat, p: char -> bool)
    requires i <= |s|
    ensures forall k :: i <= k < SpanEnd(s, i, p) ==> p(s[k])
    decreases |s| - i
  {
    if i < |s| && p(s[i]) {
      SpanEndRun(s, i + 1, p);
    }
  }

  /** A maximal run is determined by where it stops. */
  lemma SpanEndIs(s: string, i: nat, j: nat, p: char -> bool)
    requires i <= j <= |s|
    requires forall k :: i <= k < j ==> p(s[k])
    requires j == |s| || !p(s[j])
    ensures SpanEnd(s, i, p) == j
  {
    SpanEndRun(s, i, p);
  }

  /** Every position inside a run stops where the run stops. */
  lemma SpanEndInside(s: string, i: nat, m: nat, p: char -> bool)
    requires i <= |s| && i <= m <= SpanEnd(s, i, p)
    ensures SpanEnd(s, m, p) == SpanEnd(s, i, p)
  {
    SpanEndRun(s, i, p);
    SpanEndIs(s, m, SpanEnd(s, i, p), p);
  }

  /** A run of the suffix `s[d..]` is the same run, shifted, in `s`. */
  lemma SpanEndDrop(s: string, d: nat, i: nat, p: char -> bool)
    requires d <= |s| && i <= |s| - d
    ensures SpanEnd(s, d + i, p) == d + SpanEnd(s[d..], i, p)
  {
    var b := s[d..];
    var j := SpanEnd(b, i, p);
    SpanEndRun(b, i, p);
    forall k | d + i <= k < d + j
      ensures p(s[k])
    {
      assert s[k] == b[k - d];
    }
    assert d + j == |s| || s[d + j] == b[j];
    SpanEndIs(s, d + i, d + j, p);
  }

  /** A run of whitespace is not changed by lower-casing: no upper-case letter is a
      space and no space lower-cases to anything else. */
  lemma {:induction false} SpanEndToLower(s: string, i: nat)
    requires i <= |s|
    ensures SpanEnd(ToLower(s), i, IsSpace) == SpanEnd(s, i, IsSpace)
    decreases |s| - i
  {
    if i < |s| && IsSpace(s[i]) {
      SpanEndToLower(s, i + 1);
    }
  }

  /** `strings.TrimLeft` of the whitespace set. */
  function TrimLeft(s: string): string {
    s[SpanEnd(s, 0, IsSpace)..]
  }

  /** `strings.TrimRight` of the whitespace set. */
  function TrimRight(s: string): (r: string)
    ensures |r| <= |s| && r == s[..|r|]
    ensures r == [] || !IsSpace(r[|r| - 1])
    ensures forall k :: |r| <= k < |s| ==> IsSpace(s[k])
  {
    if s != [] && IsSpace(s[|s| - 1]) then TrimRight(s[..|s| - 1]) else s
  }

  /** `strings.TrimSpace`: the result is a slice of `s` with only whitespace cut
      off either side, and it neither starts nor ends with whitespace. */
  function TrimSpace(s: string): (r: string)
    ensures exists a, b ::
              && 0 <= a <= b <= |s| && r == s[a..b]
              && (forall k :: 0 <= k < a ==> IsSpace(s[k]))
              && (forall k :: b <= k < |s| ==> IsSpace(s[k]))
    ensures r == [] || (!IsSpace(r[0]) && !IsSpace(r[|r| - 1]))
  {
    var a := SpanEnd(s, 0, IsSpace);
    SpanEndRun(s, 0, IsSpace);
    var r := TrimRight(TrimLeft(s));
    assert r == s[a..a + |r|];
    forall k | a + |r| <= k < |s| ensures IsSpace(s[k]) {
      assert s[k] == s[a..][k - a];
    }
    r
  }

  /** Trimming and lower-casing can be applied in either order. */
  lemma {:induction false} TrimRightToLower(s: string)
    ensures TrimRight(ToLower(s)) == ToLower(TrimRight(s))
  {
    if s != [] && IsSpace(s[|s| - 1]) {
      ToLowerSlice(s, 0, |s| - 1);
      TrimRightToLower(s[..|s| - 1]);
    }
  }

  lemma TrimSpaceToLower(s: string)
    ensures TrimSpace(ToLower(s)) == ToLower(TrimSpace(s))
  {
    var a := SpanEnd(s, 0, IsSpace);
    SpanEndToLower(s, 0);
    ToLowerSlice(s, a, |s|);
    assert TrimLeft(ToLower(s)) == ToLower(TrimLeft(s));
    TrimRightToLower(TrimLeft(s));
  }

  /** Trimming does not reach past the first and the last non-space characters. */
  lemma TrimSpaceOfTrimmed(s: string)
    requires s == [] || (!IsSpace(s[0]) && !IsSpace(s[|s| - 1]))
    ensures TrimSpace(s) == s
  {
    SpanEndIs(s, 0, 0, IsSpace);
  }
}
