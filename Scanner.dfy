/**
  The unit pattern `(?i)([\d.]+)\s*([a-z]+)` and the way Go's `FindAllStringSubmatch`
  walks a string with it: every leftmost, non-overlapping match, in order.

  The classes of the three parts are disjoint, so greedy matching with
  backtracking reduces to maximal munch: a match starting at a numeral character
  takes the whole numeral run, then the whole blank run after it, and needs at
  least one letter there, of which it takes the whole run.
 */
module Scanner {
  import opened Text

  /** Index bounds of one match: numeral group `[start, numEnd)`, unit group `[unitStart, end)`. */
  datatype Match = Match(start: nat, numEnd: nat, unitStart: nat, end: nat) {
    /** The same match in a string that has `d` more characters in front. */
    function Shift(d: nat): Match {
      Match(d + start, d + numEnd, d + unitStart, d + end)
    }
  }

  function Shifted(ms: seq<Match>, d: nat): seq<Match> {
    seq(|ms|, k requires 0 <= k < |ms| => ms[k].Shift(d))
  }

  /** The two submatches of one match, as `FindAllStringSubmatch` hands them out. */
  datatype Token = Token(numeral: string, unit: string)

  /** The pattern matches at position `p`. */
  predicate MatchAt(s: string, p: nat) {
    && p < |s| && IsNumeralChar(s[p])
    && var k := SpanEnd(s, SpanEnd(s, p, IsNumeralChar), IsPatternSpace);
       k < |s| && IsLetter(s[k])
  }

  /** No run of numeral characters straddles position `i`. */
  predicate AtRunBoundary(s: string, i: nat) {
    i == 0 || i >= |s| || !IsNumeralChar(s[i - 1]) || !IsNumeralChar(s[i])
  }

  /** `m` is a match whose numeral, blank and unit runs are all maximal. */
  predicate IsMatch(s: string, m: Match) {
    && m.start < |s| && IsNumeralChar(s[m.start]) && AtRunBoundary(s, m.start)
    && m.numEnd == SpanEnd(s, m.start, IsNumeralChar)
    && m.unitStart == SpanEnd(s, m.numEnd, IsPatternSpace)
    && m.unitStart < |s| && IsLetter(s[m.unitStart])
    && m.end == SpanEnd(s, m.unitStart, IsLetter)
  }

  /** The two groups of `m` are non-empty, in order and inside `s`. */
  predicate InBounds(s: string, m: Match) {
    m.start < m.numEnd <= m.unitStart < m.end <= |s|
  }

  /** The matches found by searching from position `i` on. */
  function ScanFrom(s: string, i: nat): seq<Match>
    requires i <= |s| && AtRunBoundary(s, i)
    decreases |s| - i
  {
    if i == |s| then []
    else if !IsNumeralChar(s[i]) then ScanFrom(s, i + 1)
    else
      var j := SpanEnd(s, i, IsNumeralChar);
      var k := SpanEnd(s, j, IsPatternSpace);
      if k < |s| && IsLetter(s[k]) then
        var l := SpanEnd(s, k, IsLetter);
        SpanEndEdges(s, k, IsLetter);
        [Match(i, j, k, l)] + ScanFrom(s, l)
      else
        // no match starts anywhere inside this numeral run: they all share its tail
        ScanFrom(s, j)
  }

  /** `unitRegex.FindAllStringSubmatchIndex(s, -1)`. */
  function Scan(s: string): seq<Match> {
    ScanFrom(s, 0)
  }

  /** The submatches of one match. */
  function TokenOf(s: string, m: Match): Token
    requires InBounds(s, m)
  {
    Token(s[m.start..m.numEnd], s[m.unitStart..m.end])
  }

  predicate IsToken(t: Token) {
    && |t.numeral| > 0 && (forall k :: 0 <= k < |t.numeral| ==> IsNumeralChar(t.numeral[k]))
    && |t.unit| > 0 && (forall k :: 0 <= k < |t.unit| ==> IsLetter(t.unit[k]))
  }

  /** `unitRegex.FindAllStringSubmatch(s, -1)`: one token per match, in input order;
      each numeral is a non-empty run of digits and dots, each unit a non-empty run of letters. */
  function Tokens(s: string): (ts: seq<Token>)
    ensures |ts| == |Scan(s)|
    ensures forall k :: 0 <= k < |ts| ==> IsToken(ts[k])
  {
    var ms := Scan(s);
    TokensWellFormed(s);
    seq(|ms|, k requires 0 <= k < |ms| => TokenOf(s, ms[k]))
  }

  /** Every reported match has both groups non-empty, in order and inside `s`, and
      its submatches are runs of the right classes. */
  lemma TokensWellFormed(s: string)
    ensures forall k :: 0 <= k < |Scan(s)| ==> InBounds(s, Scan(s)[k]) && IsToken(TokenOf(s, Scan(s)[k]))
  {
    ScanFromSound(s, 0);
    var ms := Scan(s);
    forall k | 0 <= k < |ms|
      ensures InBounds(s, ms[k]) && IsToken(TokenOf(s, ms[k]))
    {
      SpanEndRun(s, ms[k].start, IsNumeralChar);
      SpanEndRun(s, ms[k].unitStart, IsLetter);
      SpanEndEdges(s, ms[k].start, IsNumeralChar);
      SpanEndEdges(s, ms[k].unitStart, IsLetter);
    }
  }

  /** Every reported match has maximal numeral, blank and unit runs, and its numeral
      run is not the tail of a longer one. */
  lemma {:induction false} ScanFromSound(s: string, i: nat)
    requires i <= |s| && AtRunBoundary(s, i)
    ensures forall k :: 0 <= k < |ScanFrom(s, i)| ==> IsMatch(s, ScanFrom(s, i)[k])
    decreases |s| - i
  {
    if i == |s| {
    } else if !IsNumeralChar(s[i]) {
      ScanFromSound(s, i + 1);
    } else {
      var j := SpanEnd(s, i, IsNumeralChar);
      var k := SpanEnd(s, j, IsPatternSpace);
      if k < |s| && IsLetter(s[k]) {
        var l := SpanEnd(s, k, IsLetter);
        SpanEndEdges(s, k, IsLetter);
        ScanFromSound(s, l);
        assert ScanFrom(s, i) == [Match(i, j, k, l)] + ScanFrom(s, l);
      } else {
        ScanFromSound(s, j);
      }
    }
  }

  /** The matches lie in the searched part, in input order and without overlapping. */
  lemma {:induction false} ScanFromOrdered(s: string, i: nat)
    requires i <= |s| && AtRunBoundary(s, i)
    ensures forall k :: 0 <= k < |ScanFrom(s, i)| ==> i <= ScanFrom(s, i)[k].start
    ensures forall k :: 0 < k < |ScanFrom(s, i)| ==> ScanFrom(s, i)[k - 1].end <= ScanFrom(s, i)[k].start
    decreases |s| - i
  {
    if i == |s| {
    } else if !IsNumeralChar(s[i]) {
      ScanFromOrdered(s, i + 1);
    } else {
      var j := SpanEnd(s, i, IsNumeralChar);
      var k := SpanEnd(s, j, IsPatternSpace);
      if k < |s| && IsLetter(s[k]) {
        var l := SpanEnd(s, k, IsLetter);
        SpanEndEdges(s, k, IsLetter);
        ScanFromOrdered(s, l);
        assert ScanFrom(s, i) == [Match(i, j, k, l)] + ScanFrom(s, l);
      } else {
        ScanFromOrdered(s, j);
      }
    }
  }

  /** Every position where the pattern matches lies in the numeral of a reported match,
      the `n`-th one: the search skips no match. */
  lemma {:induction false} ScanFromComplete(s: string, i: nat, p: nat) returns (n: nat)
    requires i <= p < |s| && AtRunBoundary(s, i) && MatchAt(s, p)
    ensures n < |ScanFrom(s, i)| && ScanFrom(s, i)[n].start <= p < ScanFrom(s, i)[n].numEnd
    decreases |s| - i, 1
  {
    if !IsNumeralChar(s[i]) {
      assert ScanFrom(s, i) == ScanFrom(s, i + 1);
      n := ScanFromComplete(s, i + 1, p);
    } else if MatchAt(s, i) {
      n := CompleteAfterMatch(s, i, p);
    } else {
      n := CompleteAfterNonMatch(s, i, p);
    }
  }

  /** The search reports a match at `i` and goes on after its unit. */
  lemma {:induction false} CompleteAfterMatch(s: string, i: nat, p: nat) returns (n: nat)
    requires i <= p < |s| && AtRunBoundary(s, i) && MatchAt(s, p) && MatchAt(s, i)
    ensures n < |ScanFrom(s, i)| && ScanFrom(s, i)[n].start <= p < ScanFrom(s, i)[n].numEnd
    decreases |s| - i, 0
  {
    var ms := ScanFrom(s, i);
    var j := SpanEnd(s, i, IsNumeralChar);
    var k := SpanEnd(s, j, IsPatternSpace);
    var l := SpanEnd(s, k, IsLetter);
    SpanEndEdges(s, k, IsLetter);
    var rest := ScanFrom(s, l);
    assert ms == [Match(i, j, k, l)] + rest;
    SpanEndRun(s, j, IsPatternSpace);
    SpanEndRun(s, k, IsLetter);
    if p < j {
      n := 0;
    } else if p < l {
      assert false;
    } else {
      var r := ScanFromComplete(s, l, p);
      assert ms[r + 1] == rest[r];
      n := r + 1;
    }
  }

  /** The search finds no match at `i` and skips the numeral run there. */
  lemma {:induction false} CompleteAfterNonMatch(s: string, i: nat, p: nat) returns (n: nat)
    requires i <= p < |s| && AtRunBoundary(s, i) && MatchAt(s, p)
    requires IsNumeralChar(s[i]) && !MatchAt(s, i)
    ensures n < |ScanFrom(s, i)| && ScanFrom(s, i)[n].start <= p < ScanFrom(s, i)[n].numEnd
    decreases |s| - i, 0
  {
    var j := SpanEnd(s, i, IsNumeralChar);
    if p < j {
      SpanEndInside(s, i, p, IsNumeralChar);
      assert false;
    } else {
      assert ScanFrom(s, i) == ScanFrom(s, j);
      n := ScanFromComplete(s, j, p);
    }
  }

  /** The search reports nothing exactly when the pattern matches nowhere. */
  lemma ScanEmptyIff(s: string)
    ensures Scan(s) == [] <==> forall p :: 0 <= p < |s| ==> !MatchAt(s, p)
  {
    if Scan(s) != [] {
      ScanFromSound(s, 0);
      assert MatchAt(s, Scan(s)[0].start);
    } else {
      forall p | 0 <= p < |s|
        ensures !MatchAt(s, p)
      {
        if MatchAt(s, p) {
          var n := ScanFromComplete(s, 0, p);
        }
      }
    }
  }

  /** The search from a position depends only on the text from there on: searching
      `s` from `d + i` finds the matches of searching the suffix `s[d..]` from `i`,
      shifted by `d`. */
  lemma {:induction false} ScanFromDrop(s: string, d: nat, i: nat)
    requires d <= |s| && i <= |s| - d && AtRunBoundary(s[d..], i) && AtRunBoundary(s, d + i)
    ensures ScanFrom(s, d + i) == Shifted(ScanFrom(s[d..], i), d)
    decreases |s| - d - i, 3
  {
    var b := s[d..];
    if i < |b| {
      assert s[d + i] == b[i];
      if !IsNumeralChar(b[i]) {
        ScanFromSkip(b, i);
        ScanFromSkip(s, d + i);
        ScanFromDrop(s, d, i + 1);
      } else {
        DropAtNumeral(s, d, i);
      }
    }
  }

  /** The step of `ScanFromDrop` at a numeral run. */
  lemma {:induction false} DropAtNumeral(s: string, d: nat, i: nat)
    requires d <= |s| && i < |s| - d && AtRunBoundary(s[d..], i) && AtRunBoundary(s, d + i)
    requires IsNumeralChar(s[d..][i])
    ensures ScanFrom(s, d + i) == Shifted(ScanFrom(s[d..], i), d)
    decreases |s| - d - i, 2
  {
    if MatchAt(s[d..], i) {
      DropAtWord(s, d, i);
    } else {
      DropPastRun(s, d, i);
    }
  }

  /** The step of `ScanFromDrop` at a numeral run where the pattern does not match. */
  lemma {:induction false} DropPastRun(s: string, d: nat, i: nat)
    requires d <= |s| && i < |s| - d && AtRunBoundary(s[d..], i) && AtRunBoundary(s, d + i)
    requires IsNumeralChar(s[d..][i]) && !MatchAt(s[d..], i)
    ensures ScanFrom(s, d + i) == Shifted(ScanFrom(s[d..], i), d)
    decreases |s| - d - i, 1
  {
    var b := s[d..];
    var j := SpanEnd(b, i, IsNumeralChar);
    SpanEndDrop(s, d, i, IsNumeralChar);
    MatchAtDrop(s, d, i);
    ScanFromPastRun(b, i, j);
    ScanFromPastRun(s, d + i, d + j);
    ScanFromDrop(s, d, j);
  }

  /** Whether the pattern matches at a position depends only on the text from there on. */
  lemma MatchAtDrop(s: string, d: nat, i: nat)
    requires d <= |s| && i < |s| - d
    ensures MatchAt(s, d + i) == MatchAt(s[d..], i)
  {
    var b := s[d..];
    var j := SpanEnd(b, i, IsNumeralChar);
    var k := SpanEnd(b, j, IsPatternSpace);
    SpanEndDrop(s, d, i, IsNumeralChar);
    SpanEndDrop(s, d, j, IsPatternSpace);
    assert s[d + i] == b[i];
    assert k < |b| ==> s[d + k] == b[k];
  }

  /** A match of the suffix `s[d..]` is, shifted, a match of `s` when no numeral run
      straddles its start there. */
  lemma IsMatchDrop(s: string, d: nat, m: Match)
    requires d <= |s| && IsMatch(s[d..], m) && AtRunBoundary(s, d + m.start)
    ensures IsMatch(s, m.Shift(d))
  {
    var b, n := s[d..], m.Shift(d);
    assert n.start == d + m.start && n.numEnd == d + m.numEnd;
    assert n.unitStart == d + m.unitStart && n.end == d + m.end;
    assert s[n.start] == b[m.start] && s[n.unitStart] == b[m.unitStart];
    SpanEndDrop(s, d, m.start, IsNumeralChar);
    SpanEndDrop(s, d, m.numEnd, IsPatternSpace);
    SpanEndDrop(s, d, m.unitStart, IsLetter);
  }

  /** The step of `ScanFromDrop` at a match. */
  lemma {:induction false} DropAtWord(s: string, d: nat, i: nat)
    requires d <= |s| && i < |s| - d && AtRunBoundary(s[d..], i) && AtRunBoundary(s, d + i)
    requires MatchAt(s[d..], i)
    ensures ScanFrom(s, d + i) == Shifted(ScanFrom(s[d..], i), d)
    decreases |s| - d - i, 1
  {
    var b := s[d..];
    var j := SpanEnd(b, i, IsNumeralChar);
    var k := SpanEnd(b, j, IsPatternSpace);
    var m := Match(i, j, k, SpanEnd(b, k, IsLetter));
    IsMatchDrop(s, d, m);
    DropAfterMatch(s, d, m);
  }

  /** The end of `DropAtWord`: the match, then the search after it, shifted. */
  lemma {:induction false} DropAfterMatch(s: string, d: nat, m: Match)
    requires d <= |s| && IsMatch(s[d..], m) && IsMatch(s, m.Shift(d))
    ensures ScanFrom(s, d + m.start) == Shifted(ScanFrom(s[d..], m.start), d)
    decreases |s| - d - m.start, 0
  {
    ScanFromAtMatch(s[d..], m);
    ScanFromAtMatch(s, m.Shift(d));
    ScanFromDrop(s, d, m.end);
    ShiftedCons(m, ScanFrom(s[d..], m.end), d, ScanFrom(s[d..], m.start), ScanFrom(s, d + m.start));
  }

  /** One step of the search over a character that cannot start a numeral. */
  lemma ScanFromSkip(s: string, i: nat)
    requires i < |s| && AtRunBoundary(s, i) && !IsNumeralChar(s[i])
    ensures AtRunBoundary(s, i + 1) && ScanFrom(s, i) == ScanFrom(s, i + 1)
  {
  }

  /** One step of the search over a numeral run where the pattern does not match. */
  lemma ScanFromPastRun(s: string, i: nat, j: nat)
    requires i < |s| && AtRunBoundary(s, i) && IsNumeralChar(s[i]) && !MatchAt(s, i)
    requires j == SpanEnd(s, i, IsNumeralChar)
    ensures AtRunBoundary(s, j) && ScanFrom(s, i) == ScanFrom(s, j)
  {
  }

  lemma ScanFromAtMatch(s: string, m: Match)
    requires IsMatch(s, m)
    ensures AtRunBoundary(s, m.end) && ScanFrom(s, m.start) == [m] + ScanFrom(s, m.end)
  {
    SpanEndEdges(s, m.unitStart, IsLetter);
  }

  /** Shifting a search result that starts with `m` shifts `m` and the rest. */
  lemma ShiftedCons(m: Match, ms: seq<Match>, d: nat, whole: seq<Match>, shifted: seq<Match>)
    requires whole == [m] + ms && shifted == [m.Shift(d)] + Shifted(ms, d)
    ensures shifted == Shifted(whole, d)
  {
  }

  /** A match of the suffix `s[d..]` has the same submatches as its shift in `s`. */
  lemma TokenOfDrop(s: string, d: nat, m: Match)
    requires d <= |s| && InBounds(s[d..], m)
    ensures TokenOf(s, m.Shift(d)) == TokenOf(s[d..], m)
  {
    assert s[d + m.start..d + m.numEnd] == s[d..][m.start..m.numEnd];
    assert s[d + m.unitStart..d + m.end] == s[d..][m.unitStart..m.end];
  }

  /** When the search of `s` ends with the shifted search of `s[d..]`, so do its tokens. */
  lemma TokensOfShifted(s: string, d: nat, head: seq<Match>)
    requires d <= |s| && Scan(s) == head + Shifted(Scan(s[d..]), d)
    ensures |head| <= |Tokens(s)| && Tokens(s)[|head|..] == Tokens(s[d..])
  {
    var b := s[d..];
    TokensWellFormed(b);
    var ms := Scan(b);
    forall n | 0 <= n < |ms|
      ensures Tokens(s)[|head| + n] == Tokens(b)[n]
    {
      TokenOfDrop(s, d, ms[n]);
    }
  }

  /** Characters that cannot start a numeral are skipped. */
  lemma TokensSkip(c: char, rest: string)
    requires !IsNumeralChar(c)
    ensures Tokens([c] + rest) == Tokens(rest)
  {
    var s := [c] + rest;
    assert s[1..] == rest && s[0] == c;
    ScanFromSkip(s, 0);
    ScanFromDrop(s, 1, 0);
    TokensOfShifted(s, 1, []);
  }

  /** A numeral, optional blanks and a unit word, followed by anything that does not
      continue the word, give one token in front of the tokens of what follows. */
  lemma TokensCons(num: string, blanks: string, unit: string, rest: string)
    requires |num| > 0 && forall k :: 0 <= k < |num| ==> IsNumeralChar(num[k])
    requires forall k :: 0 <= k < |blanks| ==> IsPatternSpace(blanks[k])
    requires |unit| > 0 && forall k :: 0 <= k < |unit| ==> IsLetter(unit[k])
    requires rest == [] || !IsLetter(rest[0])
    ensures Tokens(num + blanks + unit + rest) == [Token(num, unit)] + Tokens(rest)
  {
    var s := num + blanks + unit + rest;
    var a := |num| + |blanks| + |unit|;
    ScanOfWord(num, blanks, unit, rest);
    TokenOfWord(num, blanks, unit, rest);
    TokensConsOf(s, a, Match(0, |num|, |num| + |blanks|, a), Token(num, unit), rest);
  }

  /** The submatches of the match of `TokensCons` are its numeral and its unit. */
  lemma TokenOfWord(num: string, blanks: string, unit: string, rest: string)
    requires |num| > 0 && |unit| > 0
    ensures var s, a := num + blanks + unit + rest, |num| + |blanks| + |unit|;
            TokenOf(s, Match(0, |num|, |num| + |blanks|, a)) == Token(num, unit)
  {
    var s, a := num + blanks + unit + rest, |num| + |blanks| + |unit|;
    assert s[..|num|] == num;
    assert s[|num| + |blanks|..a] == unit;
  }

  /** When the search of `s` reports `m` and then the shifted search of `s[d..]`,
      the tokens of `s` are the submatches of `m` and then the tokens of `s[d..]`. */
  lemma TokensConsOf(s: string, d: nat, m: Match, t: Token, rest: string)
    requires d <= |s| && rest == s[d..] && InBounds(s, m) && t == TokenOf(s, m)
    requires Scan(s) == [m] + Shifted(Scan(rest), d)
    ensures Tokens(s) == [t] + Tokens(rest)
  {
    TokensOfShifted(s, d, [m]);
    assert Tokens(s) == Tokens(s)[..1] + Tokens(s)[1..];
  }

  /** The matches of `TokensCons`. */
  lemma ScanOfWord(num: string, blanks: string, unit: string, rest: string)
    requires |num| > 0 && forall k :: 0 <= k < |num| ==> IsNumeralChar(num[k])
    requires forall k :: 0 <= k < |blanks| ==> IsPatternSpace(blanks[k])
    requires |unit| > 0 && forall k :: 0 <= k < |unit| ==> IsLetter(unit[k])
    requires rest == [] || !IsLetter(rest[0])
    ensures var s, a := num + blanks + unit + rest, |num| + |blanks| + |unit|;
            && s[a..] == rest
            && Scan(s) == [Match(0, |num|, |num| + |blanks|, a)] + Shifted(Scan(rest), a)
  {
    var s := num + blanks + unit + rest;
    var j, k, a := |num|, |num| + |blanks|, |num| + |blanks| + |unit|;
    assert s[a..] == rest;
    SpansOfWord(num, blanks, unit, rest);
    ScanFromAtMatch(s, Match(0, j, k, a));
    ScanFromDrop(s, a, 0);
  }

  /** The three runs of `TokensCons`. */
  lemma SpansOfWord(num: string, blanks: string, unit: string, rest: string)
    requires |num| > 0 && forall k :: 0 <= k < |num| ==> IsNumeralChar(num[k])
    requires forall k :: 0 <= k < |blanks| ==> IsPatternSpace(blanks[k])
    requires |unit| > 0 && forall k :: 0 <= k < |unit| ==> IsLetter(unit[k])
    requires rest == [] || !IsLetter(rest[0])
    ensures var s, j, k := num + blanks + unit + rest, |num|, |num| + |blanks|;
            && IsNumeralChar(s[0])
            && SpanEnd(s, 0, IsNumeralChar) == j
            && SpanEnd(s, j, IsPatternSpace) == k
            && k < |s| && IsLetter(s[k])
            && SpanEnd(s, k, IsLetter) == k + |unit|
  {
    var s := num + blanks + unit + rest;
    var j, k, l := |num|, |num| + |blanks|, |num| + |blanks| + |unit|;
    assert forall x :: 0 <= x < j ==> s[x] == num[x];
    assert forall x :: j <= x < k ==> s[x] == blanks[x - j];
    assert forall x :: k <= x < l ==> s[x] == unit[x - k];
    assert l < |s| ==> s[l] == rest[0];
    SpanEndIs(s, 0, j, IsNumeralChar);
    SpanEndIs(s, j, k, IsPatternSpace);
    SpanEndIs(s, k, l, IsLetter);
  }
}
