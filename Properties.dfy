/**
  What the parser promises as a whole: the order of its cascade, that it ignores
  surrounding whitespace and letter case, what the general path computes, and how
  the two wrappers relate to it and to each other.
 */
module Properties {
  import opened Wrappers
  import opened Text
  import opened Tables
  import opened Numerals
  import opened Scanner
  import opened Human2Duration

  /** Both abstract steps decline `input`: the outcome is decided by the tables
      and the unit pattern alone. */
  predicate OraclesDecline(o: Oracles, input: string) {
    o.timestamp(ToUpper(TrimSpace(input))) == None && o.native(ToLower(TrimSpace(input))) == None
  }

  /** The parser fails only at the end of its cascade: neither abstract step
      answered and the normalised input is no phrase. */
  lemma ParseFailsOnlyLate(o: Oracles, input: string)
    ensures Parse(o, input).Err? ==>
              OraclesDecline(o, input) && ToLower(TrimSpace(input)) !in FuzzyMap
  {
  }

  /** Surrounding whitespace is ignored. */
  lemma ParseIgnoresSurroundingSpace(o: Oracles, input: string)
    ensures Parse(o, TrimSpace(input)) == Parse(o, input)
  {
    TrimSpaceOfTrimmed(TrimSpace(input));
  }

  /** Letter case is ignored: the timestamp step sees the upper case and every
      later step the lower case, and both are the same for either spelling. */
  lemma ParseIgnoresCase(o: Oracles, input: string)
    ensures Parse(o, ToLower(input)) == Parse(o, input)
  {
    TrimSpaceToLower(input);
    ToUpperOfLower(TrimSpace(input));
    ToLowerTwice(TrimSpace(input));
  }

  /** An instant the timestamp step recognises wins over every other reading. */
  lemma ParseTimestampFirst(o: Oracles, input: string, d: Duration)
    requires o.timestamp(ToUpper(TrimSpace(input))) == Some(d)
    ensures Parse(o, input) == Ok(d)
  {
  }

  /** An idiom of the phrase table, in any case and with any surrounding
      whitespace, is read as its fixed duration, which is positive; the native
      syntax and the unit pattern are not consulted. */
  lemma ParsePhrase(o: Oracles, input: string)
    requires o.timestamp(ToUpper(TrimSpace(input))) == None && ToLower(TrimSpace(input)) in FuzzyMap
    ensures Parse(o, input) == Ok(FuzzyMap[ToLower(TrimSpace(input))])
    ensures Parse(o, input).value > 0
  {
    FuzzyKeysNormalized();
  }

  /** Each phrase key itself is reachable: it is already trimmed and lower-cased. */
  lemma ParsePhraseKey(o: Oracles, f: string)
    requires f in FuzzyMap && o.timestamp(ToUpper(f)) == None
    ensures Parse(o, f) == Ok(FuzzyMap[f])
  {
    FuzzyKeysNormalized();
    TrimSpaceOfTrimmed(f);
    ToLowerOfLower(f);
  }

  /** No phrase of the table holds a numeral-unit pair: the phrase table adds
      inputs the unit pattern would otherwise reject as malformed. */
  lemma PhrasesHaveNoPairs(f: string)
    requires f in FuzzyMap
    ensures Tokens(f) == []
  {
    FuzzyKeysNormalized();
    ScanEmptyIff(f);
  }

  /** When neither abstract step nor the phrase table applies, the input is
      malformed exactly when the unit pattern matches nowhere in its normalised
      form, and the failure then names that form. */
  lemma ParseMalformedIff(o: Oracles, input: string)
    requires OraclesDecline(o, input) && ToLower(TrimSpace(input)) !in FuzzyMap
    ensures var lower := ToLower(TrimSpace(input));
            Parse(o, input) == Err(InvalidFormat(lower)) <==> forall p :: 0 <= p < |lower| ==> !MatchAt(lower, p)
  {
    var lower := ToLower(TrimSpace(input));
    ScanEmptyIff(lower);
    AccumulateErrorKinds(Tokens(lower));
  }

  /** On the general path with at least one pair, the parser succeeds exactly when
      every pair has a valid numeral and a known unit, and then answers the sum of
      the pairs' durations, which is never negative. */
  lemma ParseSumsPairs(o: Oracles, input: string)
    requires OraclesDecline(o, input) && ToLower(TrimSpace(input)) !in FuzzyMap
    requires Tokens(ToLower(TrimSpace(input))) != []
    ensures var ts := Tokens(ToLower(TrimSpace(input)));
            && (Parse(o, input).Ok? <==> AllValid(ts))
            && (Parse(o, input).Ok? ==> Parse(o, input).value == Total(ts) >= 0)
  {
    AccumulateOkIff(Tokens(ToLower(TrimSpace(input))));
  }

  /** On the general path, the failure reported is the one of the first invalid
      pair, in input order. */
  lemma ParseFirstFailure(o: Oracles, input: string, k: nat)
    requires OraclesDecline(o, input) && ToLower(TrimSpace(input)) !in FuzzyMap
    requires var ts := Tokens(ToLower(TrimSpace(input)));
             && k < |ts| && TokenDuration(ts[k]).Err?
             && forall j :: 0 <= j < k ==> TokenDuration(ts[j]).Ok?
    ensures Parse(o, input) == Err(TokenDuration(Tokens(ToLower(TrimSpace(input)))[k]).error)
  {
    AccumulateFirstError(Tokens(ToLower(TrimSpace(input))), k);
  }

  /** When both abstract steps decline, a result from the tables or the unit
      pattern is never negative. */
  lemma ParseNonNegative(o: Oracles, input: string)
    requires OraclesDecline(o, input)
    ensures Parse(o, input).Ok? ==> Parse(o, input).value >= 0
  {
    FuzzyKeysNormalized();
    AccumulateOkIff(Tokens(ToLower(TrimSpace(input))));
  }

  /** A numeral followed directly by a word is one pair, and the parser answers
      exactly what that pair is worth: its duration or its failure. */
  lemma ParseOnePair(o: Oracles, num: string, unit: string)
    requires |num| > 0 && AllNumeralChars(num) && IsWord(unit)
    requires OraclesDecline(o, num + unit)
    ensures Parse(o, num + unit) == TokenDuration(Token(num, unit))
  {
    var s := num + unit;
    PairIsNormal(num, unit);
    NotAPhrase(s);
    PairTokens(num, unit);
    AccumulateSingle(Token(num, unit));
  }

  /** A valid pair that Go's native syntax either declines or reads the same way:
      the parser answers the pair's duration whichever step takes it. */
  lemma ParseOnePairAgreeing(o: Oracles, num: string, unit: string)
    requires |num| > 0 && AllNumeralChars(num) && IsWord(unit)
    requires TokenDuration(Token(num, unit)).Ok?
    requires o.timestamp(ToUpper(num + unit)) == None
    requires o.native(num + unit) == None || o.native(num + unit) == Some(TokenDuration(Token(num, unit)).value)
    ensures Parse(o, num + unit) == TokenDuration(Token(num, unit))
  {
    PairIsNormal(num, unit);
    if o.native(num + unit) == None {
      ParseOnePair(o, num, unit);
    } else {
      NotAPhrase(num + unit);
    }
  }

  /** A whole number followed directly by a unit word is that many units. */
  lemma ParseSingleUnit(o: Oracles, digits: string, unit: string)
    requires |digits| > 0 && AllDigits(digits) && unit in UnitMap
    requires OraclesDecline(o, digits + unit)
    ensures Parse(o, digits + unit) == Ok(DigitsValue(digits) * UnitMap[unit])
  {
    UnitIsWord(unit);
    assert AllNumeralChars(digits);
    ParseOnePair(o, digits, unit);
    SingleUnitValue(digits, unit);
  }

  /** A single word that is not a phrase holds no numeral, so it is malformed. */
  lemma ParseWordOnly(o: Oracles, w: string)
    requires IsWord(w) && w !in FuzzyMap && OraclesDecline(o, w)
    ensures Parse(o, w) == Err(InvalidFormat(w))
  {
    WordIsNormal(w);
  }

  /** A word is already trimmed and lower-case, and holds no pair. */
  lemma WordIsNormal(w: string)
    requires IsWord(w)
    ensures TrimSpace(w) == w && ToLower(w) == w && Tokens(w) == []
  {
    TrimSpaceOfTrimmed(w);
    ToLowerOfLower(w);
    forall p | 0 <= p < |w|
      ensures !MatchAt(w, p)
    {
      assert !IsNumeralChar(w[p]);
    }
    ScanEmptyIff(w);
  }

  /** A non-empty run of lower-case ASCII letters, the shape of every unit word. */
  predicate IsWord(w: string) {
    |w| > 0 && forall k :: 0 <= k < |w| ==> 'a' <= w[k] <= 'z'
  }

  lemma UnitIsWord(unit: string)
    requires unit in UnitMap
    ensures IsWord(unit)
  {
    UnitKeysAreWords();
  }

  /** `num + unit` is already trimmed and lower-case. */
  lemma PairIsNormal(num: string, unit: string)
    requires |num| > 0 && AllNumeralChars(num) && IsWord(unit)
    ensures TrimSpace(num + unit) == num + unit
    ensures ToLower(num + unit) == num + unit
  {
    var s := num + unit;
    assert s[0] == num[0] && s[|s| - 1] == unit[|unit| - 1];
    TrimSpaceOfTrimmed(s);
    forall k | 0 <= k < |s|
      ensures !('A' <= s[k] <= 'Z')
    {
      if k < |num| {
        assert s[k] == num[k];
      } else {
        assert s[k] == unit[k - |num|];
      }
    }
    ToLowerOfLower(s);
  }

  /** No phrase starts with a digit or a dot. */
  lemma NotAPhrase(s: string)
    requires |s| > 0 && IsNumeralChar(s[0])
    ensures s !in FuzzyMap
  {
    FuzzyKeysNormalized();
  }

  /** A numeral directly followed by a run of letters that ends the text is a
      single numeral-unit pair. */
  lemma PairTokens(num: string, unit: string)
    requires |num| > 0 && AllNumeralChars(num)
    requires |unit| > 0 && forall k :: 0 <= k < |unit| ==> IsLetter(unit[k])
    ensures Tokens(num + unit) == [Token(num, unit)]
  {
    assert num + unit == num + "" + unit + "";
    TokensCons(num, "", unit, "");
    assert Tokens("") == [];
  }

  /** The pair is worth its whole number times the unit's weight, exactly. */
  lemma SingleUnitValue(digits: string, unit: string)
    requires |digits| > 0 && AllDigits(digits) && unit in UnitMap
    ensures TokenDuration(Token(digits, unit)) == Ok(DigitsValue(digits) * UnitMap[unit])
  {
    ParseDigits(digits);
    TokenDurationWhole(Token(digits, unit), DigitsValue(digits));
  }

  /** A text with no whitespace at either end. */
  predicate IsTrimmed(d: string) {
    d != [] && !IsSpace(d[0]) && !IsSpace(d[|d| - 1])
  }

  predicate StartsIgnoringCase(s: string, prefix: string) {
    |prefix| <= |s| && SameIgnoringCase(s[..|prefix|], prefix)
  }

  predicate EndsIgnoringCase(s: string, suffix: string) {
    |suffix| <= |s| && SameIgnoringCase(s[|s| - |suffix|..], suffix)
  }

  /** `d ago` is read as `d`, negated; a failure is wrapped with its cause. */
  lemma ParseSinceAgo(o: Oracles, d: string)
    requires IsTrimmed(d)
    ensures ParseSince(o, d + " ago") == Wrapped(Parse(o, d), true)
  {
    var s := d + " ago";
    assert s[0] == d[0] && s[|s| - 1] == 'o';
    TrimSpaceOfTrimmed(s);
    StripSuffixInverse(d, " ago", " ago");
  }

  /** The trailing `ago` is optional: with or without it the reading is the same. */
  lemma ParseSinceAgoOptional(o: Oracles, d: string)
    requires IsTrimmed(d) && !EndsIgnoringCase(d, " ago")
    ensures ParseSince(o, d + " ago") == ParseSince(o, d)
  {
    ParseSinceAgo(o, d);
    TrimSpaceOfTrimmed(d);
  }

  /** `in d` is read as `d` itself, wrapped; `d` may start with `in ` again, since
      only one marker is removed. */
  lemma ParseAfterInPlain(o: Oracles, d: string)
    requires IsTrimmed(d) && !StartsIgnoringCase(d, "after ")
    ensures ParseAfter(o, "in " + d) == Wrapped(Parse(o, d), false)
  {
    var s := "in " + d;
    assert s[0] == 'i' && s[|s| - 1] == d[|d| - 1];
    TrimSpaceOfTrimmed(s);
    StripPrefixInverse("in ", d, "in ");
    assert StripPrefixIgnoreCase(d, "after ") == d;
  }

  /** The leading `in ` is optional. */
  lemma ParseAfterIn(o: Oracles, d: string)
    requires IsTrimmed(d) && !StartsIgnoringCase(d, "in ")
    ensures ParseAfter(o, "in " + d) == ParseAfter(o, d)
  {
    if StartsIgnoringCase(d, "after ") {
      var s := "in " + d;
      assert s[0] == 'i' && s[|s| - 1] == d[|d| - 1];
      TrimSpaceOfTrimmed(s);
      StripPrefixInverse("in ", d, "in ");
      TrimSpaceOfTrimmed(d);
    } else {
      ParseAfterInPlain(o, d);
      ParseAfterPlain(o, d);
    }
  }

  /** Without either prefix, the reading is the parser's own. */
  lemma ParseAfterPlain(o: Oracles, d: string)
    requires IsTrimmed(d) && !StartsIgnoringCase(d, "in ") && !StartsIgnoringCase(d, "after ")
    ensures ParseAfter(o, d) == Wrapped(Parse(o, d), false)
  {
    TrimSpaceOfTrimmed(d);
    assert StripPrefixIgnoreCase(d, "in ") == d;
    assert StripPrefixIgnoreCase(d, "after ") == d;
  }

  /** The leading `after ` is optional too. */
  lemma ParseAfterAfter(o: Oracles, d: string)
    requires IsTrimmed(d) && !StartsIgnoringCase(d, "in ") && !StartsIgnoringCase(d, "after ")
    ensures ParseAfter(o, "after " + d) == ParseAfter(o, d)
  {
    var s := "after " + d;
    assert s[0] == 'a' && s[|s| - 1] == d[|d| - 1];
    TrimSpaceOfTrimmed(s);
    assert StripPrefixIgnoreCase(s, "in ") == s by {
      assert ToLower(s[..3])[0] == 'a' != ToLower("in ")[0];
    }
    StripPrefixInverse("after ", d, "after ");
    ParseAfterPlain(o, d);
  }

  /** `d ago` and `in d` are the same span of time in opposite directions, and
      fail together with the same cause. */
  lemma SinceAndAfterAreOpposite(o: Oracles, d: string)
    requires IsTrimmed(d) && !StartsIgnoringCase(d, "after ")
    ensures ParseSince(o, d + " ago").Ok? <==> ParseAfter(o, "in " + d).Ok?
    ensures ParseSince(o, d + " ago").Ok? ==>
              ParseSince(o, d + " ago").value == -ParseAfter(o, "in " + d).value
    ensures ParseSince(o, d + " ago").Err? ==>
              ParseSince(o, d + " ago").error == ParseAfter(o, "in " + d).error
  {
    ParseSinceAgo(o, d);
    ParseAfterInPlain(o, d);
  }
}
