/**
  Worked inputs, each read with both abstract steps declining: the forms of the
  general path, its three failures, an idiom, and the two wrappers.
 */
module Examples {
  import opened Wrappers
  import opened Text
  import opened Tables
  import opened Numerals
  import opened Scanner
  import opened Human2Duration
  import opened Properties

  const Day: Duration := 24 * Hour

  /** An input that is already trimmed, lower-case and starts with a numeral goes
      straight to the pattern and the summation loop. */
  lemma ParseNormalNumeric(o: Oracles, s: string)
    requires OraclesDecline(o, s) && IsTrimmed(s) && IsNumeralChar(s[0])
    requires ToLower(s) == s
    ensures Parse(o, s) == if Tokens(s) == [] then Err(InvalidFormat(s)) else Accumulate(Tokens(s))
  {
    TrimSpaceOfTrimmed(s);
    NotAPhrase(s);
  }

  /** An input of that shape holding three valid pairs is worth their sum. */
  lemma ParseThreePairs(o: Oracles, s: string, t1: Token, t2: Token, t3: Token, d1: Duration, d2: Duration, d3: Duration)
    requires OraclesDecline(o, s) && IsTrimmed(s) && IsNumeralChar(s[0]) && ToLower(s) == s
    requires Tokens(s) == [t1, t2, t3]
    requires TokenDuration(t1) == Ok(d1) && TokenDuration(t2) == Ok(d2) && TokenDuration(t3) == Ok(d3)
    ensures Parse(o, s) == Ok(d1 + d2 + d3)
  {
    ParseNormalNumeric(o, s);
    AccumulateThree(t1, t2, t3, d1, d2, d3);
  }

  /** Three valid pairs add up, in order. */
  lemma AccumulateThree(t1: Token, t2: Token, t3: Token, d1: Duration, d2: Duration, d3: Duration)
    requires TokenDuration(t1) == Ok(d1) && TokenDuration(t2) == Ok(d2) && TokenDuration(t3) == Ok(d3)
    ensures Accumulate([t1, t2, t3]) == Ok(d1 + d2 + d3)
  {
    AccumulateSingle(t1);
    AccumulateSnocOk([t1], t2, d1, d2);
    assert [t1] + [t2] == [t1, t2];
    AccumulateSnocOk([t1, t2], t3, d1 + d2, d3);
    assert [t1, t2] + [t3] == [t1, t2, t3];
  }

  // `2d 3h 15min`: three pairs separated by blanks.

  /** Two pairs separated by a blank, the second ending the text. */
  lemma TokensOfTwoPairs(n1: string, u1: string, n2: string, u2: string)
    requires |n1| > 0 && AllNumeralChars(n1) && |n2| > 0 && AllNumeralChars(n2)
    requires |u1| > 0 && forall k :: 0 <= k < |u1| ==> IsLetter(u1[k])
    requires |u2| > 0 && forall k :: 0 <= k < |u2| ==> IsLetter(u2[k])
    ensures Tokens(n1 + u1 + " " + n2 + u2) == [Token(n1, u1), Token(n2, u2)]
  {
    var rest := " " + (n2 + u2);
    PairTokens(n2, u2);
    assert rest == [' '] + (n2 + u2);
    TokensSkip(' ', n2 + u2);
    assert n1 + u1 + " " + n2 + u2 == n1 + "" + u1 + rest;
    TokensCons(n1, "", u1, rest);
  }

  /** Three pairs separated by blanks, the last ending the text; the first may
      have blanks before its unit. */
  lemma TokensOfThreePairs(n1: string, b1: string, u1: string, n2: string, u2: string, n3: string, u3: string)
    requires |n1| > 0 && AllNumeralChars(n1) && |n2| > 0 && AllNumeralChars(n2) && |n3| > 0 && AllNumeralChars(n3)
    requires forall k :: 0 <= k < |b1| ==> IsPatternSpace(b1[k])
    requires |u1| > 0 && forall k :: 0 <= k < |u1| ==> IsLetter(u1[k])
    requires |u2| > 0 && forall k :: 0 <= k < |u2| ==> IsLetter(u2[k])
    requires |u3| > 0 && forall k :: 0 <= k < |u3| ==> IsLetter(u3[k])
    ensures Tokens(n1 + b1 + u1 + " " + n2 + u2 + " " + n3 + u3) == [Token(n1, u1), Token(n2, u2), Token(n3, u3)]
  {
    var tail := n2 + u2 + " " + n3 + u3;
    TokensOfTwoPairs(n2, u2, n3, u3);
    var rest := " " + tail;
    assert rest == [' '] + tail;
    TokensSkip(' ', tail);
    assert n1 + b1 + u1 + " " + n2 + u2 + " " + n3 + u3 == n1 + b1 + u1 + rest;
    TokensCons(n1, b1, u1, rest);
  }

  lemma TokensOfDaysHoursMinutes()
    ensures Tokens("2d 3h 15min") == [Token("2", "d"), Token("3", "h"), Token("15", "min")]
  {
    assert "2d 3h 15min" == "2" + "" + "d" + " " + "3" + "h" + " " + "15" + "min";
    TokensOfThreePairs("2", "", "d", "3", "h", "15", "min");
  }

  lemma NormalDaysHoursMinutes()
    ensures IsTrimmed("2d 3h 15min") && IsNumeralChar("2d 3h 15min"[0]) && ToLower("2d 3h 15min") == "2d 3h 15min"
  {
    ToLowerOfLower("2d 3h 15min");
  }

  lemma ValueTwoDays()
    ensures TokenDuration(Token("2", "d")) == Ok(2 * Day)
  {
    SingleUnitValue("2", "d");
    assert DigitsValue("2") == 2;
  }

  lemma ValueThreeHours()
    ensures TokenDuration(Token("3", "h")) == Ok(3 * Hour)
  {
    SingleUnitValue("3", "h");
    assert DigitsValue("3") == 3;
  }

  lemma ValueFifteenMinutes()
    ensures TokenDuration(Token("15", "min")) == Ok(15 * Minute)
  {
    SingleUnitValue("15", "min");
    assert DigitsValue("15") == 15 by {
      assert "15"[..1] == "1";
    }
  }

  /** `2d 3h 15min` is two days, three hours and fifteen minutes. */
  lemma ExampleDaysHoursMinutes(o: Oracles)
    requires OraclesDecline(o, "2d 3h 15min")
    ensures Parse(o, "2d 3h 15min") == Ok(2 * Day + 3 * Hour + 15 * Minute)
  {
    TokensOfDaysHoursMinutes();
    NormalDaysHoursMinutes();
    ValueTwoDays();
    ValueThreeHours();
    ValueFifteenMinutes();
    ParseThreePairs(o, "2d 3h 15min", Token("2", "d"), Token("3", "h"), Token("15", "min"), 2 * Day, 3 * Hour, 15 * Minute);
  }

  // `1 day 4h 30m`: a blank between a numeral and a whole unit word.

  lemma TokensOfDayHoursMinutes()
    ensures Tokens("1 day 4h 30m") == [Token("1", "day"), Token("4", "h"), Token("30", "m")]
  {
    assert "1 day 4h 30m" == "1" + " " + "day" + " " + "4" + "h" + " " + "30" + "m";
    TokensOfThreePairs("1", " ", "day", "4", "h", "30", "m");
  }

  lemma NormalDayHoursMinutes()
    ensures IsTrimmed("1 day 4h 30m") && IsNumeralChar("1 day 4h 30m"[0]) && ToLower("1 day 4h 30m") == "1 day 4h 30m"
  {
    ToLowerOfLower("1 day 4h 30m");
  }

  lemma ValueOneDay()
    ensures TokenDuration(Token("1", "day")) == Ok(Day)
  {
    SingleUnitValue("1", "day");
    assert DigitsValue("1") == 1;
  }

  lemma ValueFourHours()
    ensures TokenDuration(Token("4", "h")) == Ok(4 * Hour)
  {
    SingleUnitValue("4", "h");
    assert DigitsValue("4") == 4;
  }

  lemma ValueThirtyMinutes()
    ensures TokenDuration(Token("30", "m")) == Ok(30 * Minute)
  {
    SingleUnitValue("30", "m");
    assert DigitsValue("30") == 30 by {
      assert "30"[..1] == "3";
    }
  }

  /** `1 day 4h 30m` is twenty-eight and a half hours. */
  lemma ExampleDayHoursMinutes(o: Oracles)
    requires OraclesDecline(o, "1 day 4h 30m")
    ensures Parse(o, "1 day 4h 30m") == Ok(28 * Hour + 30 * Minute)
  {
    TokensOfDayHoursMinutes();
    NormalDayHoursMinutes();
    ValueOneDay();
    ValueFourHours();
    ValueThirtyMinutes();
    ParseThreePairs(o, "1 day 4h 30m", Token("1", "day"), Token("4", "h"), Token("30", "m"), Day, 4 * Hour, 30 * Minute);
  }

  // `2y6mo3w`: three pairs with nothing between them.

  lemma TokensOfMonthsWeeks()
    ensures Tokens("6mo3w") == [Token("6", "mo"), Token("3", "w")]
  {
    assert "3" + "w" == "3w";
    PairTokens("3", "w");
    assert "6mo3w" == "6" + "" + "mo" + "3w";
    TokensCons("6", "", "mo", "3w");
  }

  lemma TokensOfYearsMonthsWeeks()
    ensures Tokens("2y6mo3w") == [Token("2", "y"), Token("6", "mo"), Token("3", "w")]
  {
    TokensOfMonthsWeeks();
    assert "2y6mo3w" == "2" + "" + "y" + "6mo3w";
    TokensCons("2", "", "y", "6mo3w");
  }

  lemma NormalYearsMonthsWeeks()
    ensures IsTrimmed("2y6mo3w") && IsNumeralChar("2y6mo3w"[0]) && ToLower("2y6mo3w") == "2y6mo3w"
  {
    ToLowerOfLower("2y6mo3w");
  }

  lemma ValueTwoYears()
    ensures TokenDuration(Token("2", "y")) == Ok(2 * 365 * Day)
  {
    SingleUnitValue("2", "y");
    assert DigitsValue("2") == 2;
  }

  lemma ValueSixMonths()
    ensures TokenDuration(Token("6", "mo")) == Ok(6 * 30 * Day)
  {
    SingleUnitValue("6", "mo");
    assert DigitsValue("6") == 6;
  }

  lemma ValueThreeWeeks()
    ensures TokenDuration(Token("3", "w")) == Ok(3 * 7 * Day)
  {
    SingleUnitValue("3", "w");
    assert DigitsValue("3") == 3;
  }

  /** `2y6mo3w` is two 365-day years, six 30-day months and three weeks. */
  lemma ExampleYearsMonthsWeeks(o: Oracles)
    requires OraclesDecline(o, "2y6mo3w")
    ensures Parse(o, "2y6mo3w") == Ok(2 * 365 * Day + 6 * 30 * Day + 3 * 7 * Day)
  {
    TokensOfYearsMonthsWeeks();
    NormalYearsMonthsWeeks();
    ValueTwoYears();
    ValueSixMonths();
    ValueThreeWeeks();
    ParseThreePairs(o, "2y6mo3w", Token("2", "y"), Token("6", "mo"), Token("3", "w"), 2 * 365 * Day, 6 * 30 * Day, 3 * 7 * Day);
  }

  // `1.5h`: a fractional numeral.

  lemma NumeralOneAndAHalf()
    ensures ParseNumeral("1.5") == Some(1.5)
  {
    assert "1" + "." + "5" == "1.5";
    ParseDecimal("1", "5");
    assert DecimalValue("1", "5") == 1.5;
  }

  lemma ValueHourAndAHalf()
    ensures TokenDuration(Token("1.5", "h")) == Ok(90 * Minute)
  {
    NumeralOneAndAHalf();
    TokenDurationScaled(Token("1.5", "h"));
    HourFamily();
  }

  /** `1.5h` is an hour and a half: the fraction scales the unit, and Go's native
      syntax, when it takes the input, reads it the same way. */
  lemma ExampleFraction(o: Oracles)
    requires o.timestamp(ToUpper("1.5h")) == None
    requires o.native("1.5h") == None || o.native("1.5h") == Some(90 * Minute)
    ensures Parse(o, "1.5h") == Ok(90 * Minute)
  {
    assert "1.5" + "h" == "1.5h";
    ValueHourAndAHalf();
    ParseOnePairAgreeing(o, "1.5", "h");
  }

  /** `1lightyear` names no unit of the table: the unit is reported. */
  lemma ExampleUnknownUnit(o: Oracles)
    requires OraclesDecline(o, "1lightyear")
    ensures Parse(o, "1lightyear") == Err(UnknownUnit("lightyear"))
  {
    assert "1" + "lightyear" == "1lightyear";
    ParseOnePair(o, "1", "lightyear");
    ValueUnknownUnit();
  }

  lemma ValueUnknownUnit()
    ensures TokenDuration(Token("1", "lightyear")) == Err(UnknownUnit("lightyear"))
  {
    ParseDigits("1");
    assert "lightyear" !in UnitMap;
    TokenDurationCases(Token("1", "lightyear"));
  }

  /** `1.2.3h` has a numeral with two dots: the numeral is reported. */
  lemma ExampleInvalidNumber(o: Oracles)
    requires OraclesDecline(o, "1.2.3h")
    ensures Parse(o, "1.2.3h") == Err(InvalidNumber("1.2.3"))
  {
    assert "1.2.3" + "h" == "1.2.3h";
    ParseOnePair(o, "1.2.3", "h");
    ValueInvalidNumber();
  }

  lemma ValueInvalidNumber()
    ensures TokenDuration(Token("1.2.3", "h")) == Err(InvalidNumber("1.2.3"))
  {
    ParseNumeralAccepts("1.2.3");
    assert !AtMostOneDot("1.2.3") by {
      assert "1.2.3"[1] == '.' && "1.2.3"[3] == '.';
    }
    TokenDurationCases(Token("1.2.3", "h"));
  }

  /** `nonsense` has no numeral at all: the input is malformed. */
  lemma ExampleNoPairs(o: Oracles)
    requires OraclesDecline(o, "nonsense")
    ensures Parse(o, "nonsense") == Err(InvalidFormat("nonsense"))
  {
    NonsenseIsAWord();
    ParseWordOnly(o, "nonsense");
  }

  lemma NonsenseIsAWord()
    ensures IsWord("nonsense") && "nonsense" !in FuzzyMap
  {
  }

  /** Blank input is malformed, and the failure names the empty text. */
  lemma ExampleBlank(o: Oracles, input: string)
    requires forall k :: 0 <= k < |input| ==> IsSpace(input[k])
    requires OraclesDecline(o, input)
    ensures Parse(o, input) == Err(InvalidFormat(""))
  {
    assert TrimSpace(input) == [];
    assert "" !in FuzzyMap by {
      FuzzyKeysNormalized();
    }
    assert Scan("") == [];
  }

  /** `half an hour` is an idiom of the phrase table. */
  lemma ExamplePhrase(o: Oracles)
    requires o.timestamp(ToUpper("half an hour")) == None
    ensures Parse(o, "half an hour") == Ok(30 * Minute)
  {
    HalfAnHourIsAPhrase();
    ParsePhraseKey(o, "half an hour");
  }

  lemma HalfAnHourIsAPhrase()
    ensures "half an hour" in FuzzyMap && FuzzyMap["half an hour"] == 30 * Minute
  {
  }

  /** `1h` is an hour, whether Go's native syntax or the unit pattern reads it. */
  lemma ExampleOneHour(o: Oracles)
    requires o.timestamp(ToUpper("1h")) == None
    requires o.native("1h") == None || o.native("1h") == Some(Hour)
    ensures Parse(o, "1h") == Ok(Hour)
  {
    assert "1" + "h" == "1h";
    ValueOneHour();
    ParseOnePairAgreeing(o, "1", "h");
  }

  lemma ValueOneHour()
    ensures TokenDuration(Token("1", "h")) == Ok(Hour)
  {
    SingleUnitValue("1", "h");
    assert DigitsValue("1") == 1;
  }

  /** `1h ago` is an hour into the past. */
  lemma ExampleAgo(o: Oracles)
    requires o.timestamp(ToUpper("1h")) == None
    requires o.native("1h") == None || o.native("1h") == Some(Hour)
    ensures ParseSince(o, "1h ago") == Ok(-Hour)
  {
    assert "1h" + " ago" == "1h ago";
    ExampleOneHour(o);
    ParseSinceAgo(o, "1h");
  }

  /** `2h` is two hours, whether Go's native syntax or the unit pattern reads it. */
  lemma ExampleTwoHours(o: Oracles)
    requires o.timestamp(ToUpper("2h")) == None
    requires o.native("2h") == None || o.native("2h") == Some(2 * Hour)
    ensures Parse(o, "2h") == Ok(2 * Hour)
  {
    assert "2" + "h" == "2h";
    ValueTwoHours();
    ParseOnePairAgreeing(o, "2", "h");
  }

  lemma ValueTwoHours()
    ensures TokenDuration(Token("2", "h")) == Ok(2 * Hour)
  {
    SingleUnitValue("2", "h");
    assert DigitsValue("2") == 2;
  }

  /** `in 2h` is two hours into the future. */
  lemma ExampleIn(o: Oracles)
    requires o.timestamp(ToUpper("2h")) == None
    requires o.native("2h") == None || o.native("2h") == Some(2 * Hour)
    ensures ParseAfter(o, "in 2h") == Ok(2 * Hour)
  {
    assert "in " + "2h" == "in 2h";
    ExampleTwoHours(o);
    ParseAfterInPlain(o, "2h");
  }

  /** `1 day` is a day: a blank may separate a numeral from its unit. */
  lemma ExampleOneDay(o: Oracles)
    requires OraclesDecline(o, "1 day")
    ensures Parse(o, "1 day") == Ok(Day)
  {
    TokensOfOneDay();
    LowerOneDay();
    ParseNormalNumeric(o, "1 day");
    ValueOneDay();
    AccumulateSingle(Token("1", "day"));
  }

  lemma TokensOfOneDay()
    ensures Tokens("1 day") == [Token("1", "day")]
  {
    assert "1 day" == "1" + " " + "day" + "";
    TokensCons("1", " ", "day", "");
    assert Tokens("") == [];
  }

  lemma LowerOneDay()
    ensures ToLower("1 day") == "1 day"
  {
    ToLowerOfLower("1 day");
  }

  /** `after 1 day` is a day into the future. */
  lemma ExampleAfter(o: Oracles)
    requires OraclesDecline(o, "1 day")
    ensures ParseAfter(o, "after 1 day") == Ok(Day)
  {
    OneDayHasNoMarker();
    assert "after " + "1 day" == "after 1 day";
    ExampleOneDay(o);
    ParseAfterAfter(o, "1 day");
    ParseAfterPlain(o, "1 day");
  }

  lemma OneDayHasNoMarker()
    ensures IsTrimmed("1 day") && !StartsIgnoringCase("1 day", "in ") && !StartsIgnoringCase("1 day", "after ")
  {
    assert ToLower("1 d")[0] == '1' != ToLower("in ")[0];
  }

  /** `ago` alone is no duration: the marker needs its blank, so the word is kept
      and the parser finds no pair in it. */
  lemma ExampleBareAgo(o: Oracles)
    requires OraclesDecline(o, "ago")
    ensures ParseSince(o, "ago") == Err(FailedToParse(InvalidFormat("ago")))
  {
    AgoIsAWord();
    TrimSpaceOfTrimmed("ago");
    assert StripSuffixIgnoreCase("ago", " ago") == "ago";
    ParseWordOnly(o, "ago");
  }

  lemma AgoIsAWord()
    ensures IsWord("ago") && "ago" !in FuzzyMap && !IsSpace('a') && !IsSpace('o')
  {
  }

  /** `after` alone is no duration either. */
  lemma ExampleBareAfter(o: Oracles)
    requires OraclesDecline(o, "after")
    ensures ParseAfter(o, "after") == Err(FailedToParse(InvalidFormat("after")))
  {
    AfterIsAWord();
    TrimSpaceOfTrimmed("after");
    assert StripPrefixIgnoreCase("after", "in ") == "after" by {
      assert ToLower("aft")[0] == 'a' != ToLower("in ")[0];
    }
    assert StripPrefixIgnoreCase("after", "after ") == "after";
    ParseWordOnly(o, "after");
  }

  lemma AfterIsAWord()
    ensures IsWord("after") && "after" !in FuzzyMap && !IsSpace('a') && !IsSpace('r')
  {
  }
}
