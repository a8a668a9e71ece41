# human2duration in Dafny

A model of the Go package `human2duration`, which turns human-written durations
such as `2d 3h`, `1.5h`, `half an hour`, `1h ago` or `in 2h` into a
`time.Duration` (a signed count of nanoseconds).

`ParseDuration` trims the input and then tries four readings in order:

1. a timestamp, answered as the time from now until that instant;
2. an idiom of the phrase table (`fuzzyMap`), on the lower-cased input;
3. Go's native duration syntax (`time.ParseDuration`);
4. the general path, where the pattern `(?i)([\d.]+)\s*([a-z]+)` finds every
   numeral-unit pair. Each numeral is read as a number and each unit is looked
   up in `unitMap`. The pairs' durations are summed, and the first bad numeral
   or unknown unit ends the loop with an error.

`ParseSinceDuration` strips an optional trailing ` ago` and negates the result.
`ParseAfterDuration` strips an optional leading `in ` and then an optional
leading `after `. Both wrap any failure as a failure to parse.

The modules, in dependency order:

- `Wrappers`: `Option`.
- `Text`: whitespace and character classes, ASCII lower- and upper-casing and `TrimSpace`.
- `Tables`: the unit table and the phrase table, with lemmas about their keys
  and weights.
- `Numerals`: `strconv.ParseFloat` on the strings the numeral group can
  capture, as exact decimals.
- `Scanner`: the unit pattern, written out as a maximal-munch search. It is
  proved sound, ordered and complete.
- `Human2Duration`: the per-pair step (a function), the summation loop (a
  method proved against the function `Accumulate`), the parser and the two
  wrappers (each a function, and a step-by-step method proved equal to it).
- `Properties`: what the parser promises as a whole.
- `Examples`: inputs worked through: most are inputs of the package's tests
  (`2d 3h 15min`, `1 day 4h 30m`, `2y6mo3w`, `1.5h`, `1lightyear`,
  `nonsense`, blank input, `half an hour`, `1h ago`, `in 2h`, `after 1 day`,
  `ago` and `after`), plus `1.2.3h` for the invalid-number failure.

Two steps of the cascade are parameters (`Oracles`), because their code is not
part of this model:

- `timestamp` stands for `tryParseTimestamp`, after its own upper-casing of its
  argument (human2duration.go:142), followed by `time.Until`, which reads the
  clock. The model hands it the trimmed, upper-cased input.
- `native` stands for `time.ParseDuration`.

Properties of the general path hold whenever both oracles decline
(`Properties.OraclesDecline`).

Two consequences of the code are worth stating. `m` is always minutes
(human2duration.go:17); months are written `mo`, `month` or `months`. And
`time.ParseDuration` receives the whole trimmed, lower-cased input
(human2duration.go:114).

## Model

| member | source | states |
|---|---|---|
| Tables.UnitFamilies | human2duration.go:12-37 | every spelling of a unit has the same weight; a day is 24 hours, a week 7 days, a month 30 days, a year 365 days |
| Tables.UnitKeysAreWords | human2duration.go:12-37 | every unit key is a non-empty run of lower-case ASCII letters, so the unit group can capture it whole, and weighs at least a second |
| Tables.FuzzyKeysNormalized | human2duration.go:39-52 | every phrase key is trimmed and lower-case, holds no digit or dot, and stands for a positive duration |
| Text.ToLower | human2duration.go:106 | lower-casing keeps the length and maps each character on its own |
| Text.ToLowerTwice | human2duration.go:106 | lower-casing is idempotent |
| Text.TrimSpace | human2duration.go:98 | the result is a slice of the input with only whitespace cut at each end, and no whitespace is left at either end |
| Text.TrimSpaceOfTrimmed | human2duration.go:98 | trimming a text that has no whitespace at either end changes nothing |
| Text.ToUpperOfLower | human2duration.go:142 | an input and its lower case (line 106) have the same upper case, which is what the timestamp step sees |
| Text.ToUpper | human2duration.go:142 | upper-casing keeps the length and maps each character on its own |
| Text.TrimSpaceToLower | human2duration.go:98-106 | trimming then lower-casing equals lower-casing then trimming |
| Numerals.ParseNumeral | human2duration.go:127 | a numeral that is read is never negative |
| Numerals.ParseNumeralAccepts | human2duration.go:127-130 | a run of digits and dots is a number exactly when it has at least one digit and at most one dot |
| Numerals.ParseDigits | human2duration.go:127 | a run of digits reads as its decimal value |
| Numerals.ParseDecimal | human2duration.go:127 | `whole.fraction` reads as the whole part plus the fraction digits over ten to the number of places |
| Scanner.Tokens | human2duration.go:119 | one pair per match, with a non-empty numeral of digits and dots and a non-empty unit of letters |
| Scanner.TokensWellFormed | human2duration.go:55 | every match has both groups non-empty, in order and inside the input |
| Scanner.ScanFromSound | human2duration.go:55 | every match has maximal numeral, blank and unit runs |
| Scanner.ScanFromOrdered | human2duration.go:119 | the matches are in input order and do not overlap |
| Scanner.ScanFromComplete | human2duration.go:119 | every position where the pattern matches lies in the numeral of a reported match |
| Scanner.ScanEmptyIff | human2duration.go:119-120 | the search reports nothing exactly when the pattern matches nowhere |
| Scanner.ScanFromDrop | human2duration.go:119 | the search from a position depends only on the text from there on |
| Scanner.TokensSkip | human2duration.go:55 | a character that cannot start a numeral is skipped |
| Scanner.TokensCons | human2duration.go:55 | a numeral, optional blanks and a word, followed by a non-letter, is one pair, followed by the pairs of the rest |
| Human2Duration.StripPrefixIgnoreCase | human2duration.go:58-63 | the result is a suffix of the input; it is shorter by the prefix's length exactly when the input starts with the prefix up to case, and otherwise it is the input |
| Human2Duration.StripSuffixIgnoreCase | human2duration.go:65-70 | the result is a prefix of the input; it is shorter by the suffix's length exactly when the input ends with the suffix up to case, and otherwise it is the input |
| Human2Duration.StripPrefixInverse | human2duration.go:58-63 | a text that starts with the prefix in any case loses exactly that prefix |
| Human2Duration.StripSuffixInverse | human2duration.go:65-70 | a text that ends with the suffix in any case loses exactly that suffix |
| Human2Duration.Truncate | human2duration.go:135 | the conversion to a duration rounds toward zero and loses less than one nanosecond |
| Human2Duration.ScaleWhole | human2duration.go:135 | a whole number of units is counted exactly |
| Human2Duration.TokenDuration | human2duration.go:126-135 | a valid pair never adds a negative duration |
| Human2Duration.TokenDurationCases | human2duration.go:126-135 | a pair fails exactly when its numeral is not a number or its unit is unknown; a bad numeral is reported before a bad unit; a valid pair adds its value times the unit's weight, truncated |
| Human2Duration.TokenDurationWhole | human2duration.go:126-135 | a pair with a whole numeral adds exactly that many units |
| Human2Duration.AccumulateAllValid | human2duration.go:124-138 | when every pair is valid, the loop ends with the sum of their durations |
| Human2Duration.AccumulateFirstError | human2duration.go:128-134 | the loop returns the failure of the first invalid pair |
| Human2Duration.AccumulateStopsAt | human2duration.go:128-134 | a pair that fails after a successful prefix decides the result, whatever follows it |
| Human2Duration.AccumulateErrorKinds | human2duration.go:128-134 | the loop fails only on a numeral or on a unit |
| Human2Duration.AccumulateOkIff | human2duration.go:124-138 | the loop succeeds exactly when every pair is valid, and then its total is the sum of the pairs and is never negative |
| Human2Duration.TotalNonNegative | human2duration.go:135 | the sum of valid pairs is never negative |
| Human2Duration.Parse | human2duration.go:97-139 | the parser fails only with a malformed input, a bad numeral or an unknown unit, never with the wrappers' failure, and a malformed input is named trimmed and lower-cased |
| Human2Duration.SumMatches | human2duration.go:124-138 | the loop computes `Accumulate`; it succeeds exactly when every pair is valid, and then it returns their non-negative sum |
| Human2Duration.ParseDuration | human2duration.go:97-139 | the step-by-step parser computes `Parse` |
| Human2Duration.ParseSince | human2duration.go:72-82 | a failure is the parser's own failure wrapped exactly once |
| Human2Duration.ParseAfter | human2duration.go:84-95 | a failure is the parser's own failure wrapped exactly once |
| Human2Duration.ParseSinceDuration | human2duration.go:72-82 | the step-by-step wrapper computes `ParseSince` |
| Human2Duration.ParseAfterDuration | human2duration.go:84-95 | the step-by-step wrapper computes `ParseAfter` |
| Properties.ParseIgnoresSurroundingSpace | human2duration.go:98 | surrounding whitespace does not change the reading |
| Properties.ParseIgnoresCase | human2duration.go:98-116 | letter case never changes the reading: the timestamp step sees the upper case and the later steps the lower case |
| Properties.ParseTimestampFirst | human2duration.go:100-103 | an instant the timestamp step recognises wins over every other reading |
| Properties.ParseFailsOnlyLate | human2duration.go:97-122 | the parser fails only after the timestamp step, the phrase table and the native syntax have all declined |
| Properties.ParsePhrase | human2duration.go:108-111 | an idiom of the phrase table, in any case and with any surrounding whitespace, is read as its positive fixed duration |
| Properties.ParsePhraseKey | human2duration.go:108-111 | every phrase key is reachable as it is written |
| Properties.PhrasesHaveNoPairs | human2duration.go:39-52 | no phrase holds a numeral-unit pair |
| Properties.ParseMalformedIff | human2duration.go:119-122 | off the earlier steps, the input is malformed exactly when the pattern matches nowhere, and the error names the normalised input |
| Properties.ParseSumsPairs | human2duration.go:119-138 | on the general path the parser succeeds exactly when every pair is valid, and answers their non-negative sum |
| Properties.ParseFirstFailure | human2duration.go:124-136 | on the general path the failure reported is that of the first invalid pair in input order |
| Properties.ParseNonNegative | human2duration.go:108-138 | a result from the tables or the pattern is never negative |
| Properties.ParseWordOnly | human2duration.go:119-122 | a single lower-case word that is not a phrase is malformed, and the error names it |
| Properties.WordIsNormal | human2duration.go:98-119 | such a word is trimmed, lower-case and holds no pair |
| Properties.ParseOnePair | human2duration.go:119-136 | a numeral written directly before a word is read as that one pair: its duration or its failure |
| Properties.ParseOnePairAgreeing | human2duration.go:113-136 | a valid pair is read as its duration whether the native syntax, reading it the same way, or the unit pattern takes it |
| Properties.ParseSingleUnit | human2duration.go:119-136 | a whole number written directly before a unit word is that many units |
| Properties.PairIsNormal | human2duration.go:98-106 | a numeral followed by a lower-case word is not changed by trimming or lower-casing |
| Properties.NotAPhrase | human2duration.go:39-52 | no phrase starts with a digit or a dot |
| Properties.PairTokens | human2duration.go:119 | a numeral followed by a run of letters that ends the text is exactly one match |
| Properties.SingleUnitValue | human2duration.go:126-135 | a pair of a whole number and a known unit is worth that number times the weight, exactly |
| Properties.ParseSinceAgo | human2duration.go:72-82 | `d ago` reads as `d`, negated, and a failure is wrapped with its cause |
| Properties.ParseSinceAgoOptional | human2duration.go:73-74 | the trailing `ago` is optional |
| Properties.ParseAfterInPlain | human2duration.go:84-95 | `in d` reads as `d`, wrapped, when `d` does not start with `after `; only one `in ` is removed |
| Properties.ParseAfterIn | human2duration.go:85-86 | the leading `in ` is optional |
| Properties.ParseAfterPlain | human2duration.go:84-95 | without either prefix, the reading is the parser's own, wrapped |
| Properties.ParseAfterAfter | human2duration.go:87 | the leading `after ` is optional too |
| Properties.SinceAndAfterAreOpposite | human2duration.go:72-95 | `d ago` and `in d` are the same span in opposite directions, and fail together with the same cause, for every trimmed `d` not starting with `after ` |
| Examples.ParseNormalNumeric | human2duration.go:97-138 | an input that starts with a numeral and is already trimmed and lower-case goes straight to the general path |
| Examples.ParseThreePairs | human2duration.go:119-138 | an input of that shape with three valid pairs is worth their sum |
| Examples.TokensOfTwoPairs | human2duration.go:55 | two pairs separated by a blank are two matches, in order |
| Examples.TokensOfThreePairs | human2duration.go:55 | three pairs separated by blanks, the first possibly with blanks before its unit, are three matches, in order |
| Examples.AccumulateThree | human2duration.go:124-136 | three valid pairs add up in order |
| Examples.ExampleDaysHoursMinutes | human2duration_test.go:43 | `2d 3h 15min` is two days, three hours and fifteen minutes |
| Examples.ExampleDayHoursMinutes | human2duration_test.go:42 | `1 day 4h 30m`, with a blank between a numeral and its unit word, is 28 hours 30 minutes |
| Examples.ExampleYearsMonthsWeeks | human2duration_test.go:47 | `2y6mo3w` is two years, six months and three weeks, with no blanks between pairs |
| Examples.ExampleFraction | human2duration_test.go:37 | `1.5h` is ninety minutes |
| Examples.ExampleUnknownUnit | human2duration_test.go:74 | `1lightyear` fails with the unknown unit `lightyear` |
| Examples.ExampleInvalidNumber | human2duration.go:127-130 | `1.2.3h` fails with the invalid number `1.2.3` |
| Examples.ExampleNoPairs | human2duration_test.go:73 | `nonsense` fails as an invalid format |
| Examples.ExampleBlank | human2duration_test.go:72 | blank input fails as an invalid format of the empty string |
| Examples.ExamplePhrase | human2duration_test.go:13 | `half an hour` is thirty minutes |
| Examples.ExampleOneHour | human2duration.go:119-136 | `1h` is one hour |
| Examples.ExampleAgo | human2duration_test.go:96 | `1h ago` is minus one hour |
| Examples.ExampleTwoHours | human2duration.go:119-136 | `2h` is two hours |
| Examples.ExampleIn | human2duration_test.go:133 | `in 2h` is two hours |
| Examples.ExampleOneDay | human2duration.go:119-136 | `1 day` is a day |
| Examples.ExampleAfter | human2duration_test.go:134 | `after 1 day` is a day |
| Examples.ExampleBareAgo | human2duration_test.go:98 | `ago` alone fails: the marker needs its blank, so the parser gets `ago` and finds no pair |
| Examples.ExampleBareAfter | human2duration_test.go:135 | `after` alone fails in the same way |

## Left out

- The timestamp step (`tryParseTimestamp` and `time.Until`) and `time.ParseDuration` are parameters. Their layouts, the clock and Go's native duration syntax are not part of this model.
- Floating point: a numeral's value and its product with a unit's weight are exact reals, truncated toward zero. Rounding of `float64` is not modelled.
- Durations are unbounded integers. The wrap-around of `int64` when the running total overflows (`200y 200y`), and the implementation-dependent result (MinInt64 on amd64) of the float-to-integer conversion of an out-of-range product (`300y`), are not modelled.
- Human2Duration.TokenDuration: the non-negative result holds only because durations are unbounded; in Go, `300y` and `200y 200y` read as negative durations.
- Human2Duration.TotalNonNegative: the non-negative result holds only because durations are unbounded; in Go, `300y` and `200y 200y` read as negative durations.
- Human2Duration.AccumulateOkIff: the non-negative result holds only because durations are unbounded; in Go, `300y` and `200y 200y` read as negative durations.
- Human2Duration.SumMatches: the non-negative result holds only because durations are unbounded; in Go, `300y` and `200y 200y` read as negative durations.
- Properties.ParseSumsPairs: the non-negative result holds only because durations are unbounded; in Go, `300y` and `200y 200y` read as negative durations.
- Properties.ParseNonNegative: the non-negative result holds only because durations are unbounded; in Go, `300y` and `200y 200y` read as negative durations.
- `Numerals.ParseNumeral` never fails on range. The `strconv.ParseFloat` error for a numeral too large for a `float64` is not modelled.
- Error messages are modelled as their kind and the offending text only, not as formatted strings. A result is `Ok` or `Err` rather than a zero duration next to an error.
- `Text.ToLower` lower-cases ASCII letters only. The unit pattern's letter class does include the two non-ASCII letters that `(?i)[a-z]` admits (the long s and the Kelvin sign), but `strings.ToLower` of other scripts is not modelled.
- The examples assume that the timestamp step declines their input. For `1.5h`, `1h` and `2h`, which Go's native syntax accepts, the native step may decline or answer the same value; the other examples assume that it declines.
- Not every input of the package's tests is worked as an example, because each literal string costs the verifier a separate proof; the general properties cover them.
- `Text.ToUpper`, like `Text.ToLower`, covers ASCII letters only.
