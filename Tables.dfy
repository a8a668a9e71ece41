/**
  The two constant tables of the parser: unit words with their weights, and
  idiomatic phrases with their fixed durations.
 */
module Tables {
  import opened Text

  /** A signed span of time counted in nanoseconds, as Go's `time.Duration`. */
  type Duration = int

  const Second: Duration := 1_000_000_000
  const Minute: Duration := 60 * Second
  const Hour: Duration := 60 * Minute

  /** The weight of each unit word the general unit-sequence path accepts. */
  const UnitMap: map<string, Duration> := map[
    "s"       := Second,
    "sec"     := Second,
    "second"  := Second,
    "seconds" := Second,
    "m"       := Minute,
    "min"     := Minute,
    "minute"  := Minute,
    "minutes" := Minute,
    "h"       := Hour,
    "hr"      := Hour,
    "hour"    := Hour,
    "hours"   := Hour,
    "d"       := 24 * Hour,
    "day"     := 24 * Hour,
    "days"    := 24 * Hour,
    "w"       := 7 * 24 * Hour,
    "week"    := 7 * 24 * Hour,
    "weeks"   := 7 * 24 * Hour,
    "mo"      := 30 * 24 * Hour,
    "month"   := 30 * 24 * Hour,
    "months"  := 30 * 24 * Hour,
    "y"       := 365 * 24 * Hour,
    "year"    := 365 * 24 * Hour,
    "years"   := 365 * 24 * Hour
  ]

  /** Idioms matched against the whole trimmed, lower-cased input. */
  const FuzzyMap: map<string, Duration> := map[
    "half an hour"       := 30 * Minute,
    "an hour and a half" := 90 * Minute,
    "half a day"         := 12 * Hour,
    "couple of minutes"  := 2 * Minute,
    "couple of hours"    := 2 * Hour,
    "couple of days"     := 48 * Hour,
    "an hour"            := Hour,
    "a minute"           := Minute,
    "a second"           := Second,
    "a day"              := 24 * Hour,
    "a week"             := 7 * 24 * Hour,
    "a month"            := 30 * 24 * Hour
  ]

  /** Each unit family shares one weight: `m` is always minutes, a month is 30
      days and a year 365 days. */
  lemma UnitFamilies()
    ensures UnitMap["s"] == UnitMap["sec"] == UnitMap["second"] == UnitMap["seconds"] == Second
    ensures UnitMap["m"] == UnitMap["min"] == UnitMap["minute"] == UnitMap["minutes"] == 60 * Second
    ensures UnitMap["h"] == UnitMap["hr"] == UnitMap["hour"] == UnitMap["hours"] == 60 * 60 * Second
    ensures UnitMap["d"] == UnitMap["day"] == UnitMap["days"] == 24 * UnitMap["h"]
    ensures UnitMap["w"] == UnitMap["week"] == UnitMap["weeks"] == 7 * UnitMap["d"]
    ensures UnitMap["mo"] == UnitMap["month"] == UnitMap["months"] == 30 * UnitMap["d"]
    ensures UnitMap["y"] == UnitMap["year"] == UnitMap["years"] == 365 * UnitMap["d"]
  {
    ShortUnitFamilies();
    LongUnitFamilies();
  }

  /** The families are checked in two halves to keep each proof small. */
  lemma ShortUnitFamilies()
    ensures UnitMap["s"] == UnitMap["sec"] == UnitMap["second"] == UnitMap["seconds"] == Second
    ensures UnitMap["m"] == UnitMap["min"] == UnitMap["minute"] == UnitMap["minutes"] == 60 * Second
    ensures UnitMap["h"] == UnitMap["hr"] == UnitMap["hour"] == UnitMap["hours"] == 60 * 60 * Second
  {
    SecondFamily();
    MinuteFamily();
    HourFamily();
  }

  lemma SecondFamily()
    ensures UnitMap["s"] == UnitMap["sec"] == UnitMap["second"] == UnitMap["seconds"] == Second
  {
  }

  lemma MinuteFamily()
    ensures UnitMap["m"] == UnitMap["min"] == UnitMap["minute"] == UnitMap["minutes"] == 60 * Second
  {
  }

  lemma HourFamily()
    ensures UnitMap["h"] == UnitMap["hr"] == UnitMap["hour"] == UnitMap["hours"] == 60 * 60 * Second
  {
  }

  lemma LongUnitFamilies()
    ensures UnitMap["h"] == 60 * 60 * Second
    ensures UnitMap["d"] == UnitMap["day"] == UnitMap["days"] == 24 * UnitMap["h"]
    ensures UnitMap["w"] == UnitMap["week"] == UnitMap["weeks"] == 7 * UnitMap["d"]
    ensures UnitMap["mo"] == UnitMap["month"] == UnitMap["months"] == 30 * UnitMap["d"]
    ensures UnitMap["y"] == UnitMap["year"] == UnitMap["years"] == 365 * UnitMap["d"]
  {
  }

  /** Every unit word is a non-empty run of lower-case ASCII letters, so the unit
      group of the pattern can capture it whole, and every weight is at least a second. */
  lemma UnitKeysAreWords()
    ensures forall u :: u in UnitMap ==>
              && |u| > 0
              && (forall k :: 0 <= k < |u| ==> 'a' <= u[k] <= 'z')
              && UnitMap[u] >= Second
  {
  }

  /** A phrase key is already trimmed and lower-cased, holds no digit or dot,
      and stands for a positive duration. */
  predicate IsNormalPhrase(f: string)
    requires f in FuzzyMap
  {
    && |f| > 0 && !IsSpace(f[0]) && !IsSpace(f[|f| - 1])
    && (forall k :: 0 <= k < |f| ==> !('A' <= f[k] <= 'Z') && !IsNumeralChar(f[k]))
    && FuzzyMap[f] > 0
  }

  /** The phrases are checked a few at a time to keep each proof small. */
  lemma NormalPhrasesHalf()
    ensures IsNormalPhrase("half an hour") && IsNormalPhrase("half a day")
  {
  }

  lemma NormalPhraseHourAndAHalf()
    ensures IsNormalPhrase("an hour and a half")
  {
  }

  lemma NormalPhrasesCouple()
    ensures IsNormalPhrase("couple of minutes") && IsNormalPhrase("couple of hours")
  {
  }

  lemma NormalPhrasesDays()
    ensures IsNormalPhrase("couple of days") && IsNormalPhrase("a day") && IsNormalPhrase("a week")
  {
  }

  lemma NormalPhrasesArticle()
    ensures IsNormalPhrase("an hour") && IsNormalPhrase("a minute") && IsNormalPhrase("a second")
    ensures IsNormalPhrase("a month")
  {
  }

  /** Every phrase is already trimmed and lower-cased, so each is reachable, and
      none holds a digit or a dot, so none is also a unit-sequence expression. */
  lemma FuzzyKeysNormalized()
    ensures forall f :: f in FuzzyMap ==> IsNormalPhrase(f)
  {
    NormalPhrasesHalf();
    NormalPhraseHourAndAHalf();
    NormalPhrasesCouple();
    NormalPhrasesDays();
    NormalPhrasesArticle();
  }
}
