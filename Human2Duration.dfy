/**
  The parser itself: `ParseDuration`, which tries, in order, a timestamp, an idiom
  of the phrase table, Go's native duration syntax and finally a sequence of
  numeral-unit pairs, and the two wrappers `ParseSinceDuration` (past, negated)
  and `ParseAfterDuration` (future).
 */
module Human2Duration {
  import opened Wrappers
  import opened Text
  import opened Tables
  import opened Numerals
  import opened Scanner

  /** The distinct failures of the parser; the messages themselves are not modelled. */
  datatype Error =
    | InvalidFormat(input: string)   // no numeral-unit pair in the normalised input
    | InvalidNumber(numeral: string) // a numeral group `strconv.ParseFloat` rejects
    | UnknownUnit(unit: string)      // a unit group that is not a key of the unit table
    | FailedToParse(cause: Error)    // the wrapping added by the two wrappers

  datatype Result<T> = Ok(value: T) | Err(error: Error)

  /** The two steps of the cascade whose code is not part of this model.
      `timestamp` is `tryParseTimestamp`, after its own upper-casing, followed by
      `time.Until` (which reads the clock): it is given the trimmed, upper-cased
      input and answers the offset to that instant.
      `native` is `time.ParseDuration`: it is given the trimmed, lower-cased input. */
  datatype Oracles = Oracles(timestamp: string -> Option<Duration>, native: string -> Option<Duration>)

  /** Equal up to ASCII case, as `strings.EqualFold` on ASCII text. */
  predicate SameIgnoringCase(a: string, b: string) {
    ToLower(a) == ToLower(b)
  }

  /** Removes `prefix` from the front of `s` when `s` starts with it, ignoring case. */
  function StripPrefixIgnoreCase(s: string, prefix: string): (r: string)
    ensures |r| <= |s| && r == s[|s| - |r|..]
    ensures if |prefix| <= |s| && SameIgnoringCase(s[..|prefix|], prefix)
            then |r| == |s| - |prefix| else r == s
  {
    var lower := ToLower(s);
    if HasPrefix(lower, ToLower(prefix)) then
      assert ToLower(s[..|prefix|]) == lower[..|prefix|];
      s[|prefix|..]
    else
      assert |prefix| <= |s| ==> ToLower(s[..|prefix|]) == lower[..|prefix|];
      s
  }

  /** Removes `suffix` from the end of `s` when `s` ends with it, ignoring case. */
  function StripSuffixIgnoreCase(s: string, suffix: string): (r: string)
    ensures |r| <= |s| && r == s[..|r|]
    ensures if |suffix| <= |s| && SameIgnoringCase(s[|s| - |suffix|..], suffix)
            then |r| == |s| - |suffix| else r == s
  {
    var lower := ToLower(s);
    if HasSuffix(lower, ToLower(suffix)) then
      assert ToLower(s[|s| - |suffix|..]) == lower[|s| - |suffix|..];
      s[..|s| - |suffix|]
    else
      assert |suffix| <= |s| ==> ToLower(s[|s| - |suffix|..]) == lower[|s| - |suffix|..];
      s
  }

  /** A text that starts with the prefix, in any case, loses exactly that prefix. */
  lemma StripPrefixInverse(head: string, rest: string, prefix: string)
    requires SameIgnoringCase(head, prefix)
    ensures StripPrefixIgnoreCase(head + rest, prefix) == rest
  {
    var s := head + rest;
    assert |head| == |prefix|;
    assert s[..|prefix|] == head;
    assert s[|prefix|..] == rest;
  }

  /** A text that ends with the suffix, in any case, loses exactly that suffix. */
  lemma StripSuffixInverse(rest: string, tail: string, suffix: string)
    requires SameIgnoringCase(tail, suffix)
    ensures StripSuffixIgnoreCase(rest + tail, suffix) == rest
  {
    var s := rest + tail;
    assert |tail| == |suffix|;
    assert s[|s| - |suffix|..] == tail;
    assert s[..|rest|] == rest;
  }

  /** `time.Duration(x)` for a product computed in floating point: the integer part,
      rounding toward zero. */
  function Truncate(x: real): (r: int)
    ensures 0.0 <= x ==> 0 <= r && r as real <= x < r as real + 1.0
    ensures x < 0.0 ==> r <= 0 && r as real - 1.0 < x <= r as real
  {
    if x >= 0.0 then x.Floor else -((-x).Floor)
  }

  /** `time.Duration(val * float64(durUnit))`: a numeral's value times a unit's
      weight, truncated toward zero. */
  function Scale(v: real, w: Duration): Duration {
    Truncate(v * w as real)
  }

  /** A whole number of units is counted exactly. */
  lemma ScaleWhole(n: nat, w: Duration)
    ensures Scale(n as real, w) == n * w
  {
    RealOfProduct(n, w);
  }

  /** Converting to a real commutes with multiplication. */
  lemma {:induction false} RealOfProduct(a: nat, b: int)
    ensures (a * b) as real == a as real * b as real
  {
    if a > 0 {
      RealOfProduct(a - 1, b);
      assert a * b == (a - 1) * b + b;
    }
  }

  /** One iteration of the summation loop: the numeral is read first, then the unit
      is looked up, and the pair adds its value times the unit's weight, which is
      never negative (see `TokenDurationCases` for the failures). */
  function TokenDuration(t: Token): (r: Result<Duration>)
    ensures r.Ok? ==> 0 <= r.value
  {
    match ParseNumeral(t.numeral)
    case None => Err(InvalidNumber(t.numeral))
    case Some(v) =>
      if t.unit in UnitMap then Ok(Scale(v, UnitMap[t.unit]))
      else Err(UnknownUnit(t.unit))
  }

  /** A pair fails exactly when its numeral is not a number or its unit is unknown;
      a bad numeral is reported before a bad unit; a valid pair adds the numeral's
      value times the weight of the unit, truncated, so at most one nanosecond less. */
  lemma TokenDurationCases(t: Token)
    ensures TokenDuration(t).Ok? <==> ParseNumeral(t.numeral).Some? && t.unit in UnitMap
    ensures ParseNumeral(t.numeral).None? ==> TokenDuration(t) == Err(InvalidNumber(t.numeral))
    ensures ParseNumeral(t.numeral).Some? && t.unit !in UnitMap ==> TokenDuration(t) == Err(UnknownUnit(t.unit))
    ensures TokenDuration(t).Ok? ==>
              var exact := ParseNumeral(t.numeral).value * UnitMap[t.unit] as real;
              TokenDuration(t).value as real <= exact < TokenDuration(t).value as real + 1.0
  {
    if ParseNumeral(t.numeral).Some? && t.unit in UnitMap {
      assert ParseNumeral(t.numeral).value >= 0.0 && UnitMap[t.unit] >= 0 by {
        UnitKeysAreWords();
      }
    }
  }

  /** A valid pair adds its numeral's value scaled by its unit's weight. */
  lemma TokenDurationScaled(t: Token)
    requires ParseNumeral(t.numeral).Some? && t.unit in UnitMap
    ensures TokenDuration(t) == Ok(Scale(ParseNumeral(t.numeral).value, UnitMap[t.unit]))
  {
  }

  /** A pair whose numeral is a whole number adds exactly that many units. */
  lemma TokenDurationWhole(t: Token, n: nat)
    requires ParseNumeral(t.numeral) == Some(n as real) && t.unit in UnitMap
    ensures TokenDuration(t) == Ok(n * UnitMap[t.unit])
  {
    ScaleWhole(n, UnitMap[t.unit]);
  }

  /** A single pair yields its own outcome. */
  lemma AccumulateSingle(t: Token)
    ensures Accumulate([t]) == TokenDuration(t)
  {
    assert [t][..0] == [];
  }

  /** One more valid pair adds its duration to a successful total. */
  lemma AccumulateSnocOk(ts: seq<Token>, t: Token, total: Duration, d: Duration)
    requires Accumulate(ts) == Ok(total) && TokenDuration(t) == Ok(d)
    ensures Accumulate(ts + [t]) == Ok(total + d)
  {
    var s := ts + [t];
    assert s[..|s| - 1] == ts;
  }

  /** What the summation loop yields after the tokens `ts`, in order: the first
      failure, or the running total. */
  function Accumulate(ts: seq<Token>): Result<Duration>
  {
    if ts == [] then Ok(0)
    else
      match Accumulate(ts[..|ts| - 1])
      case Err(e) => Err(e)
      case Ok(total) =>
        match TokenDuration(ts[|ts| - 1])
        case Err(e) => Err(e)
        case Ok(d) => Ok(total + d)
  }

  predicate AllValid(ts: seq<Token>) {
    forall k :: 0 <= k < |ts| ==> TokenDuration(ts[k]).Ok?
  }

  /** The intended sum of a sequence of valid pairs, added up from the front. */
  function Total(ts: seq<Token>): Duration
    requires AllValid(ts)
  {
    if ts == [] then 0 else TokenDuration(ts[0]).value + Total(ts[1..])
  }

  /** The sum from the front also splits off the last pair. */
  lemma {:induction false} TotalSnoc(ts: seq<Token>)
    requires |ts| > 0 && AllValid(ts)
    ensures Total(ts) == Total(ts[..|ts| - 1]) + TokenDuration(ts[|ts| - 1]).value
  {
    if |ts| > 1 {
      var tail := ts[1..];
      TotalSnoc(tail);
      assert tail[..|tail| - 1] == ts[..|ts| - 1][1..];
      assert tail[|tail| - 1] == ts[|ts| - 1];
    }
  }

  /** When every pair is valid, the loop ends with the sum of their durations. */
  lemma {:induction false} AccumulateAllValid(ts: seq<Token>)
    requires AllValid(ts)
    ensures Accumulate(ts) == Ok(Total(ts))
  {
    if ts != [] {
      var init := ts[..|ts| - 1];
      assert AllValid(init) by {
        assert forall k :: 0 <= k < |init| ==> init[k] == ts[k];
      }
      AccumulateAllValid(init);
      TotalSnoc(ts);
    }
  }

  /** The loop stops at the first invalid pair and returns that pair's failure. */
  lemma {:induction false} AccumulateFirstError(ts: seq<Token>, k: nat)
    requires k < |ts| && TokenDuration(ts[k]).Err?
    requires forall j :: 0 <= j < k ==> TokenDuration(ts[j]).Ok?
    ensures Accumulate(ts) == Err(TokenDuration(ts[k]).error)
  {
    var init := ts[..|ts| - 1];
    if |ts| == k + 1 {
      assert AllValid(init) by {
        assert forall j :: 0 <= j < |init| ==> init[j] == ts[j];
      }
      AccumulateAllValid(init);
    } else {
      assert init[k] == ts[k];
      assert forall j :: 0 <= j < k ==> init[j] == ts[j];
      AccumulateFirstError(init, k);
    }
  }

  /** A pair that fails after a successful prefix decides the result: the pairs
      after it change nothing. */
  lemma {:induction false} AccumulateStopsAt(ts: seq<Token>, i: nat, e: Error)
    requires i < |ts| && Accumulate(ts[..i]).Ok? && TokenDuration(ts[i]) == Err(e)
    ensures Accumulate(ts) == Err(e)
  {
    var init := ts[..|ts| - 1];
    if i == |ts| - 1 {
      assert init == ts[..i];
    } else {
      assert init[..i] == ts[..i] && init[i] == ts[i];
      AccumulateStopsAt(init, i, e);
    }
  }

  /** The loop only ever fails on a numeral or on a unit. */
  lemma {:induction false} AccumulateErrorKinds(ts: seq<Token>)
    ensures Accumulate(ts).Err? ==> Accumulate(ts).error.InvalidNumber? || Accumulate(ts).error.UnknownUnit?
  {
    if ts != [] {
      AccumulateErrorKinds(ts[..|ts| - 1]);
      TokenDurationCases(ts[|ts| - 1]);
    }
  }

  /** The first invalid pair of a sequence that has one. */
  lemma {:induction false} FirstInvalid(ts: seq<Token>) returns (k: nat)
    requires !AllValid(ts)
    ensures k < |ts| && TokenDuration(ts[k]).Err?
    ensures forall j :: 0 <= j < k ==> TokenDuration(ts[j]).Ok?
  {
    var init := ts[..|ts| - 1];
    if AllValid(init) {
      k := |ts| - 1;
      assert forall j :: 0 <= j < k ==> init[j] == ts[j];
    } else {
      k := FirstInvalid(init);
      assert init[k] == ts[k];
      assert forall j :: 0 <= j < k ==> init[j] == ts[j];
    }
  }

  /** The loop succeeds exactly when every pair is valid, and then its total is
      the sum of the pairs and is never negative. */
  lemma AccumulateOkIff(ts: seq<Token>)
    ensures Accumulate(ts).Ok? <==> AllValid(ts)
    ensures Accumulate(ts).Ok? ==> Accumulate(ts).value == Total(ts) >= 0
  {
    if AllValid(ts) {
      AccumulateAllValid(ts);
      TotalNonNegative(ts);
    } else {
      var k := FirstInvalid(ts);
      AccumulateFirstError(ts, k);
    }
  }

  lemma {:induction false} TotalNonNegative(ts: seq<Token>)
    requires AllValid(ts)
    ensures Total(ts) >= 0
  {
    if ts != [] {
      TotalNonNegative(ts[1..]);
    }
  }

  /** `ParseDuration` (human2duration.go) as a function of the input and the two
      abstract steps. It fails only with one of its own three failures, never
      with the wrappers', and a malformed input is named as normalised. */
  function Parse(o: Oracles, input: string): (r: Result<Duration>)
    ensures r.Err? ==> r.error.InvalidFormat? || r.error.InvalidNumber? || r.error.UnknownUnit?
    ensures r.Err? && r.error.InvalidFormat? ==> r.error.input == ToLower(TrimSpace(input))
  {
    var trimmed := TrimSpace(input);
    match o.timestamp(ToUpper(trimmed))
    case Some(d) => Ok(d)
    case None =>
      var lower := ToLower(trimmed);
      if lower in FuzzyMap then Ok(FuzzyMap[lower])
      else
        match o.native(lower)
        case Some(d) => Ok(d)
        case None =>
          var ts := Tokens(lower);
          if ts == [] then Err(InvalidFormat(lower))
          else AccumulateErrorKinds(ts); Accumulate(ts)
  }

  /** The wrapping shared by both wrappers: a failure is reported as a failure to
      parse, with the cause kept. */
  function Wrapped(r: Result<Duration>, negate: bool): (w: Result<Duration>)
    ensures w.Err? <==> r.Err?
    ensures r.Err? ==> w.error == FailedToParse(r.error)
  {
    match r
    case Err(e) => Err(FailedToParse(e))
    case Ok(d) => Ok(if negate then -d else d)
  }

  /** A wrapped reading of the parser carries exactly one layer of wrapping. */
  lemma WrappedOnce(o: Oracles, d: string, negate: bool)
    ensures var w := Wrapped(Parse(o, d), negate);
            w.Err? ==> w.error.FailedToParse? && !w.error.cause.FailedToParse?
  {
  }

  /** `ParseSinceDuration`: a duration into the past, with an optional trailing `ago`. */
  function ParseSince(o: Oracles, input: string): (r: Result<Duration>)
    ensures r.Err? ==> r.error.FailedToParse? && !r.error.cause.FailedToParse?
  {
    var d := StripSuffixIgnoreCase(TrimSpace(input), " ago");
    WrappedOnce(o, d, true);
    Wrapped(Parse(o, d), true)
  }

  /** `ParseAfterDuration`: a duration into the future, with an optional leading
      `in ` and then an optional leading `after `. */
  function ParseAfter(o: Oracles, input: string): (r: Result<Duration>)
    ensures r.Err? ==> r.error.FailedToParse? && !r.error.cause.FailedToParse?
  {
    var s := StripPrefixIgnoreCase(TrimSpace(input), "in ");
    var d := StripPrefixIgnoreCase(s, "after ");
    WrappedOnce(o, d, false);
    Wrapped(Parse(o, d), false)
  }

  /** The parser, step by step as human2duration.go runs it. */
  method ParseDuration(o: Oracles, input: string) returns (r: Result<Duration>)
    ensures r == Parse(o, input)
  {
    var s := TrimSpace(input);
    var stamp := o.timestamp(ToUpper(s));
    if stamp.Some? {
      return Ok(stamp.value);
    }
    s := ToLower(s);
    if s in FuzzyMap {
      return Ok(FuzzyMap[s]);
    }
    var native := o.native(s);
    if native.Some? {
      return Ok(native.value);
    }
    var matches := Tokens(s);
    if |matches| == 0 {
      return Err(InvalidFormat(s));
    }
    r := SumMatches(matches);
  }

  /** The summation loop of the general path: the pairs are taken in input order,
      the first invalid one ends the loop with its failure, and otherwise the
      result is the sum of the pairs' durations. */
  method SumMatches(matches: seq<Token>) returns (r: Result<Duration>)
    ensures r == Accumulate(matches)
    ensures r.Ok? <==> AllValid(matches)
    ensures r.Ok? ==> r.value == Total(matches) >= 0
  {
    var total: Duration := 0;
    var i := 0;
    while i < |matches|
      invariant 0 <= i <= |matches|
      invariant Accumulate(matches[..i]) == Ok(total)
    {
      // the numeral is read first, then the unit is looked up
      var d := TokenDuration(matches[i]);
      if d.Err? {
        AccumulateStopsAt(matches, i, d.error);
        AccumulateOkIff(matches);
        return Err(d.error);
      }
      total := total + d.value;
      assert matches[..i + 1][..i] == matches[..i];
      i := i + 1;
    }
    assert matches[..i] == matches;
    AccumulateOkIff(matches);
    return Ok(total);
  }

  /** `ParseSinceDuration`, calling the parser above. */
  method ParseSinceDuration(o: Oracles, input: string) returns (r: Result<Duration>)
    ensures r == ParseSince(o, input)
  {
    var s := TrimSpace(input);
    s := StripSuffixIgnoreCase(s, " ago");
    var d := ParseDuration(o, s);
    assert ParseSince(o, input) == Wrapped(d, true);
    if d.Err? {
      return Err(FailedToParse(d.error));
    }
    return Ok(-d.value);
  }

  /** `ParseAfterDuration`, calling the parser above. */
  method ParseAfterDuration(o: Oracles, input: string) returns (r: Result<Duration>)
    ensures r == ParseAfter(o, input)
  {
    var s := TrimSpace(input);
    s := StripPrefixIgnoreCase(s, "in ");
    s := StripPrefixIgnoreCase(s, "after ");
    var d := ParseDuration(o, s);
    assert ParseAfter(o, input) == Wrapped(d, false);
    if d.Err? {
      return Err(FailedToParse(d.error));
    }
    return Ok(d.value);
  }
}
