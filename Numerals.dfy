/**
  Reading the numeral group of the unit pattern as an exact decimal, in place of
  `strconv.ParseFloat` on the only strings that group can capture: runs of digits
  and dots.
 */
module Numerals {
  import opened Text
  import opened Wrappers

  predicate AllNumeralChars(n: string) {
    forall k :: 0 <= k < |n| ==> IsNumeralChar(n[k])
  }

  predicate AllDigits(n: string) {
    forall k :: 0 <= k < |n| ==> IsDigit(n[k])
  }

  predicate AtMostOneDot(n: string) {
    forall a, b :: 0 <= a < b < |n| && n[a] == '.' ==> n[b] != '.'
  }

  predicate HasDigit(n: string) {
    exists k :: 0 <= k < |n| && IsDigit(n[k])
  }

  /** The value of a run of decimal digits, most significant first. */
  function DigitsValue(ds: string): nat
    requires AllDigits(ds)
  {
    if ds == [] then 0 else DigitsValue(ds[..|ds| - 1]) * 10 + (ds[|ds| - 1] as int - '0' as int)
  }

  function Pow10(n: nat): (r: nat)
    ensures r >= 1
  {
    if n == 0 then 1 else 10 * Pow10(n - 1)
  }

  /** The value of `whole.fraction`: the fraction's digits count tenths, hundredths, … */
  function DecimalValue(whole: string, fraction: string): real
    requires AllDigits(whole) && AllDigits(fraction)
  {
    DigitsValue(whole) as real + DigitsValue(fraction) as real / Pow10(|fraction|) as real
  }

  /** `strconv.ParseFloat` on a run of digits and dots: the decimal number it
      spells, or `None`; never negative (see `ParseNumeralAccepts` for which runs
      are numbers). */
  function ParseNumeral(n: string): (r: Option<real>)
    ensures r.Some? ==> r.value >= 0.0
  {
    if !AllNumeralChars(n) then None
    else
      var d := SpanEnd(n, 0, IsDigit);
      SpanEndRun(n, 0, IsDigit);
      if d == |n| then
        if d == 0 then None else assert IsDigit(n[0]); Some(DigitsValue(n) as real)
      else
        assert n[d] == '.';
        var e := SpanEnd(n, d + 1, IsDigit);
        SpanEndRun(n, d + 1, IsDigit);
        if e < |n| then
          assert n[e] == '.';
          None
        else if |n| == 1 then
          None
        else
          assert IsDigit(n[if d == 0 then 1 else 0]);
          var whole, fraction := n[..d], n[d + 1..];
          assert AllDigits(whole) && AllDigits(fraction) by {
            assert forall k :: 0 <= k < |fraction| ==> fraction[k] == n[d + 1 + k];
          }
          Some(DecimalValue(whole, fraction))
  }

  /** A run of digits and dots is a number exactly when it has at least one digit
      and at most one dot (`1`, `1.`, `.5`, `1.5`); `.` and `1.2.3` are not. */
  lemma ParseNumeralAccepts(n: string)
    ensures ParseNumeral(n).Some? <==> AllNumeralChars(n) && AtMostOneDot(n) && HasDigit(n)
  {
    if AllNumeralChars(n) {
      var d := SpanEnd(n, 0, IsDigit);
      SpanEndRun(n, 0, IsDigit);
      if d == |n| {
        if d > 0 {
          assert IsDigit(n[0]);
        }
      } else {
        assert n[d] == '.';
        var e := SpanEnd(n, d + 1, IsDigit);
        SpanEndRun(n, d + 1, IsDigit);
        if e < |n| {
          assert n[e] == '.';
        } else if |n| == 1 {
          assert !IsDigit(n[0]);
        } else {
          assert IsDigit(n[if d == 0 then 1 else 0]);
        }
      }
    }
  }

  /** A run of digits reads as its decimal value. */
  lemma ParseDigits(ds: string)
    requires |ds| > 0 && AllDigits(ds)
    ensures ParseNumeral(ds) == Some(DigitsValue(ds) as real)
  {
    SpanEndIs(ds, 0, |ds|, IsDigit);
  }

  /** `whole.fraction` reads as whole plus fraction scaled by its number of places. */
  lemma ParseDecimal(whole: string, fraction: string)
    requires AllDigits(whole) && AllDigits(fraction) && |whole| + |fraction| > 0
    ensures ParseNumeral(whole + "." + fraction) == Some(DecimalValue(whole, fraction))
  {
    var n := whole + "." + fraction;
    var w := |whole|;
    assert n[..w] == whole && n[w + 1..] == fraction && n[w] == '.' by {
      assert n == whole + ("." + fraction);
    }
    assert AllNumeralChars(n) by {
      forall k | 0 <= k < |n|
        ensures IsNumeralChar(n[k])
      {
        if k < w {
          assert n[k] == n[..w][k];
        } else if k > w {
          assert n[k] == n[w + 1..][k - w - 1];
        }
      }
    }
    assert SpanEnd(n, 0, IsDigit) == w by {
      assert forall k :: 0 <= k < w ==> n[k] == n[..w][k];
      SpanEndIs(n, 0, w, IsDigit);
    }
    assert SpanEnd(n, w + 1, IsDigit) == |n| by {
      assert forall k :: w + 1 <= k < |n| ==> n[k] == n[w + 1..][k - w - 1];
      SpanEndIs(n, w + 1, |n|, IsDigit);
    }
    ParseSplitAtDot(n, whole, fraction);
  }

  /** The reading of a numeral whose digit runs either side of its one dot are known. */
  lemma ParseSplitAtDot(n: string, whole: string, fraction: string)
    requires AllDigits(whole) && AllDigits(fraction) && |n| > 1 && AllNumeralChars(n)
    requires SpanEnd(n, 0, IsDigit) == |whole| < |n| && SpanEnd(n, |whole| + 1, IsDigit) == |n|
    requires n[..|whole|] == whole && n[|whole| + 1..] == fraction
    ensures ParseNumeral(n) == Some(DecimalValue(whole, fraction))
  {
  }
}
