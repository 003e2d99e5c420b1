/** The percentage-change rule shared by every processor. */
module Calculations {
  import opened Wrappers
  import opened Numbers
  import opened Decimal

  /** Whole percentage points of relative change, truncated toward zero. */
  function ChangePoints(initial: real, final: real): int
    requires initial != 0.0
  {
    Trunc((final - initial) / initial * 100.0)
  }

  /** `calculate_percentage_change`: "0%" for a zero baseline, else the truncated change and "%". */
  function PercentageChange(initial: real, final: real): (s: string)
    ensures |s| >= 2 && s[|s| - 1] == '%'
  {
    if initial == 0.0 then "0%" else IntToString(ChangePoints(initial, final)) + "%"
  }

  /** Reads a "<integer>%" text back. */
  function ParsePercent(s: string): Option<int>
  {
    if |s| > 0 && s[|s| - 1] == '%' then ParseInt(s[..|s| - 1]) else None
  }

  /** A zero baseline gives "0%" whatever the final value. */
  lemma ZeroBaseline(final: real)
    ensures PercentageChange(0.0, final) == "0%"
  {
  }

  /** The text is an integer literal followed by "%", and that integer is the truncated change. */
  lemma PercentageChangeReadsBack(initial: real, final: real)
    ensures ParsePercent(PercentageChange(initial, final))
         == Some(if initial == 0.0 then 0 else ChangePoints(initial, final))
  {
    var s := PercentageChange(initial, final);
    if initial == 0.0 {
      assert s[..|s| - 1] == "0";
      IntRoundTrip(0);
      assert IntToString(0) == "0";
    } else {
      var n := ChangePoints(initial, final);
      assert s[..|s| - 1] == IntToString(n);
      IntRoundTrip(n);
    }
  }

  /** Equal values never report a change. */
  lemma EqualValuesNoChange(x: real)
    ensures PercentageChange(x, x) == "0%"
  {
    if x != 0.0 {
      assert (x - x) / x * 100.0 == 0.0;
      assert ChangePoints(x, x) == 0;
    }
  }

  lemma QuotientBelowOne(x: real, d: real)
    requires d > 0.0 && -d < x < d
    ensures -1.0 < x / d < 1.0
  {
  }

  /** For a positive baseline the sign follows the direction of the change, and changes below 1% read as 0. */
  lemma PositiveBaselineSign(initial: real, final: real)
    requires initial > 0.0
    ensures ChangePoints(initial, final) > 0 ==> final > initial
    ensures ChangePoints(initial, final) < 0 ==> final < initial
    ensures final >= initial ==> ChangePoints(initial, final) >= 0
    ensures final <= initial ==> ChangePoints(initial, final) <= 0
    ensures -initial / 100.0 < final - initial < initial / 100.0 ==> ChangePoints(initial, final) == 0
  {
    var q := (final - initial) / initial * 100.0;
    assert q == (final - initial) * 100.0 / initial;
    assert final > initial <==> q > 0.0;
    assert final < initial <==> q < 0.0;
    if -initial / 100.0 < final - initial < initial / 100.0 {
      QuotientBelowOne((final - initial) * 100.0, initial);
    }
  }
}
