/** The indicator processor: the mean of per-row numerator/denominator ratios, as a percentage. */
module Indicator {
  import opened Wrappers
  import opened Text
  import opened Numbers
  import opened Frame
  import opened Declarations
  import opened Variables
  import opened Calculations

  /** `num / denom` masked by `.where(denom != 0)`: a zero or missing operand gives NaN. */
  function RatioCell(n: Cell, d: Cell): (c: Cell)
    ensures c.Num? <==> n.Num? && d.Num? && d.value != 0.0
    ensures c.Num? ==> c.value == n.value / d.value
  {
    if n.Num? && d.Num? && d.value != 0.0 then Num(n.value / d.value, "") else Missing
  }

  function RatioColumn(nc: seq<Cell>, dc: seq<Cell>): (rc: seq<Cell>)
    requires |nc| == |dc|
    ensures |rc| == |nc|
    ensures forall i :: 0 <= i < |rc| ==> rc[i] == RatioCell(nc[i], dc[i])
  {
    seq(|nc|, i requires 0 <= i < |nc| => RatioCell(nc[i], dc[i]))
  }

  /** The name under which a numerator's ratio is stored. */
  function RatioName(num: string): string
  {
    num + "_ratio"
  }

  /** `df_copy[name] = col`: adds or overwrites one column. */
  function WithColumn(t: Frame, name: string, col: seq<Cell>): (u: Frame)
    requires |col| == t.rows
    ensures u.rows == t.rows && u.columns == t.columns[name := col]
  {
    Table(t.rows, t.columns[name := col])
  }

  /**
   * One step of the list loop on the working copy: both columns must exist (they may be
   * ratio columns earlier steps added), texts cannot be divided.
   */
  function RatioStep(t: Frame, num: string, denom: string): (r: Result<Frame>)
    ensures r.Err? <==> !(num in t.columns && denom in t.columns)
                        || HasText(t.columns[num]) || HasText(t.columns[denom])
    ensures r.Ok? ==> (r.value.rows == t.rows
      && r.value.columns == t.columns[RatioName(num) := RatioColumn(t.columns[num], t.columns[denom])])
  {
    if !(num in t.columns && denom in t.columns) then Err(ColumnAssertion)
    else if HasText(t.columns[num]) || HasText(t.columns[denom]) then Err(TypeMismatch)
    else Ok(WithColumn(t, RatioName(num), RatioColumn(t.columns[num], t.columns[denom])))
  }

  /** The working copy and the ratio column names after the first `k` pairs of `zip(nums, denoms)`. */
  function RatioSteps(t: Frame, nums: seq<string>, denoms: seq<string>, k: nat): (r: Result<(Frame, seq<string>)>)
    requires k <= |nums| && k <= |denoms|
    ensures r.Ok? ==> r.value.0.rows == t.rows && |r.value.1| == k
    ensures r.Ok? ==> forall c :: c in r.value.1 ==> c in r.value.0.columns
  {
    if k == 0 then Ok((t, []))
    else
      var prev :- RatioSteps(t, nums, denoms, k - 1);
      var next :- RatioStep(prev.0, nums[k - 1], denoms[k - 1]);
      Ok((next, prev.1 + [RatioName(nums[k - 1])]))
  }

  function Min(a: nat, b: nat): nat
  {
    if a <= b then a else b
  }

  /**
   * `_calculate_indicator_ratios`: for two lists, the mean over rows of each row's mean
   * ratio (rows without one skipped); for two names, the mean of the one ratio column.
   * `None` is NaN.
   */
  function RatioMean(t: Frame, nums: Ref, denoms: Ref): (r: Result<Option<real>>)
    ensures !((nums.Cols? && denoms.Cols?) || (nums.Col? && denoms.Col?)) ==> r == Err(RatioShape)
  {
    if nums.Cols? && denoms.Cols? then
      var steps :- RatioSteps(t, nums.names, denoms.names, Min(|nums.names|, |denoms.names|));
      ListMean(steps.0, steps.1)
    else if nums.Col? && denoms.Col? then
      var copy :- RatioStep(t, nums.name, denoms.name);
      SeriesMean(copy.columns[RatioName(nums.name)])
    else Err(RatioShape)
  }

  /** `int(value * 100)`: NaN raises. */
  function Percent(m: Result<Option<real>>): (r: Result<int>)
    ensures m.Ok? && m.value.Some? <==> r.Ok?
    ensures r.Ok? ==> r.value == Trunc(m.value.value * 100.0)
  {
    match m
    case Err(e) => Err(e)
    case Ok(None) => Err(NotANumber)
    case Ok(Some(x)) => Ok(Trunc(x * 100.0))
  }

  /** The reported name: the final numerator (or the first of them) up to its last '_'. */
  function IndicatorName(finalNums: Ref): Result<string>
  {
    if finalNums.Col? then Ok(BeforeLast(finalNums.name, '_'))
    else if finalNums.Cols? && |finalNums.names| > 0 then Ok(BeforeLast(finalNums.names[0], '_'))
    else Err(TypeMismatch)
  }

  /** `IndicatorProcessor.process`. */
  function Process(t: Frame, pair: Pair, meta: Metadata): (r: Result<VariableData>)
    ensures Unpack(pair.initial).Err? || Unpack(pair.final).Err? || meta.calculation.None? ==> r.Err?
    ensures Unpack(pair.initial).Ok? && Unpack(pair.final).Ok? && meta.calculation.Some? ==>
      var (inums, idens) := Unpack(pair.initial).value;
      var (fnums, fdens) := Unpack(pair.final).value;
      (r.Ok? <==> Percent(RatioMean(t, inums, idens)).Ok? && Percent(RatioMean(t, fnums, fdens)).Ok?
                  && IndicatorName(fnums).Ok?)
    ensures r.Ok? ==>
      var (inums, idens) := Unpack(pair.initial).value;
      var (fnums, fdens) := Unpack(pair.final).value;
      Percent(RatioMean(t, inums, idens)).Ok? && Percent(RatioMean(t, fnums, fdens)).Ok?
      && IndicatorName(fnums).Ok?
      && var iv := Percent(RatioMean(t, inums, idens)).value as real;
         var fv := Percent(RatioMean(t, fnums, fdens)).value as real;
         r.value == VariableData(IndicatorName(fnums).value, meta.description, Some(Number(iv)), Number(fv),
                                 Some(ChangeText(PercentageChange(iv, fv))),
                                 IndexChange(meta.description, meta.calculation.value, iv, fv))
    ensures r.Ok? ==> WellShaped(r.value) && IsWhole(r.value.initial.value.x) && IsWhole(r.value.final.x)
  {
    var (inums, idens) :- Unpack(pair.initial);
    var (fnums, fdens) :- Unpack(pair.final);
    if meta.calculation.None? then Err(MissingKey("calculation"))
    else
      var iv :- Percent(RatioMean(t, inums, idens));
      var fv :- Percent(RatioMean(t, fnums, fdens));
      var name :- IndicatorName(fnums);
      Ok(VariableData(name, meta.description, Some(Number(iv as real)), Number(fv as real),
                      Some(ChangeText(PercentageChange(iv as real, fv as real))),
                      IndexChange(meta.description, meta.calculation.value, iv as real, fv as real)))
  }

  /** Once a step of the list loop fails, the loop fails with that error. */
  lemma {:induction false} RatioStepsFailureStays(t: Frame, nums: seq<string>, denoms: seq<string>, k: nat, m: nat)
    requires k <= m <= |nums| && m <= |denoms|
    requires RatioSteps(t, nums, denoms, k).Err?
    ensures RatioSteps(t, nums, denoms, m) == RatioSteps(t, nums, denoms, k)
    decreases m
  {
    if m > k {
      RatioStepsFailureStays(t, nums, denoms, k, m - 1);
    }
  }

  /** One more pair of the list loop: the error it raises, or the column and name it adds. */
  lemma RatioStepsNext(t: Frame, nums: seq<string>, denoms: seq<string>, k: nat, copy: Frame, ratios: seq<string>)
    requires k < |nums| && k < |denoms|
    requires RatioSteps(t, nums, denoms, k) == Ok((copy, ratios))
    ensures !(nums[k] in copy.columns && denoms[k] in copy.columns) ==> RatioSteps(t, nums, denoms, k + 1) == Err(ColumnAssertion)
    ensures nums[k] in copy.columns && denoms[k] in copy.columns ==>
      if HasText(copy.columns[nums[k]]) || HasText(copy.columns[denoms[k]]) then
        RatioSteps(t, nums, denoms, k + 1) == Err(TypeMismatch)
      else
        RatioSteps(t, nums, denoms, k + 1) ==
          Ok((WithColumn(copy, RatioName(nums[k]), RatioColumn(copy.columns[nums[k]], copy.columns[denoms[k]])),
              ratios + [RatioName(nums[k])]))
  {
  }

  /** The loop of `_calculate_indicator_ratios` over the zipped lists: one ratio column per pair, on a copy. */
  method AddRatioColumns(t: Frame, nums: seq<string>, denoms: seq<string>, m: nat)
    returns (r: Result<(Frame, seq<string>)>)
    requires m <= |nums| && m <= |denoms|
    ensures r == RatioSteps(t, nums, denoms, m)
  {
    var copy := t;
    var ratios: seq<string> := [];
    var k := 0;
    while k < m
      invariant 0 <= k <= m
      invariant RatioSteps(t, nums, denoms, k) == Ok((copy, ratios))
    {
      var num, denom := nums[k], denoms[k];
      RatioStepsNext(t, nums, denoms, k, copy, ratios);
      if !(num in copy.columns && denom in copy.columns) {
        RatioStepsFailureStays(t, nums, denoms, k + 1, m);
        return Err(ColumnAssertion);
      }
      if HasText(copy.columns[num]) || HasText(copy.columns[denom]) {
        RatioStepsFailureStays(t, nums, denoms, k + 1, m);
        return Err(TypeMismatch);
      }
      copy := WithColumn(copy, RatioName(num), RatioColumn(copy.columns[num], copy.columns[denom]));
      ratios := ratios + [RatioName(num)];
      k := k + 1;
    }
    r := Ok((copy, ratios));
  }

  /** `_calculate_indicator_ratios` as written: the ratio columns are added to a copy one pair at a time. */
  method CalculateIndicatorRatios(t: Frame, nums: Ref, denoms: Ref) returns (r: Result<Option<real>>)
    ensures r == RatioMean(t, nums, denoms)
  {
    var copy := t;
    if nums.Cols? && denoms.Cols? {
      var steps := AddRatioColumns(t, nums.names, denoms.names, Min(|nums.names|, |denoms.names|));
      if steps.Err? {
        return Err(steps.error);
      }
      r := ListMean(steps.value.0, steps.value.1);
    } else if nums.Col? && denoms.Col? {
      if !(nums.name in copy.columns && denoms.name in copy.columns) {
        return Err(ColumnAssertion);
      }
      if HasText(copy.columns[nums.name]) || HasText(copy.columns[denoms.name]) {
        return Err(TypeMismatch);
      }
      copy := WithColumn(copy, RatioName(nums.name), RatioColumn(copy.columns[nums.name], copy.columns[denoms.name]));
      r := SeriesMean(copy.columns[RatioName(nums.name)]);
    } else {
      r := Err(RatioShape);
    }
  }

  /** `zip` stops at the shorter list: numerators beyond the denominators are never read. */
  lemma {:induction false} RatioStepsPrefix(t: Frame, nums: seq<string>, extra: seq<string>, denoms: seq<string>, k: nat)
    requires k <= |nums| && k <= |denoms|
    ensures RatioSteps(t, nums + extra, denoms, k) == RatioSteps(t, nums, denoms, k)
  {
    if k > 0 {
      RatioStepsPrefix(t, nums, extra, denoms, k - 1);
      assert (nums + extra)[k - 1] == nums[k - 1];
    }
  }

  lemma ZipIgnoresExtraNumerators(t: Frame, nums: seq<string>, extra: seq<string>, denoms: seq<string>)
    requires |nums| == |denoms|
    ensures RatioMean(t, Cols(nums + extra), Cols(denoms)) == RatioMean(t, Cols(nums), Cols(denoms))
  {
    RatioStepsPrefix(t, nums, extra, denoms, |nums|);
  }

  /** A one-pair list gives the same mean as the two names on their own. */
  lemma OnePairListIsNames(t: Frame, num: string, denom: string)
    ensures RatioMean(t, Cols([num]), Cols([denom])) == RatioMean(t, Col(num), Col(denom))
  {
    var step := RatioStep(t, num, denom);
    assert RatioSteps(t, [num], [denom], 0) == Ok((t, []));
    assert [num][0] == num && [denom][0] == denom;
    assert [] + [RatioName(num)] == [RatioName(num)];
    assert RatioSteps(t, [num], [denom], 1) == (if step.Err? then Err(step.error) else Ok((step.value, [RatioName(num)])));
    if step.Ok? {
      ListMeanOfOneColumn(step.value, RatioName(num));
    }
  }

  /** A numerator/denominator cell pair whose ratio, when defined, is a fraction of one. */
  predicate ProperFraction(n: Cell, d: Cell)
  {
    RatioCell(n, d).Num? ==> 0.0 <= RatioCell(n, d).value <= 1.0
  }

  /** The first `k` pairs name columns of `t` whose ratios are proper fractions. */
  predicate FractionPairs(t: Frame, nums: seq<string>, denoms: seq<string>, k: nat)
    requires k <= |nums| && k <= |denoms|
  {
    (forall j :: 0 <= j < k ==> nums[j] in t.columns && denoms[j] in t.columns)
    && forall j, i :: 0 <= j < k && 0 <= i < t.rows && nums[j] in t.columns && denoms[j] in t.columns ==>
         ProperFraction(t.columns[nums[j]][i], t.columns[denoms[j]][i])
  }

  /** No pair of the first `k` reads a ratio column that the loop itself writes. */
  predicate NoRatioInputs(nums: seq<string>, denoms: seq<string>, k: nat)
    requires k <= |nums| && k <= |denoms|
  {
    forall j, l :: 0 <= j < k && 0 <= l < k ==> nums[l] != RatioName(nums[j]) && denoms[l] != RatioName(nums[j])
  }

  predicate UnitColumn(cells: seq<Cell>)
  {
    forall i :: 0 <= i < |cells| && cells[i].Num? ==> 0.0 <= cells[i].value <= 1.0
  }

  lemma UnitRatioColumn(nc: seq<Cell>, dc: seq<Cell>)
    requires |nc| == |dc|
    requires forall i :: 0 <= i < |nc| ==> ProperFraction(nc[i], dc[i])
    ensures UnitColumn(RatioColumn(nc, dc))
  {
  }

  /** The loop leaves every column it does not write as it was. */
  lemma {:induction false} RatioStepsKeepColumn(t: Frame, nums: seq<string>, denoms: seq<string>, k: nat, c: string)
    requires k <= |nums| && k <= |denoms|
    requires RatioSteps(t, nums, denoms, k).Ok? && c in t.columns
    requires forall l :: 0 <= l < k ==> c != RatioName(nums[l])
    ensures c in RatioSteps(t, nums, denoms, k).value.0.columns
    ensures RatioSteps(t, nums, denoms, k).value.0.columns[c] == t.columns[c]
  {
    if k > 0 {
      assert RatioSteps(t, nums, denoms, k - 1).Ok?;
      RatioStepsKeepColumn(t, nums, denoms, k - 1, c);
    }
  }

  /** Without aliasing, every ratio column the loop adds holds proper fractions. */
  lemma {:induction false} RatioStepsOfFractions(t: Frame, nums: seq<string>, denoms: seq<string>, k: nat)
    requires k <= |nums| && k <= |denoms|
    requires FractionPairs(t, nums, denoms, k) && NoRatioInputs(nums, denoms, k)
    requires RatioSteps(t, nums, denoms, k).Ok?
    ensures forall c :: c in RatioSteps(t, nums, denoms, k).value.1 ==>
      UnitColumn(RatioSteps(t, nums, denoms, k).value.0.columns[c])
  {
    if k > 0 {
      var prev := RatioSteps(t, nums, denoms, k - 1);
      assert prev.Ok?;
      assert FractionPairs(t, nums, denoms, k - 1);
      assert NoRatioInputs(nums, denoms, k - 1);
      RatioStepsOfFractions(t, nums, denoms, k - 1);
      var num, denom := nums[k - 1], denoms[k - 1];
      assert forall l :: 0 <= l < k - 1 ==> num != RatioName(nums[l]) && denom != RatioName(nums[l]);
      RatioStepsKeepColumn(t, nums, denoms, k - 1, num);
      RatioStepsKeepColumn(t, nums, denoms, k - 1, denom);
      var nc, dc := t.columns[num], t.columns[denom];
      assert forall i :: 0 <= i < |nc| ==> ProperFraction(nc[i], dc[i]);
      UnitRatioColumn(nc, dc);
    }
  }

  /** For two names whose ratios are proper fractions, the index lies between 0 and 100. */
  lemma NamesIndexIsPercentage(t: Frame, num: string, denom: string)
    requires num in t.columns && denom in t.columns
    requires forall i :: 0 <= i < t.rows ==> ProperFraction(t.columns[num][i], t.columns[denom][i])
    requires Percent(RatioMean(t, Col(num), Col(denom))).Ok?
    ensures 0 <= Percent(RatioMean(t, Col(num), Col(denom))).value <= 100
  {
    var rc := RatioColumn(t.columns[num], t.columns[denom]);
    UnitRatioColumn(t.columns[num], t.columns[denom]);
    NumbersInRange(rc, 0.0, 1.0);
    MeanBounds(NumbersIn(rc), 0.0, 1.0);
    TruncBounds(Mean(NumbersIn(rc)) * 100.0, 0, 100);
  }

  /**
   * For lists of pairs whose ratios are proper fractions, and that never name a ratio column
   * the loop writes, the index lies between 0 and 100.
   */
  lemma ListIndexIsPercentage(t: Frame, nums: seq<string>, denoms: seq<string>)
    requires |nums| == |denoms|
    requires FractionPairs(t, nums, denoms, |nums|) && NoRatioInputs(nums, denoms, |nums|)
    requires Percent(RatioMean(t, Cols(nums), Cols(denoms))).Ok?
    ensures 0 <= Percent(RatioMean(t, Cols(nums), Cols(denoms))).value <= 100
  {
    assert Min(|nums|, |denoms|) == |nums|;
    assert RatioSteps(t, nums, denoms, |nums|).Ok?;
    RatioStepsOfFractions(t, nums, denoms, |nums|);
    var (f, names) := RatioSteps(t, nums, denoms, |nums|).value;
    forall c, i | c in names && 0 <= i < f.rows && f.columns[c][i].Num?
      ensures 0.0 <= f.columns[c][i].value <= 1.0
    {
      assert UnitColumn(f.columns[c]);
    }
    RowMeansRange(f, names, f.rows, 0.0, 1.0);
    var ms := RowMeans(f, names, f.rows);
    MeanBounds(ms, 0.0, 1.0);
    TruncBounds(Mean(ms) * 100.0, 0, 100);
  }
}
