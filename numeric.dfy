/** The numeric processor: averages of a baseline and a closing column. */
module Numeric {
  import opened Wrappers
  import opened Numbers
  import opened Frame
  import opened Declarations
  import opened Variables
  import opened Calculations

  /** `NumericProcessor.process`. */
  function Process(t: Frame, pair: Pair, meta: Metadata): (r: Result<VariableData>)
    ensures Contains(t, pair.final) != Ok(true) ==> r.Err?
    ensures pair.initial.Cols? && Present(t, pair.initial.names) == [] ==> r.Err?
    ensures pair.initial.Col? && pair.initial.name !in t.columns ==> r.Err?
    ensures r.Ok? <==>
      pair.final.Col? && pair.final.name in t.columns && IntOfMean(SeriesMean(t.columns[pair.final.name])).Ok?
      && (pair.initial.NoRef? || (Baseline(t, pair.initial).Ok? && IntOfMean(Baseline(t, pair.initial).value.0).Ok?))
    ensures r.Ok? ==> WellShaped(r.value) && r.value.description == meta.description
    ensures r.Ok? ==> r.value.final.Number? && IsWhole(r.value.final.x)
    ensures r.Ok? ==>
      pair.final.Col? && pair.final.name in t.columns
      && IntOfMean(SeriesMean(t.columns[pair.final.name])).Ok?
      && r.value.final == Number(IntOfMean(SeriesMean(t.columns[pair.final.name])).value as real)
    ensures r.Ok? && !pair.initial.NoRef? ==>
      Baseline(t, pair.initial).Ok? && IntOfMean(Baseline(t, pair.initial).value.0).Ok?
      && r.value.initial == Some(Number(IntOfMean(Baseline(t, pair.initial).value.0).value as real))
    ensures r.Ok? && pair.initial.NoRef? ==>
      r.value.initial == Some(Number(0.0)) && r.value.change == Some(ChangeText("N/A"))
      && r.value.variable == pair.final.name
    ensures r.Ok? && !pair.initial.NoRef? ==>
      r.value.variable == ReportedName(pair.final.name)
      && r.value.initial.Some? && r.value.initial.value.Number? && IsWhole(r.value.initial.value.x)
      && r.value.change == Some(ChangeText(PercentageChange(r.value.initial.value.x, r.value.final.x)))
  {
    var hasFinal :- Contains(t, pair.final);
    if !hasFinal then Err(ColumnNotFound)
    else if pair.initial.NoRef? then FinalOnly(t, pair.final.name, meta)
    else TwoSided(t, pair.initial, pair.final.name, meta)
  }

  /** The final-only branch: the average of the closing column, with 0 as baseline and no change. */
  function FinalOnly(t: Frame, fc: string, meta: Metadata): (r: Result<VariableData>)
    requires fc in t.columns
    ensures r.Ok? <==> IntOfMean(SeriesMean(t.columns[fc])).Ok?
    ensures r.Ok? ==> r.value.final == Number(IntOfMean(SeriesMean(t.columns[fc])).value as real)
    ensures r.Ok? ==> WellShaped(r.value) && r.value.description == meta.description
    ensures r.Ok? ==> r.value.initial == Some(Number(0.0)) && r.value.change == Some(ChangeText("N/A"))
                      && r.value.variable == fc && r.value.final.Number? && IsWhole(r.value.final.x)
  {
    var fv :- IntOfMean(SeriesMean(t.columns[fc]));
    Ok(VariableData(fc, meta.description, Some(Number(0.0)), Number(fv as real), Some(ChangeText("N/A")),
                    FinalAverage(meta.description, fv as real)))
  }

  /** The two-sided branch: truncated baseline and closing averages and their change. */
  function TwoSided(t: Frame, initial: Ref, fc: string, meta: Metadata): (r: Result<VariableData>)
    requires fc in t.columns && !initial.NoRef?
    ensures r.Ok? <==>
      Baseline(t, initial).Ok? && IntOfMean(Baseline(t, initial).value.0).Ok?
      && IntOfMean(SeriesMean(t.columns[fc])).Ok?
    ensures r.Ok? ==>
      r.value.initial == Some(Number(IntOfMean(Baseline(t, initial).value.0).value as real))
      && r.value.final == Number(IntOfMean(SeriesMean(t.columns[fc])).value as real)
    ensures initial.Cols? && Present(t, initial.names) == [] ==> r.Err?
    ensures initial.Col? && initial.name !in t.columns ==> r.Err?
    ensures r.Ok? ==> WellShaped(r.value) && r.value.description == meta.description
    ensures r.Ok? ==>
      r.value.variable == ReportedName(fc)
      && r.value.initial.Some? && r.value.initial.value.Number? && r.value.final.Number?
      && IsWhole(r.value.initial.value.x) && IsWhole(r.value.final.x)
      && r.value.change == Some(ChangeText(PercentageChange(r.value.initial.value.x, r.value.final.x)))
  {
    var baseline :- Baseline(t, initial);
    var iv :- IntOfMean(baseline.0);
    var fv :- IntOfMean(SeriesMean(t.columns[fc]));
    var pct := PercentageChange(iv as real, fv as real);
    Ok(VariableData(ReportedName(fc), meta.description, Some(Number(iv as real)), Number(fv as real),
                    Some(ChangeText(pct)), AverageChange(meta.description, iv as real, fv as real, baseline.1, pct)))
  }

  /**
   * The baseline mean of a two-sided variable and, for a list of month columns, how many
   * of them were present.
   */
  function Baseline(t: Frame, initial: Ref): (r: Result<(Result<Option<real>>, Option<nat>)>)
    requires !initial.NoRef?
    ensures initial.Cols? ==> (r.Ok? <==> Present(t, initial.names) != [])
    ensures initial.Cols? && r.Ok? ==> r.value.1 == Some(|Present(t, initial.names)|)
    ensures initial.Cols? && r.Ok? ==> r.value.0 == ListMean(t, Present(t, initial.names))
    ensures initial.Col? && r.Ok? ==> initial.name in t.columns && r.value.0 == SeriesMean(t.columns[initial.name])
    ensures !initial.Cols? ==> (r.Ok? <==> initial.Col? && initial.name in t.columns)
  {
    if initial.Cols? then
      var valid := Present(t, initial.names);
      if valid == [] then Err(NoColumnFound) else Ok((ListMean(t, valid), Some(|valid|)))
    else
      var has :- Contains(t, initial);
      if !has then Err(ColumnNotFound) else Ok((SeriesMean(t.columns[initial.name]), None))
  }

  lemma {:induction false} PresentIdempotent(t: Frame, names: seq<string>)
    ensures Present(t, Present(t, names)) == Present(t, names)
  {
    if |names| > 0 {
      var pre := names[..|names| - 1];
      PresentIdempotent(t, pre);
      var p := Present(t, pre);
      if names[|names| - 1] in t.columns {
        var q := p + [names[|names| - 1]];
        assert q[..|q| - 1] == p;
      }
    }
  }

  /** Listed baseline columns that are absent are ignored: only the present ones matter. */
  lemma AbsentListColumnsIgnored(t: Frame, names: seq<string>, final: Ref, meta: Metadata)
    ensures Process(t, Pair(Cols(names), final), meta) == Process(t, Pair(Cols(Present(t, names)), final), meta)
  {
    PresentIdempotent(t, names);
  }

  /** The reported average stays within the range of the column's numbers. */
  lemma FinalWithinColumnRange(t: Frame, pair: Pair, meta: Metadata, lo: int, hi: int)
    requires Process(t, pair, meta).Ok?
    requires pair.final.Col? && pair.final.name in t.columns
    requires forall i :: 0 <= i < t.rows && t.columns[pair.final.name][i].Num? ==>
      lo as real <= t.columns[pair.final.name][i].value <= hi as real
    ensures lo as real <= Process(t, pair, meta).value.final.x <= hi as real
  {
    var col := t.columns[pair.final.name];
    NumbersInRange(col, lo as real, hi as real);
    var xs := NumbersIn(col);
    if |xs| > 0 {
      MeanBounds(xs, lo as real, hi as real);
      TruncBounds(Mean(xs), lo, hi);
    }
  }
}
