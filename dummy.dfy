/** The dummy processor: the share of rows with any answer at all. */
module Dummy {
  import opened Wrappers
  import opened Numbers
  import opened Frame
  import opened Declarations
  import opened Variables
  import opened Calculations

  /** A cell counts as an answer unless it is missing, "" or "." (those two become NaN first). */
  function Answered(c: Cell): bool
  {
    match c
    case Missing => false
    case Str(s) => s != "" && s != "."
    case Num(_, _) => true
  }

  /**
   * `calculate_dummy_percentage`: answered rows over all rows, times 100, rounded to two
   * decimals; an empty column gives NaN (None here).
   */
  function DummyShare(cells: seq<Cell>): (r: Option<real>)
    ensures r.None? <==> |cells| == 0
    ensures r.Some? ==> 0.0 <= r.value <= 100.0
  {
    if |cells| == 0 then None
    else
      var n := CountWhere(cells, Answered) as real;
      FractionBounds(n, |cells| as real);
      Round2Percentage(n / |cells| as real * 100.0);
      Some(Round2(n / |cells| as real * 100.0))
  }

  /** The share is within half a hundredth of the exact percentage of answered rows. */
  lemma DummyShareIsRoundedShare(cells: seq<Cell>)
    requires |cells| > 0
    ensures var exact := CountWhere(cells, Answered) as real / |cells| as real * 100.0;
      -0.005 <= DummyShare(cells).value - exact <= 0.005
  {
  }

  /** Every row answered gives 100, no row answered gives 0. */
  lemma DummyShareExtremes(cells: seq<Cell>)
    requires |cells| > 0
    ensures (forall i :: 0 <= i < |cells| ==> Answered(cells[i])) ==> DummyShare(cells) == Some(100.0)
    ensures (forall i :: 0 <= i < |cells| ==> !Answered(cells[i])) ==> DummyShare(cells) == Some(0.0)
  {
    if forall i :: 0 <= i < |cells| ==> Answered(cells[i]) {
      CountAll(cells, Answered);
      var n := |cells| as real;
      assert n / n * 100.0 == 100.0;
      Round2Whole(100);
    }
    if forall i :: 0 <= i < |cells| ==> !Answered(cells[i]) {
      CountNone(cells, Answered);
      Round2Whole(0);
    }
  }

  /**
   * `DummyProcessor.process`: both columns are required, and there is no final-only form.
   * An empty table gives NaN shares, and the percentage change then raises on `int(NaN)`.
   */
  function Process(t: Frame, pair: Pair, meta: Metadata): (r: Result<VariableData>)
    ensures Contains(t, pair.initial) != Ok(true) || Contains(t, pair.final) != Ok(true) ==> r.Err?
    ensures t.rows == 0 ==> r.Err?
    ensures Contains(t, pair.initial) == Ok(true) && Contains(t, pair.final) == Ok(true) && t.rows > 0 ==> r.Ok?
    ensures r.Ok? ==> WellShaped(r.value) && r.value.description == meta.description
    ensures r.Ok? ==>
      r.value.variable == ReportedName(pair.final.name)
      && r.value.initial == Some(Number(DummyShare(t.columns[pair.initial.name]).value))
      && r.value.final == Number(DummyShare(t.columns[pair.final.name]).value)
      && 0.0 <= r.value.initial.value.x <= 100.0 && 0.0 <= r.value.final.x <= 100.0
      && r.value.change == Some(ChangeText(PercentageChange(r.value.initial.value.x, r.value.final.x)))
  {
    var hasInitial :- Contains(t, pair.initial);
    if !hasInitial then Err(ColumnNotFound)
    else
      var hasFinal :- Contains(t, pair.final);
      if !hasFinal then Err(ColumnNotFound)
      else if t.rows == 0 then Err(NotANumber)
      else
        var iv := DummyShare(t.columns[pair.initial.name]).value;
        var fv := DummyShare(t.columns[pair.final.name]).value;
        var pct := PercentageChange(iv, fv);
        Ok(VariableData(ReportedName(pair.final.name), meta.description, Some(Number(iv)), Number(fv),
                        Some(ChangeText(pct)), ShareChange(meta.description, iv, fv, pct)))
  }
}
