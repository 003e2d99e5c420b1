/** The boolean processor: the share of yes answers among recognised yes/no answers. */
module Boolean {
  import opened Wrappers
  import opened Numbers
  import opened Frame
  import opened Declarations
  import opened Variables
  import opened Calculations

  /** The answer map: exactly "Sí"/"SI" are yes and "No"/"NO" are no; every other cell maps to NaN. */
  function Decode(c: Cell): Option<bool>
  {
    match c
    case Str(s) =>
      if s == "Sí" || s == "SI" then Some(true)
      else if s == "No" || s == "NO" then Some(false)
      else None
    case _ => None
  }

  function Recognised(c: Cell): bool { Decode(c).Some? }

  function Yes(c: Cell): bool { Decode(c) == Some(true) }

  /** `int(series.map(...).mean() * 100)`: NaN, when nothing is recognised, raises. */
  function YesShare(cells: seq<Cell>): Result<int>
  {
    var recognised := CountWhere(cells, Recognised);
    if recognised == 0 then Err(NotANumber)
    else Ok(Trunc(CountWhere(cells, Yes) as real / recognised as real * 100.0))
  }

  lemma {:induction false} YesAreRecognised(cells: seq<Cell>)
    ensures CountWhere(cells, Yes) <= CountWhere(cells, Recognised)
  {
    if |cells| > 0 {
      YesAreRecognised(cells[..|cells| - 1]);
    }
  }

  /** A share is a whole percentage between 0 and 100. */
  lemma YesShareRange(cells: seq<Cell>)
    requires YesShare(cells).Ok?
    ensures 0 <= YesShare(cells).value <= 100
  {
    var y, n := CountWhere(cells, Yes) as real, CountWhere(cells, Recognised) as real;
    YesAreRecognised(cells);
    FractionBounds(y, n);
    TruncBounds(y / n * 100.0, 0, 100);
  }

  /** A cell that is not one of the four tokens does not change the share, wherever it stands. */
  lemma UnrecognisedIgnored(a: seq<Cell>, c: Cell, b: seq<Cell>)
    requires !Recognised(c)
    ensures YesShare(a + [c] + b) == YesShare(a + b)
  {
    CountWhereConcat(a + [c], b, Recognised);
    CountWhereConcat(a + [c], b, Yes);
    CountWhereConcat(a, [c], Recognised);
    CountWhereConcat(a, [c], Yes);
    CountWhereConcat(a, b, Recognised);
    CountWhereConcat(a, b, Yes);
    assert [c][..0] == [];
  }

  /** `BooleanProcessor.process`. */
  function Process(t: Frame, pair: Pair, meta: Metadata): (r: Result<VariableData>)
    ensures Contains(t, pair.final) != Ok(true) ==> r.Err?
    ensures !pair.initial.NoRef? && Contains(t, pair.initial) != Ok(true) ==> r.Err?
    ensures r.Ok? <==>
      pair.final.Col? && pair.final.name in t.columns && YesShare(t.columns[pair.final.name]).Ok?
      && (pair.initial.NoRef? ||
          (pair.initial.Col? && pair.initial.name in t.columns && YesShare(t.columns[pair.initial.name]).Ok?))
    ensures r.Ok? ==>
      pair.final.Col? && pair.final.name in t.columns && YesShare(t.columns[pair.final.name]).Ok?
      && r.value.final == Number(YesShare(t.columns[pair.final.name]).value as real)
    ensures r.Ok? && !pair.initial.NoRef? ==>
      pair.initial.Col? && pair.initial.name in t.columns && YesShare(t.columns[pair.initial.name]).Ok?
      && r.value.initial == Some(Number(YesShare(t.columns[pair.initial.name]).value as real))
    ensures r.Ok? ==> WellShaped(r.value) && r.value.description == meta.description
    ensures r.Ok? ==> r.value.final.Number? && 0.0 <= r.value.final.x <= 100.0 && IsWhole(r.value.final.x)
    ensures r.Ok? && pair.initial.NoRef? ==>
      r.value.initial == Some(Literal("N/A")) && r.value.change == Some(ChangeText("N/A"))
      && r.value.variable == pair.final.name
    ensures r.Ok? && !pair.initial.NoRef? ==>
      r.value.variable == ReportedName(pair.final.name)
      && r.value.initial.Some? && r.value.initial.value.Number?
      && 0.0 <= r.value.initial.value.x <= 100.0 && IsWhole(r.value.initial.value.x)
      && r.value.change == Some(ChangeText(PercentageChange(r.value.initial.value.x, r.value.final.x)))
  {
    var hasFinal :- Contains(t, pair.final);
    if !hasFinal then Err(ColumnNotFound)
    else if pair.initial.NoRef? then FinalOnly(t, pair.final.name, meta)
    else
      var hasInitial :- Contains(t, pair.initial);
      if !hasInitial then Err(ColumnNotFound)
      else TwoSided(t, pair.initial.name, pair.final.name, meta)
  }

  function FinalOnly(t: Frame, fc: string, meta: Metadata): (r: Result<VariableData>)
    requires fc in t.columns
    ensures r.Ok? <==> YesShare(t.columns[fc]).Ok?
    ensures r.Ok? ==> r.value.final == Number(YesShare(t.columns[fc]).value as real)
    ensures r.Ok? ==> WellShaped(r.value)
    ensures r.Ok? ==> r.value.initial == Some(Literal("N/A")) && r.value.change == Some(ChangeText("N/A"))
                      && r.value.variable == fc && r.value.description == meta.description
                      && r.value.final.Number? && 0.0 <= r.value.final.x <= 100.0 && IsWhole(r.value.final.x)
  {
    var fv :- YesShare(t.columns[fc]);
    YesShareRange(t.columns[fc]);
    Ok(VariableData(fc, meta.description, Some(Literal("N/A")), Number(fv as real), Some(ChangeText("N/A")),
                    FinalShare(meta.description, fv as real)))
  }

  function TwoSided(t: Frame, ic: string, fc: string, meta: Metadata): (r: Result<VariableData>)
    requires ic in t.columns && fc in t.columns
    ensures r.Ok? <==> YesShare(t.columns[ic]).Ok? && YesShare(t.columns[fc]).Ok?
    ensures r.Ok? ==>
      r.value.initial == Some(Number(YesShare(t.columns[ic]).value as real))
      && r.value.final == Number(YesShare(t.columns[fc]).value as real)
    ensures r.Ok? ==> WellShaped(r.value) && r.value.description == meta.description
    ensures r.Ok? ==>
      r.value.variable == ReportedName(fc)
      && r.value.initial.Some? && r.value.initial.value.Number? && r.value.final.Number?
      && 0.0 <= r.value.initial.value.x <= 100.0 && IsWhole(r.value.initial.value.x)
      && 0.0 <= r.value.final.x <= 100.0 && IsWhole(r.value.final.x)
      && r.value.change == Some(ChangeText(PercentageChange(r.value.initial.value.x, r.value.final.x)))
  {
    var iv :- YesShare(t.columns[ic]);
    var fv :- YesShare(t.columns[fc]);
    YesShareRange(t.columns[ic]);
    YesShareRange(t.columns[fc]);
    var pct := PercentageChange(iv as real, fv as real);
    Ok(VariableData(ReportedName(fc), meta.description, Some(Number(iv as real)), Number(fv as real),
                    Some(ChangeText(pct)), ShareChange(meta.description, iv as real, fv as real, pct)))
  }
}
