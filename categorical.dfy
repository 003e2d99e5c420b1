/** The categorical processor: the share of each mapped category among the answered rows. */
module Categorical {
  import opened Wrappers
  import opened Numbers
  import opened Frame
  import opened Declarations
  import opened Variables
  import opened Calculations

  /** Rows holding exactly the category's text. */
  function CategoryCount(cells: seq<Cell>, category: string): nat
  {
    CountWhere(cells, c => c == Str(category))
  }

  /** Rows that `value_counts` sees: every cell but the missing ones. */
  function Answered(cells: seq<Cell>): nat
  {
    CountWhere(cells, (c: Cell) => !c.Missing?)
  }

  /**
   * `round(value_counts(normalize=True).get(cat, 0) * 100, 2)`: the category's rows over the
   * answered rows as a percentage, and 0 for a category no row holds.
   */
  function CategoryShare(cells: seq<Cell>, category: string): (r: real)
    ensures 0.0 <= r <= 100.0
    ensures CategoryCount(cells, category) == 0 ==> r == 0.0
    ensures r > 0.0 ==> CategoryCount(cells, category) > 0
  {
    if CategoryCount(cells, category) == 0 then 0.0
    else
      CategoryWithinAnswered(cells, category);
      var part := CategoryCount(cells, category) as real;
      var whole := Answered(cells) as real;
      FractionBounds(part, whole);
      Round2Percentage(part / whole * 100.0);
      Round2(part / whole * 100.0)
  }

  /** A row of a category is an answered row. */
  lemma {:induction false} CategoryWithinAnswered(cells: seq<Cell>, category: string)
    ensures CategoryCount(cells, category) <= Answered(cells)
  {
    if |cells| > 0 {
      CategoryWithinAnswered(cells[..|cells| - 1], category);
    }
  }

  /** The share is within half a hundredth of the exact percentage of answered rows. */
  lemma CategoryShareIsRounded(cells: seq<Cell>, category: string)
    requires CategoryCount(cells, category) > 0
    ensures Answered(cells) > 0
    ensures var exact := CategoryCount(cells, category) as real / Answered(cells) as real * 100.0;
      -0.005 <= CategoryShare(cells, category) - exact <= 0.005
  {
    CategoryWithinAnswered(cells, category);
  }

  /** One share per listed category; duplicates in the mapping collapse into one key. */
  function Shares(cells: seq<Cell>, categories: seq<string>): (m: map<string, real>)
    ensures m.Keys == set k | k in categories
    ensures forall k :: k in m ==> m[k] == CategoryShare(cells, k)
  {
    map k | k in categories :: CategoryShare(cells, k)
  }

  /** The change text of each category. */
  function Changes(initial: map<string, real>, final: map<string, real>, categories: seq<string>): (m: map<string, string>)
    requires forall k :: k in categories ==> k in initial && k in final
    ensures m.Keys == set k | k in categories
    ensures forall k :: k in m ==> m[k] == PercentageChange(initial[k], final[k])
  {
    map k | k in categories :: PercentageChange(initial[k], final[k])
  }

  /** The record of a categorical variable whose columns and mapping were found. */
  function Tally(description: string, finalName: string, ic: seq<Cell>, fc: seq<Cell>, cats: seq<string>): (d: VariableData)
    ensures WellShaped(d) && d.description == description && d.variable == ReportedName(finalName)
    ensures d.initial.Some? && d.initial.value.Shares? && d.final.Shares?
    ensures d.initial.value.shares.Keys == (set k | k in cats) && d.final.shares.Keys == (set k | k in cats)
    ensures forall k :: k in cats ==>
      d.initial.value.shares[k] == CategoryShare(ic, k) && d.final.shares[k] == CategoryShare(fc, k)
    ensures d.change.Some? && d.change.value.ChangeMap? && d.change.value.changes.Keys == (set k | k in cats)
    ensures forall k :: k in cats ==>
      d.change.value.changes[k] == PercentageChange(CategoryShare(ic, k), CategoryShare(fc, k))
    ensures d.interpretation.CategoryLines?
    ensures d.interpretation.lines == ReportedLines(cats, d.initial.value.shares, d.final.shares, d.change.value.changes)
  {
    var iv := Shares(ic, cats);
    var fv := Shares(fc, cats);
    var ch := Changes(iv, fv, cats);
    VariableData(ReportedName(finalName), description, Some(Value.Shares(iv)), Value.Shares(fv),
                 Some(ChangeMap(ch)), CategoryLines(description, ReportedLines(cats, iv, fv, ch)))
  }

  /** `CategoricalProcessor.process`: both columns and a non-empty mapping are required. */
  function Process(t: Frame, pair: Pair, meta: Metadata): (r: Result<VariableData>)
    ensures Contains(t, pair.initial) != Ok(true) || Contains(t, pair.final) != Ok(true) ==> r.Err?
    ensures meta.mapping.None? || meta.mapping == Some([]) ==> r.Err?
    ensures (Contains(t, pair.initial) == Ok(true) && Contains(t, pair.final) == Ok(true)
             && meta.mapping.Some? && meta.mapping.value != []) ==> r.Ok?
    ensures r.Ok? ==> r.value == Tally(meta.description, pair.final.name, t.columns[pair.initial.name],
                                       t.columns[pair.final.name], meta.mapping.value)
  {
    var hasInitial :- Contains(t, pair.initial);
    if !hasInitial then Err(ColumnNotFound)
    else
      var hasFinal :- Contains(t, pair.final);
      if !hasFinal then Err(ColumnNotFound)
      else if meta.mapping.None? || meta.mapping.value == [] then Err(MissingMapping)
      else Ok(Tally(meta.description, pair.final.name, t.columns[pair.initial.name],
                    t.columns[pair.final.name], meta.mapping.value))
  }

  /** A category no row of either column holds reports 0 on both sides and no change. */
  lemma UnseenCategory(t: Frame, pair: Pair, meta: Metadata, k: string)
    requires Process(t, pair, meta).Ok?
    requires k in meta.mapping.value
    requires CategoryCount(t.columns[pair.initial.name], k) == 0
    requires CategoryCount(t.columns[pair.final.name], k) == 0
    ensures var d := Process(t, pair, meta).value;
      d.initial.value.shares[k] == 0.0 && d.final.shares[k] == 0.0 && d.change.value.changes[k] == "0%"
      && forall l :: l in d.interpretation.lines ==> l.key != k
  {
    var d := Process(t, pair, meta).value;
    ReportedLinesMembers(meta.mapping.value, d.initial.value.shares, d.final.shares, d.change.value.changes);
  }

  /** Rows holding one of the listed categories, category by category. */
  function TotalCount(cells: seq<Cell>, cats: seq<string>): nat
  {
    if |cats| == 0 then 0 else TotalCount(cells, cats[..|cats| - 1]) + CategoryCount(cells, cats[|cats| - 1])
  }

  /** For distinct categories, the per-category counts add up to the rows holding any of them. */
  lemma {:induction false} TotalCountIsRowsInAny(cells: seq<Cell>, cats: seq<string>)
    requires Distinct(cats)
    ensures TotalCount(cells, cats) == CountWhere(cells, (c: Cell) => c.Str? && c.s in cats)
  {
    if |cats| == 0 {
      CountNone(cells, (c: Cell) => c.Str? && c.s in cats);
    } else {
      var pre := cats[..|cats| - 1];
      var k := cats[|cats| - 1];
      assert Distinct(pre);
      TotalCountIsRowsInAny(cells, pre);
      assert cats == pre + [k];
      assert k !in pre;
      CountWhereSplit(cells, (c: Cell) => c.Str? && c.s in pre, (c: Cell) => c == Str(k),
                      (c: Cell) => c.Str? && c.s in cats);
    }
  }

  /**
   * The shares of distinct categories never claim more rows than were answered, so their
   * exact percentages add up to at most 100.
   */
  lemma DistinctCategoriesWithinAnswered(cells: seq<Cell>, cats: seq<string>)
    requires Distinct(cats)
    ensures TotalCount(cells, cats) <= Answered(cells)
  {
    TotalCountIsRowsInAny(cells, cats);
    CountWhereMonotone(cells, (c: Cell) => c.Str? && c.s in cats, (c: Cell) => !c.Missing?);
  }
}
