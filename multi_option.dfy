/**
 * The array processor: multi-select answers stored as ";"-separated texts, reported as the
 * share of rows that selected each option.
 */
module MultiOption {
  import opened Wrappers
  import opened Text
  import opened Order
  import opened Numbers
  import opened Frame
  import opened Declarations
  import opened Variables
  import opened Calculations

  /** `str(x).split(";")` of a cell `dropna()` keeps; a missing cell selects nothing. */
  function Tokens(c: Cell): seq<string>
  {
    match c
    case Missing => []
    case Num(_, text) => Split(text, ";")
    case Str(s) => Split(s, ";")
  }

  /** The selections `f` reads from each cell, row after row. */
  function Flatten(cells: seq<Cell>, f: Cell -> seq<string>): (r: seq<string>)
    ensures |cells| == 0 ==> r == []
  {
    if |cells| == 0 then [] else Flatten(cells[..|cells| - 1], f) + f(cells[|cells| - 1])
  }

  lemma {:induction false} FlattenConcat(a: seq<Cell>, b: seq<Cell>, f: Cell -> seq<string>)
    ensures Flatten(a + b, f) == Flatten(a, f) + Flatten(b, f)
    decreases |b|
  {
    if |b| == 0 {
      assert a + b == a;
    } else {
      FlattenConcat(a, b[..|b| - 1], f);
      assert (a + b)[..|a + b| - 1] == a + b[..|b| - 1];
    }
  }

  /** Every row's selections are among the column's selections. */
  lemma FlattenHasRow(cells: seq<Cell>, i: nat, f: Cell -> seq<string>)
    requires i < |cells|
    ensures forall tok :: tok in f(cells[i]) ==> tok in Flatten(cells, f)
  {
    assert cells == cells[..i] + [cells[i]] + cells[i + 1..];
    FlattenConcat(cells[..i] + [cells[i]], cells[i + 1..], f);
    FlattenConcat(cells[..i], [cells[i]], f);
    assert [cells[i]][..0] == [];
  }

  /** Every selection of a column, row after row. */
  function AllTokens(cells: seq<Cell>): (r: seq<string>)
    ensures |cells| == 0 ==> r == []
  {
    Flatten(cells, Tokens)
  }

  lemma AllTokensConcat(a: seq<Cell>, b: seq<Cell>)
    ensures AllTokens(a + b) == AllTokens(a) + AllTokens(b)
  {
    FlattenConcat(a, b, Tokens);
  }

  /** `get_all_options`: the distinct selections, sorted. */
  function AllOptions(cells: seq<Cell>): (opts: seq<string>)
    ensures StrictlySorted(opts)
    ensures forall o :: o in opts <==> o in AllTokens(cells)
    ensures |cells| == 0 ==> opts == []
  {
    HeadIsElement(SortUnique(AllTokens(cells)));
    SortUnique(AllTokens(cells))
  }

  /** How often `o` occurs in a list of selections. */
  function CountOf(s: seq<string>, o: string): nat
  {
    if |s| == 0 then 0 else CountOf(s[..|s| - 1], o) + (if s[|s| - 1] == o then 1 else 0)
  }

  /** How often `o` was selected in a column: each selection counts, a repeated one too. */
  function Occurrences(cells: seq<Cell>, o: string): nat
  {
    if |cells| == 0 then 0 else Occurrences(cells[..|cells| - 1], o) + CountOf(Tokens(cells[|cells| - 1]), o)
  }

  lemma {:induction false} CountOfConcat(a: seq<string>, b: seq<string>, o: string)
    ensures CountOf(a + b, o) == CountOf(a, o) + CountOf(b, o)
    decreases |b|
  {
    if |b| == 0 {
      assert a + b == a;
    } else {
      CountOfConcat(a, b[..|b| - 1], o);
      assert (a + b)[..|a + b| - 1] == a + b[..|b| - 1];
    }
  }

  lemma {:induction false} CountOfAbsent(s: seq<string>, o: string)
    requires o !in s
    ensures CountOf(s, o) == 0
  {
    if |s| > 0 {
      assert forall y :: y in s[..|s| - 1] ==> y in s;
      CountOfAbsent(s[..|s| - 1], o);
    }
  }

  /** An option is counted as often as it appears among the column's selections. */
  lemma {:induction false} OccurrencesAreTokenCount(cells: seq<Cell>, o: string)
    ensures Occurrences(cells, o) == CountOf(Flatten(cells, Tokens), o)
  {
    if |cells| > 0 {
      OccurrencesAreTokenCount(cells[..|cells| - 1], o);
      CountOfConcat(Flatten(cells[..|cells| - 1], Tokens), Tokens(cells[|cells| - 1]), o);
    }
  }

  /** The share of rows selecting `o`, rounded to two decimals. */
  function OptionShare(cells: seq<Cell>, o: string): real
    requires |cells| > 0
  {
    Round2(Occurrences(cells, o) as real / |cells| as real * 100.0)
  }

  /**
   * `calculate_percentages`: the share of every option over all rows of the column, missing
   * ones included. The source divides by the row count and looks every selection up among
   * the options, so the column must have rows once there is an option, and its selections
   * must be options.
   */
  function Percentages(cells: seq<Cell>, opts: seq<string>): (m: map<string, real>)
    requires |cells| > 0 || opts == []
    requires forall tok :: tok in AllTokens(cells) ==> tok in opts
    ensures m.Keys == set o | o in opts
    ensures forall o :: o in m ==> m[o] == OptionShare(cells, o)
  {
    map o | o in opts :: OptionShare(cells, o)
  }

  /** `{opt: 0 for opt in all_options}`, for a final column the table lacks. */
  function Zeros(opts: seq<string>): (m: map<string, real>)
    ensures m.Keys == set o | o in opts
    ensures forall o :: o in m ==> m[o] == 0.0
  {
    map o | o in opts :: 0.0
  }

  function OptionChanges(initial: map<string, real>, final: map<string, real>, opts: seq<string>): (m: map<string, string>)
    requires forall o :: o in opts ==> o in initial && o in final
    ensures m.Keys == set o | o in opts
    ensures forall o :: o in m ==> m[o] == PercentageChange(initial[o], final[o])
  {
    map o | o in opts :: PercentageChange(initial[o], final[o])
  }

  /** The option universe: both columns when the final one exists, else the initial one alone. */
  function Universe(ic: seq<Cell>, fc: Option<seq<Cell>>): (opts: seq<string>)
    ensures StrictlySorted(opts)
    ensures forall o :: o in opts <==> o in AllTokens(ic) || (fc.Some? && o in AllTokens(fc.value))
  {
    if fc.Some? then
      AllTokensConcat(ic, fc.value);
      AllOptions(ic + fc.value)
    else AllOptions(ic)
  }

  /** The record of a multi-option variable whose initial column was found. */
  function Tally(description: string, finalName: string, ic: seq<Cell>, fc: Option<seq<Cell>>): (d: VariableData)
    requires fc.Some? ==> |fc.value| == |ic|
    ensures WellShaped(d) && d.description == description && d.variable == ReportedName(finalName)
    ensures d.initial.Some? && d.initial.value.Shares? && d.final.Shares?
    ensures var opts := Universe(ic, fc);
      d.initial.value.shares.Keys == (set o | o in opts) && d.final.shares.Keys == (set o | o in opts)
      && (forall o :: o in opts ==> |ic| > 0 && d.initial.value.shares[o] == OptionShare(ic, o))
      && (forall o :: o in opts ==> d.final.shares[o] == (if fc.Some? then OptionShare(fc.value, o) else 0.0))
      && d.change.Some? && d.change.value.ChangeMap? && d.change.value.changes.Keys == (set o | o in opts)
      && (forall o :: o in opts ==>
            d.change.value.changes[o] == PercentageChange(d.initial.value.shares[o], d.final.shares[o]))
      && d.interpretation.OptionLines?
      && d.interpretation.lines == ReportedLines(opts, d.initial.value.shares, d.final.shares, d.change.value.changes)
  {
    var opts := Universe(ic, fc);
    HeadIsElement(opts);
    var iv := Percentages(ic, opts);
    var fv := if fc.Some? then Percentages(fc.value, opts) else Zeros(opts);
    var ch := OptionChanges(iv, fv, opts);
    VariableData(ReportedName(finalName), description, Some(Value.Shares(iv)), Value.Shares(fv),
                 Some(ChangeMap(ch)), OptionLines(description, ReportedLines(opts, iv, fv, ch)))
  }

  /**
   * `ArrayProcessor.process`: the final reference must be a text (it is `replace`d for the
   * variable name) but its column may be absent; the initial column must exist.
   */
  function Process(t: Frame, pair: Pair, meta: Metadata): (r: Result<VariableData>)
    ensures !pair.final.Col? ==> r.Err?
    ensures !(pair.initial.Col? && pair.initial.name in t.columns) ==> r.Err?
    ensures (pair.final.Col? && pair.initial.Col? && pair.initial.name in t.columns) ==> r.Ok?
    ensures r.Ok? ==> r.value == Tally(meta.description, pair.final.name, t.columns[pair.initial.name],
      if pair.final.name in t.columns then Some(t.columns[pair.final.name]) else None)
  {
    var hasFinal :- Contains(t, pair.final);
    if !(pair.initial.Col? && pair.initial.name in t.columns) then Err(ColumnNotFound)
    else if !pair.final.Col? then Err(TypeMismatch)
    else
      Ok(Tally(meta.description, pair.final.name, t.columns[pair.initial.name],
               if hasFinal then Some(t.columns[pair.final.name]) else None))
  }

  /** When no row selects an option twice, every share is at most 100. */
  lemma {:induction false} NoRepeatsAtMostAll(cells: seq<Cell>, o: string)
    requires forall i :: 0 <= i < |cells| ==> CountOf(Tokens(cells[i]), o) <= 1
    ensures Occurrences(cells, o) <= |cells|
  {
    if |cells| > 0 {
      NoRepeatsAtMostAll(cells[..|cells| - 1], o);
    }
  }

  lemma NoRepeatsShareBounded(cells: seq<Cell>, o: string)
    requires |cells| > 0
    requires forall i :: 0 <= i < |cells| ==> CountOf(Tokens(cells[i]), o) <= 1
    ensures 0.0 <= OptionShare(cells, o) <= 100.0
  {
    NoRepeatsAtMostAll(cells, o);
    FractionBounds(Occurrences(cells, o) as real, |cells| as real);
    Round2Percentage(Occurrences(cells, o) as real / |cells| as real * 100.0);
  }

  /** A single row answering "a;a" counts the option twice: its share is 200. */
  lemma RepeatedSelectionExceedsAll()
    ensures OptionShare([Str("a;a")], "a") == 200.0
  {
    var cells := [Str("a;a")];
    assert "a;a"[1..] == ";a" && ";a"[1..] == "a" && "a"[1..] == "";
    assert Split("", ";") == [""];
    assert "a"[..1] == "a" && "a"[0] == 'a' && ";"[0] == ';';
    assert "a"[..1] != ";";
    assert Split("a", ";") == [['a'] + Split("", ";")[0]] + Split("", ";")[1..];
    assert ['a'] + "" == "a";
    assert [""][1..] == [];
    assert Split("a", ";") == ["a"];
    assert Split(";a", ";") == ["", "a"];
    assert Split("a;a", ";") == ["a", "a"];
    assert CountOf(["a", "a"], "a") == 2 by {
      assert ["a", "a"][..1] == ["a"];
      assert ["a"][..0] == [];
    }
    assert cells[..0] == [];
    assert Occurrences(cells, "a") == 2;
    Round2Whole(200);
  }

  /** `get_all_options` as written: a set filled row by row, then sorted. */
  method GetAllOptions(cells: seq<Cell>) returns (opts: seq<string>)
    ensures opts == AllOptions(cells)
  {
    var options: set<string> := {};
    var i := 0;
    while i < |cells|
      invariant 0 <= i <= |cells|
      invariant forall o :: o in options <==> o in AllTokens(cells[..i])
    {
      assert cells[..i + 1][..i] == cells[..i];
      options := options + set tok | tok in Tokens(cells[i]);
      i := i + 1;
    }
    assert cells[..|cells|] == cells;
    opts := SortedElements(options);
    StrictlySortedUnique(opts, AllOptions(cells));
  }

  /** `sorted(list(options))`. */
  method SortedElements(options: set<string>) returns (r: seq<string>)
    ensures StrictlySorted(r)
    ensures forall y :: y in r <==> y in options
  {
    r := [];
    var rest := options;
    while rest != {}
      invariant rest <= options
      invariant StrictlySorted(r)
      invariant forall y :: y in r <==> y in options && y !in rest
      decreases |rest|
    {
      var x :| x in rest;
      r := InsertUnique(x, r);
      rest := rest - {x};
    }
  }

  /** The inner loop of `calculate_percentages`: one tally per selection of a row. */
  method CountSelections(counts: map<string, nat>, selected: seq<string>) returns (r: map<string, nat>)
    requires forall tok :: tok in selected ==> tok in counts
    ensures r.Keys == counts.Keys
    ensures forall o :: o in r ==> r[o] == counts[o] + CountOf(selected, o)
  {
    r := counts;
    var j := 0;
    while j < |selected|
      invariant 0 <= j <= |selected|
      invariant r.Keys == counts.Keys
      invariant forall o :: o in r ==> r[o] == counts[o] + CountOf(selected[..j], o)
    {
      assert selected[..j + 1][..j] == selected[..j];
      r := r[selected[j] := r[selected[j]] + 1];
      j := j + 1;
    }
    assert selected[..|selected|] == selected;
  }

  /** `calculate_percentages` as written: count every selection, then divide by the row count. */
  method CalculatePercentages(cells: seq<Cell>, opts: seq<string>) returns (m: map<string, real>)
    requires |cells| > 0 || opts == []
    requires forall tok :: tok in AllTokens(cells) ==> tok in opts
    ensures m == Percentages(cells, opts)
  {
    var counts: map<string, nat> := map o | o in opts :: 0;
    var i := 0;
    while i < |cells|
      invariant 0 <= i <= |cells|
      invariant counts.Keys == set o | o in opts
      invariant forall o :: o in counts ==> counts[o] == Occurrences(cells[..i], o)
    {
      FlattenHasRow(cells, i, Tokens);
      OccurrencesStep(cells, i);
      counts := CountSelections(counts, Tokens(cells[i]));
      i := i + 1;
    }
    assert cells[..|cells|] == cells;
    HeadIsElement(opts);
    m := map o | o in counts :: Round2(counts[o] as real / |cells| as real * 100.0);
    SharesOfCounts(cells, opts, counts, m);
  }

  /** Dividing the full tallies by the row count gives the shares. */
  lemma SharesOfCounts(cells: seq<Cell>, opts: seq<string>, counts: map<string, nat>, m: map<string, real>)
    requires |cells| > 0 || opts == []
    requires forall tok :: tok in AllTokens(cells) ==> tok in opts
    requires counts.Keys == set o | o in opts
    requires forall o :: o in counts ==> counts[o] == Occurrences(cells, o)
    requires m.Keys == counts.Keys
    requires forall o :: o in m ==> |cells| > 0 && m[o] == Round2(counts[o] as real / |cells| as real * 100.0)
    ensures m == Percentages(cells, opts)
  {
    var p := Percentages(cells, opts);
    assert m.Keys == p.Keys;
    forall o | o in m
      ensures m[o] == p[o]
    {
    }
  }

  lemma OccurrencesStep(cells: seq<Cell>, i: nat)
    requires i < |cells|
    ensures forall o :: Occurrences(cells[..i + 1], o) == Occurrences(cells[..i], o) + CountOf(Tokens(cells[i]), o)
  {
    assert cells[..i + 1][..i] == cells[..i];
  }
}
