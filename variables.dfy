/** The record each processor returns for one variable. */
module Variables {
  import opened Wrappers
  import opened Text

  /** A reported value: a number, a text such as "N/A", a per-category share map, or pandas' NaN. */
  datatype Value = Number(x: real) | Literal(text: string) | Shares(shares: map<string, real>) | Undefined

  /** A reported change: one text such as "12%" or "N/A", or one text per category. */
  datatype Change = ChangeText(text: string) | ChangeMap(changes: map<string, string>)

  /** One per-category line of a categorical or multi-option interpretation. */
  datatype Line = Line(key: string, initial: real, final: real, change: string)

  /**
   * Which figures the human-readable interpretation reports (its wording is not modelled):
   * one constructor per sentence template of the processors.
   */
  datatype Interpretation =
    | FinalAverage(description: string, average: real)
    | AverageChange(description: string, from: real, to: real, months: Option<nat>, change: string)
    | FinalShare(description: string, share: real)
    | ShareChange(description: string, from: real, to: real, change: string)
    | CategoryLines(description: string, lines: seq<Line>)
    | OptionLines(description: string, lines: seq<Line>)
    | IndexChange(description: string, calculation: string, from: real, to: real)

  /** `VariableData`: the initial value and the change are optional, the final value is required. */
  datatype VariableData = VariableData(
    variable: string,
    description: string,
    initial: Option<Value>,
    final: Value,
    change: Option<Change>,
    interpretation: Interpretation)

  /**
   * The shape every processor's result has (`Aggregation.Run`): the final value is neither a
   * text nor NaN, and a baseline, when there is one, is not NaN. The record's declaration
   * itself would admit a NaN float; the processors never return one, because each of their
   * NaN paths raises first in `int()`.
   */
  predicate WellShaped(d: VariableData)
  {
    !d.final.Literal? && (d.initial.Some? ==> !d.initial.value.Undefined?) && !d.final.Undefined?
  }

  /** `pd.isna(initial) and pd.isna(final)`: both values are missing or NaN (a map or a text never is). */
  predicate BothUndefined(d: VariableData)
  {
    (d.initial.None? || d.initial == Some(Undefined)) && d.final.Undefined?
  }

  /** A record of that shape never reads as NaN on both sides. */
  lemma WellShapedIsDefined(d: VariableData)
    requires WellShaped(d)
    ensures !BothUndefined(d)
  {
  }

  /** The name reported for a two-sided variable: the final column with every 'c' removed. */
  function ReportedName(finalColumn: string): (r: string)
    ensures r == Without(finalColumn, 'c')
  {
    ReplaceCharByNothing(finalColumn, 'c');
    ReplaceAll(finalColumn, "c", "")
  }

  lemma ReportedNameFacts(finalColumn: string)
    ensures 'c' !in ReportedName(finalColumn)
    ensures |ReportedName(finalColumn)| <= |finalColumn|
    ensures 'c' !in finalColumn ==> ReportedName(finalColumn) == finalColumn
  {
    WithoutFacts(finalColumn, 'c');
  }

  /** The lines an interpretation lists: the keys, in order, with a positive share on either side. */
  function ReportedLines(keys: seq<string>, initial: map<string, real>, final: map<string, real>,
                         change: map<string, string>): (lines: seq<Line>)
    requires forall k :: k in keys ==> k in initial && k in final && k in change
    ensures |lines| <= |keys|
  {
    if |keys| == 0 then []
    else
      var k := keys[|keys| - 1];
      var rest := ReportedLines(keys[..|keys| - 1], initial, final, change);
      if initial[k] > 0.0 || final[k] > 0.0 then rest + [Line(k, initial[k], final[k], change[k])] else rest
  }

  /** A key gets a line exactly when one of its shares is positive, and each line carries that key's figures. */
  lemma {:induction false} ReportedLinesMembers(keys: seq<string>, initial: map<string, real>,
                                                final: map<string, real>, change: map<string, string>)
    requires forall k :: k in keys ==> k in initial && k in final && k in change
    ensures forall l :: l in ReportedLines(keys, initial, final, change) ==>
      l.key in keys && l.initial == initial[l.key] && l.final == final[l.key]
      && l.change == change[l.key] && (l.initial > 0.0 || l.final > 0.0)
    ensures forall k :: k in keys && (initial[k] > 0.0 || final[k] > 0.0) ==>
      Line(k, initial[k], final[k], change[k]) in ReportedLines(keys, initial, final, change)
  {
    if |keys| > 0 {
      var pre := keys[..|keys| - 1];
      assert forall k :: k in pre ==> k in keys;
      ReportedLinesMembers(pre, initial, final, change);
      assert keys == pre + [keys[|keys| - 1]];
    }
  }

  /** No text occurs twice. */
  predicate Distinct(keys: seq<string>)
  {
    forall i, j :: 0 <= i < j < |keys| ==> keys[i] != keys[j]
  }

  /** No two lines are about the same key. */
  predicate DistinctKeys(lines: seq<Line>)
  {
    forall i, j :: 0 <= i < j < |lines| ==> lines[i].key != lines[j].key
  }

  /** Keys listed once each get one line at most: the lines' keys are then distinct. */
  lemma {:induction false} ReportedLinesDistinct(keys: seq<string>, initial: map<string, real>,
                                                 final: map<string, real>, change: map<string, string>)
    requires forall k :: k in keys ==> k in initial && k in final && k in change
    requires Distinct(keys)
    ensures DistinctKeys(ReportedLines(keys, initial, final, change))
  {
    if |keys| > 0 {
      var pre := keys[..|keys| - 1];
      var k := keys[|keys| - 1];
      assert forall x :: x in pre ==> x in keys;
      ReportedLinesDistinct(pre, initial, final, change);
      ReportedLinesMembers(pre, initial, final, change);
      var rest := ReportedLines(pre, initial, final, change);
      assert forall i :: 0 <= i < |rest| ==> rest[i].key in pre by {
        forall i | 0 <= i < |rest| ensures rest[i].key in pre {
          assert rest[i] in rest;
        }
      }
      assert k !in pre;
      if initial[k] > 0.0 || final[k] > 0.0 {
        var lines := rest + [Line(k, initial[k], final[k], change[k])];
        assert forall i :: 0 <= i < |rest| ==> lines[i] == rest[i];
        assert lines[|rest|].key == k;
      }
    }
  }

  /** The loop that builds the interpretation lines, one key at a time. */
  method CollectLines(keys: seq<string>, initial: map<string, real>, final: map<string, real>,
                      change: map<string, string>) returns (lines: seq<Line>)
    requires forall k :: k in keys ==> k in initial && k in final && k in change
    ensures lines == ReportedLines(keys, initial, final, change)
  {
    lines := [];
    var i := 0;
    while i < |keys|
      invariant 0 <= i <= |keys|
      invariant lines == ReportedLines(keys[..i], initial, final, change)
    {
      var k := keys[i];
      assert keys[..i + 1][..i] == keys[..i];
      if initial[k] > 0.0 || final[k] > 0.0 {
        lines := lines + [Line(k, initial[k], final[k], change[k])];
      }
      i := i + 1;
    }
    assert keys[..|keys|] == keys;
  }
}
