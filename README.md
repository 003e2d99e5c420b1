# Variable aggregation engine of the ZASCA report generator

This project is a Dafny model of the part of the ZASCA report generator that turns a table of
survey answers into report sections. The table is a set of named columns over the surveyed
productive units. A configuration declares report sections, and each section declares
variables. For each variable, the configuration lists candidate pairs of baseline ("initial")
and closing ("final") column references and one or more candidate kinds.

`aggregate_data` tries every pair against every kind, in declared order. It keeps the first
processor result that neither raises nor comes out NaN on both sides, and stores it under the
variable's key. It emits one report section per configured section. Around that engine the model
also covers:

- the six kind processors: numeric, boolean, dummy, categorical, multi-option (`array`) and
  indicator;
- the percentage-change rule they share;
- the shapes of the result records;
- column-family discovery for month columns;
- the static configuration;
- the availability screen, which splits the declarations into available and missing ones;
- chart label wrapping and chart selection;
- splitting generated Markdown into headings and bold runs.

Modules, one per concern:

- `Wrappers`: `Option` and `Result`, where an `Err` stands for a Python exception.
- `Text`, `Decimal`, `Numbers`, `Order`: the Python built-ins the code relies on.
  - `Text`: `split`, `join`, `replace`, `strip`, `split()` into words and `rsplit`.
  - `Decimal`: `str` of an integer.
  - `Numbers`: `int()` truncation toward zero, `round(x, 2)` with ties to even, and means.
  - `Order`: `sorted` and `sorted(set(...))` on strings.
- `Frame`: the table. It is a row count plus columns of `Cell`s (missing, a number, or a text),
  with the pandas reductions the processors use: column mean, row-wise mean and counting.
- `Declarations`: column references, meaning one name, a list, `None`, or an indicator's
  `(numerators, denominators)`. It also holds metadata, the `type` entry, and the Python
  membership and unpacking that can raise.
- `Variables`, `Sections`: the `VariableData`, `ReportSection` and `Report` records with their
  field rules, and `validate_report`.
- `Calculations`: `calculate_percentage_change`.
- `Numeric`, `Boolean`, `Dummy`, `Categorical`, `MultiOption`, `Indicator`: one module per
  processor. The loops of the code become methods proved equal to the functions that specify
  them: `get_all_options`, `calculate_percentages`, the interpretation lines and the
  ratio-column loop.
- `Aggregation`: the dispatch table, the ordered first-success search, and `aggregate_data`.
  - The search is a method with a ghost trace of every try.
  - `aggregate_data` is a method of the class `ConfigStore`, because it rewrites each `type`
    entry of the configuration in place into a list.
- `ConfigSections`: `find_matching_vars` and the declaration rules of `get_sections_config`.
- `StaticConfig`: `generate_prevmonth_vars` and the flat triple configuration.
- `DataTabs`: `check_variable_availability` and `process_sections_config`.
- `ChartUtils`, `ChartConfig`: `process_label`, `get_splits` and `get_available_charts`.
- `Document`: `process_paragraph_text` and `process_content_lines`. A document is modelled as a
  class whose event list records the paragraph, run and heading calls.

The table, the calls into pandas, and the author-supplied configuration are parameters. A
processor that raises is an `Err`. pandas' NaN is `Value.Undefined`, or `None` of an `Option`
where a mean or a share is computed.

## Model

| member | source | states |
|---|---|---|
| Calculations.PercentageChange | src/utils/calculations.py:2-6 | the change text is never empty and always ends in `%` |
| Calculations.ZeroBaseline | src/utils/calculations.py:4-5 | a zero baseline gives `"0%"` whatever the final value |
| Calculations.PercentageChangeReadsBack | src/utils/calculations.py:2-6 | the text is a decimal integer literal followed by `%`, and reading it back gives the relative change in percent truncated toward zero |
| Calculations.EqualValuesNoChange | src/utils/calculations.py:6 | equal baseline and final values report `"0%"` |
| Calculations.PositiveBaselineSign | src/utils/calculations.py:6 | for a positive baseline, a positive (negative) figure means the value rose (fell), a rise (fall) never reports a negative (positive) figure, and a change under 1% of the baseline reports 0 |
| Numbers.Trunc | src/utils/calculations.py:6 | `int()` of a float is the integer next to it on the side of zero |
| Numbers.TruncBounds | src/data/processors/boolean.py:41-46 | truncating a value between two integers stays between them, on either side of zero |
| Numbers.RoundHalfEven | src/data/processors/categorical.py:34 | the rounded integer is within one half of the value, and an exact tie goes to the even integer |
| Numbers.Round2 | src/data/processors/categorical.py:34 | `round(x, 2)` is within half a hundredth of `x` |
| Numbers.Round2Percentage | src/data/processors/dummy.py:24-30 | rounding a percentage keeps it in [0, 100], keeps 0 at 0, and gives a positive result only for a positive input |
| Numbers.MeanBounds | src/data/processors/numeric.py:25 | a mean lies between bounds of all the values averaged |
| Text.Split | src/config/sections.py:63 | `split` with a non-empty separator returns at least one piece |
| Text.JoinSplit | src/config/sections.py:63 | joining the pieces of a split with the separator restores the text |
| Text.ReplaceCharByNothing | src/data/processors/numeric.py:65 | `replace("c", "")` removes exactly the `c` characters and keeps the others in order |
| Text.StripEmptyIffBlank | src/utils/document.py:58 | `strip()` is empty exactly for a text made only of white space |
| Text.StripEnds | src/utils/document.py:48 | a stripped text neither starts nor ends with white space |
| Text.WordsFacts | src/charts/utils.py:29 | `split()` yields non-empty words without white space, and no word at all exactly for a blank text |
| Text.BeforeLast | src/data/processors/indicator.py:42-44 | `rsplit(c, 1)[0]` is the whole text when `c` does not occur, else the proper prefix that ends just before the last `c` |
| Decimal.NatToString | src/sections_config.py:47 | `str` of a natural number is a non-empty digit string without a leading zero |
| Decimal.IntRoundTrip | src/utils/calculations.py:6 | parsing the decimal text of an integer gives that integer back |
| Decimal.IntToStringInjective | src/utils/calculations.py:6 | two integers never print as the same text |
| Order.Sort | src/config/sections.py:74 | `sorted` returns an ascending permutation of its input |
| Order.SortUnique | src/data/processors/array.py:23 | `sorted(set(xs))` is strictly ascending and holds exactly the elements of `xs` |
| Order.SortedUnique | src/config/sections.py:74 | two ascending sequences with the same multiset are equal, so the sorted result does not depend on the input order |
| Order.StrictlySortedUnique | src/data/processors/array.py:20-23 | two strictly ascending sequences with the same elements are equal |
| Frame.NumbersIn | src/data/processors/numeric.py:25 | the numbers pandas averages are at most the column's cells |
| Frame.NumbersInRange | src/data/processors/numeric.py:25 | every number averaged lies within bounds that hold for the column's numeric cells |
| Frame.CountWhereSplit | src/data/processors/boolean.py:22 | rows satisfying one of two exclusive conditions are counted as the sum of the two counts |
| Frame.RowCells | src/data/processors/numeric.py:42 | a row across the listed columns has one cell per column |
| Frame.RowMeans | src/data/processors/numeric.py:42 | the row means kept (rows with no number are NaN and skipped) are at most the rows read |
| Frame.ListMeanOfOneColumn | src/data/processors/numeric.py:42-46 | averaging per-row means over a single column is that column's mean |
| Frame.RowMeansRange | src/data/processors/numeric.py:42 | row means of bounded cells stay within the bounds |
| Declarations.Contains | src/data/processors/numeric.py:20 | `ref in df.columns` is true exactly for a present column name, false for any other hashable reference, and raises for a list |
| Declarations.Unpack | src/data/processors/indicator.py:20 | an indicator side unpacks into its numerators and denominators; `None` cannot be unpacked |
| Declarations.TypeList | src/data/process.py:64-70 | a bare `type` name stands for the one-element list of it, and a list for itself |
| Declarations.Normalised | src/data/process.py:64-65 | rewriting `type` into a list keeps the names tried, the pairs and the metadata |
| Declarations.Present | src/data/processors/numeric.py:39 | the list comprehension keeps exactly the listed names that are columns |
| Declarations.PresentEmptyIffNoneAny | src/data/processors/numeric.py:39-41 | no listed column is present exactly when none of them is a column |
| Variables.WellShapedIsDefined | src/data/processors/base.py:13-18 | a record of the shape every processor returns (`Aggregation.Run`) is never NaN on both sides, so the NaN check of src/data/process.py:78-87 never skips a processor's result |
| Variables.ReportedName | src/data/processors/numeric.py:65 | the reported name is the final column with every `c` deleted |
| Variables.ReportedNameFacts | src/data/processors/categorical.py:54 | the reported name holds no `c`, is no longer than the column name, and equals it when it has no `c` |
| Variables.ReportedLines | src/data/processors/categorical.py:44-49 | the interpretation has no more lines than keys |
| Variables.ReportedLinesDistinct | src/data/processors/categorical.py:44-49 | when the keys are distinct, no two lines share a key, so each key is reported at most once |
| Variables.ReportedLinesMembers | src/data/processors/categorical.py:45-49 | a key gets a line exactly when its initial or final share is positive, and the line carries that key's two shares and change |
| Variables.CollectLines | src/data/processors/array.py:58-63 | the loop that appends a line for each key with a positive share builds exactly those lines, in key order |
| Sections.NewReportSection | src/models/sections.py:14-31 | a section is built exactly when its title has 1 to 100 characters, keeps the title, content and variables given, and has no cohort details |
| Sections.NewReport | src/models/sections.py:52-60 | a report is built exactly when its title has 1 to 100 characters, and keeps its title and sections |
| Sections.ValidateReport | src/models/sections.py:132-136 | validation raises exactly for a report without sections, and otherwise answers true |
| Numeric.Process | src/data/processors/numeric.py:11-70 | the call succeeds exactly when the final reference is a present column whose mean is not NaN and, for a two-sided variable, the baseline is computed and its mean is not NaN. The final value is `int()` of the final column's mean, and a two-sided baseline value is `int()` of the baseline mean (`Baseline`). A missing final column, a list baseline with no present column, or a missing single baseline column raises. A final-only variable reports baseline 0, change "N/A" and the column name unchanged. Otherwise the change is the percentage-change text of the two values, and the name loses its `c`s |
| Numeric.FinalOnly | src/data/processors/numeric.py:24-35 | the final-only branch succeeds exactly when the column's mean is not NaN. It reports `int()` of that mean under the column name unchanged, 0 as baseline and "N/A" as change |
| Numeric.TwoSided | src/data/processors/numeric.py:37-70 | the two-sided branch succeeds exactly when the baseline is computed and both means are not NaN. It reports `int()` of the baseline mean and of the final column's mean, with their percentage-change text, and raises for an absent baseline |
| Numeric.Baseline | src/data/processors/numeric.py:37-46 | a list baseline is computed exactly when one of its columns is present. Its mean is then the mean of the per-row means over the present columns, and it reports how many there are. A single baseline is computed exactly when the column is present, and its mean is that column's mean |
| Numeric.PresentIdempotent | src/data/processors/numeric.py:39 | filtering the listed columns twice is filtering them once |
| Numeric.AbsentListColumnsIgnored | src/data/processors/numeric.py:39-42 | listed baseline columns that are absent do not change the result |
| Numeric.FinalWithinColumnRange | src/data/processors/numeric.py:48 | the reported final average lies within integer bounds of the column's numbers |
| Boolean.YesAreRecognised | src/data/processors/boolean.py:22 | every yes answer is a recognised answer |
| Boolean.YesShareRange | src/data/processors/boolean.py:41-46 | a share is a whole percentage in [0, 100] |
| Boolean.UnrecognisedIgnored | src/data/processors/boolean.py:22 | a cell other than "Sí", "SI", "No" and "NO" does not change the share, wherever it stands |
| Boolean.Process | src/data/processors/boolean.py:11-61 | the call succeeds exactly when the final column, and a given initial column, are present and each holds a recognised answer. Each value is the yes share of its column: `int()` of 100 × yes answers / recognised answers (`YesShare`). A missing final column, or a given but missing initial column, raises. A final-only variable has baseline and change "N/A" and keeps the column name. Values are whole percentages in [0, 100], and a two-sided change is the percentage-change text of the two |
| Boolean.FinalOnly | src/data/processors/boolean.py:20-36 | the final-only branch succeeds exactly when the column holds a recognised answer. It reports the column's yes share, a whole percentage in [0, 100], under the column name unchanged, and "N/A" as baseline and as change |
| Boolean.TwoSided | src/data/processors/boolean.py:38-61 | the two-sided branch succeeds exactly when both columns hold a recognised answer. It reports the two yes shares, whole percentages in [0, 100], and their percentage-change text, under the name without `c`s |
| Dummy.DummyShare | src/data/processors/dummy.py:23-31 | the share is NaN exactly for an empty column, and otherwise a percentage in [0, 100] |
| Dummy.DummyShareIsRoundedShare | src/data/processors/dummy.py:23-31 | the share is within half a hundredth of the exact percentage of rows that are neither missing, `""` nor `"."`, over all rows |
| Dummy.DummyShareExtremes | src/data/processors/dummy.py:23-31 | every row answered gives 100 and no row answered gives 0 |
| Dummy.Process | src/data/processors/dummy.py:12-49 | it succeeds exactly when both columns exist and the table has rows. The two sides apply the same share rule to their own columns, and the change is computed from the rounded shares |
| Categorical.CategoryShare | src/data/processors/categorical.py:29-36 | a category's share is in [0, 100], is 0 for a category no row holds, and is positive only for a category some row holds |
| Categorical.CategoryWithinAnswered | src/data/processors/categorical.py:29-30 | a row of a category is an answered row |
| Categorical.CategoryShareIsRounded | src/data/processors/categorical.py:33-36 | the share is within half a hundredth of the category's rows over the answered rows, in percent |
| Categorical.Shares | src/data/processors/categorical.py:33-36 | the share map has exactly the mapping's categories as keys |
| Categorical.Changes | src/data/processors/categorical.py:39-42 | the change map has exactly the mapping's categories as keys, each with the percentage-change text of its two shares |
| Categorical.Tally | src/data/processors/categorical.py:28-60 | the record's initial, final and change maps are keyed by exactly the mapping categories, and its lines are the categories with a positive share on either side, in mapping order |
| Categorical.Process | src/data/processors/categorical.py:11-60 | it raises exactly when a column is missing or the mapping is absent or empty; otherwise the record is the tally of the two columns |
| Categorical.UnseenCategory | src/data/processors/categorical.py:33-49 | a mapping category that no row holds reports 0 on both sides, "0%" as change, and no line |
| Categorical.TotalCountIsRowsInAny | src/data/processors/categorical.py:29-30 | for distinct categories, the per-category counts add up to the rows holding any of them |
| Categorical.DistinctCategoriesWithinAnswered | src/data/processors/categorical.py:29-36 | distinct categories never claim more rows than were answered, so their exact shares add up to at most 100 |
| MultiOption.AllOptions | src/data/processors/array.py:19-23 | the option list is strictly ascending and holds exactly the `;`-separated selections of the non-missing cells |
| MultiOption.OccurrencesAreTokenCount | src/data/processors/array.py:35-38 | an option is counted as often as it appears among the column's selections |
| MultiOption.Percentages | src/data/processors/array.py:32-39 | the share map has exactly the option universe as keys, each option's count over all rows, missing rows included |
| MultiOption.Zeros | src/data/processors/array.py:44-49 | an absent column gives 0 for every option |
| MultiOption.OptionChanges | src/data/processors/array.py:52-55 | the change map has exactly the options as keys, each with the percentage-change text of its two shares |
| MultiOption.Universe | src/data/processors/array.py:26-30 | the universe is the sorted union of both columns' selections when the final column exists, else the initial column's alone |
| MultiOption.Tally | src/data/processors/array.py:41-74 | the three maps are keyed by the universe, the final side is all zeros for an absent final column, and the lines are the options with a positive share, in sorted order |
| MultiOption.Process | src/data/processors/array.py:10-74 | it raises exactly when the initial column is missing or the final reference is not a column name; an absent final column is allowed |
| MultiOption.NoRepeatsAtMostAll | src/data/processors/array.py:35-39 | when no row selects an option twice, the option is counted at most once per row |
| MultiOption.NoRepeatsShareBounded | src/data/processors/array.py:39 | when no row selects an option twice, its share is in [0, 100] |
| MultiOption.RepeatedSelectionExceedsAll | src/data/processors/array.py:35-39 | a row answering "a;a" counts the option twice, so its share is 200 |
| MultiOption.GetAllOptions | src/data/processors/array.py:19-23 | the set-filling loop followed by `sorted(list(...))` yields the option list |
| MultiOption.SortedElements | src/data/processors/array.py:23 | `sorted(list(options))` is strictly ascending with the set's elements |
| MultiOption.CountSelections | src/data/processors/array.py:36-38 | counting one row's selections adds each option's number of occurrences in that row and keeps the keys |
| MultiOption.CalculatePercentages | src/data/processors/array.py:32-39 | the counting loop followed by the division gives the share map |
| MultiOption.SharesOfCounts | src/data/processors/array.py:39 | dividing complete counts by the row count gives the share map |
| Indicator.RatioCell | src/data/processors/indicator.py:62-65 | a row's ratio is defined exactly when both operands are numbers and the denominator is non-zero, and is then their quotient |
| Indicator.RatioColumn | src/data/processors/indicator.py:62-65 | the ratio column has one cell per row, the ratio of that row |
| Indicator.WithColumn | src/data/processors/indicator.py:62 | assigning a column to the copy sets that one column and keeps the others |
| Indicator.RatioStep | src/data/processors/indicator.py:59-66 | one pair fails exactly when a column is missing or holds text, and otherwise adds its ratio column under `<numerator>_ratio` |
| Indicator.RatioSteps | src/data/processors/indicator.py:58-66 | after `k` pairs the copy has the table's rows and `k` ratio names, each a column of the copy |
| Indicator.RatioMean | src/data/processors/indicator.py:53-80 | sides that are neither two lists nor two names raise |
| Indicator.Percent | src/data/processors/indicator.py:31-32 | `int(v * 100)` is defined exactly for a defined ratio mean, and truncates it |
| Indicator.Process | src/data/processors/indicator.py:12-51 | a side that cannot be unpacked, or a missing `calculation`, raises. Otherwise the call succeeds exactly when both ratio means give a percentage and the final numerator gives a name. The record then holds both truncated percentages, their percentage-change text and the final numerator cut at its last `_` |
| Indicator.RatioStepsFailureStays | src/data/processors/indicator.py:58-61 | once a pair fails its assertion, the loop fails with that error |
| Indicator.RatioStepsNext | src/data/processors/indicator.py:58-66 | one more pair either raises for a missing column or adds exactly its ratio column and name |
| Indicator.AddRatioColumns | src/data/processors/indicator.py:58-66 | the loop over the zipped lists builds the same copy and ratio names as the step-by-step definition |
| Indicator.CalculateIndicatorRatios | src/data/processors/indicator.py:53-80 | the helper as written, writing columns into a copy, computes the ratio mean |
| Indicator.RatioStepsPrefix | src/data/processors/indicator.py:58 | `zip` stops at the shorter list, so numerators beyond the denominators are never read |
| Indicator.ZipIgnoresExtraNumerators | src/data/processors/indicator.py:58-67 | extra numerators do not change the mean |
| Indicator.OnePairListIsNames | src/data/processors/indicator.py:57-76 | a one-pair list gives the same mean as the two names on their own |
| Indicator.UnitRatioColumn | src/data/processors/indicator.py:62-65 | ratios of proper fractions lie in [0, 1] |
| Indicator.RatioStepsKeepColumn | src/data/processors/indicator.py:55-66 | the loop leaves every column it does not write as it was, so the caller's table is unchanged |
| Indicator.RatioStepsOfFractions | src/data/processors/indicator.py:58-66 | without a pair that reads a ratio column the loop wrote, every ratio column added holds values in [0, 1] |
| Indicator.NamesIndexIsPercentage | src/data/processors/indicator.py:68-76 | for two names whose rows are proper fractions, the index lies in [0, 100] |
| Indicator.ListIndexIsPercentage | src/data/processors/indicator.py:57-67 | for lists of pairs whose rows are proper fractions and not ratio columns, the index lies in [0, 100] |
| Aggregation.ProcessorFor | src/data/process.py:71 | a processor found for a name is the one registered under that name |
| Aggregation.DispatchTable | src/data/process.py:29-36 | each of the six kinds is registered under its own name, and exactly the six names are known |
| Aggregation.Run | src/data/processors/base.py:13-18 | every processor's result has the declared record shape |
| Aggregation.Attempt | src/data/process.py:71-109 | a try raises exactly for an unknown type or a failing processor, and a success is the processor's result and not NaN on both sides |
| Aggregation.NoSoftFailure | src/data/process.py:78-87 | no processor returns NaN on both sides, so the "try the next type" branch is never taken |
| Aggregation.FirstSuccess | src/data/process.py:68-112 | the chosen combination succeeds, and when none is chosen no combination succeeds |
| Aggregation.FirstSuccessAt | src/data/process.py:68-112 | a success preceded only by failures is the first success |
| Aggregation.TryTypes | src/data/process.py:70-109 | the type loop tries the pair's types in order, stops at the first success, and otherwise has tried them all without success |
| Aggregation.FoundAt | src/data/process.py:89-112 | a trace of first tries that ends in its only success marks the first success overall |
| Aggregation.NoSuccessAtAll | src/data/process.py:68-112 | a complete trace without a success means that no combination succeeds |
| Aggregation.SearchMissed | src/data/process.py:68-112 | a pair whose types all fail extends the failing trace by its whole row of tries |
| Aggregation.SearchFound | src/data/process.py:99-112 | a pair with a succeeding type ends the trace at the first success overall |
| Aggregation.Search | src/data/process.py:68-112 | the two loops store the earliest success in pairs-then-types order. The tries made are a prefix of all tries, ending at that success, with nothing tried after it; with no success, every combination was tried |
| Aggregation.ResolveVariable | src/data/process.py:62-112 | one declaration resolves to its first success over its pairs and types, with the trace of tries made |
| Aggregation.VariablesOf | src/data/process.py:60-116 | a key is in a section's dictionary exactly when one of its declarations resolves, and it holds such a declaration's result |
| Aggregation.VariablesOfDistinct | src/data/process.py:60-116 | for a section with distinct keys, as a dictionary has, a key is stored exactly when its own declaration resolves, and it holds that result |
| Aggregation.Aggregate | src/data/process.py:57-126 | a refused title is the only failure, and success gives one section per configured section |
| Aggregation.AggregateFailsIff | src/data/process.py:118-124 | the aggregation fails exactly when some section title is not 1 to 100 characters long |
| Aggregation.AggregateSections | src/data/process.py:118-124 | on success, section `i` has title `i`, empty content, section `i`'s dictionary and no cohort details |
| Aggregation.ResolvedIgnoresNormalisation | src/data/process.py:64-65 | rewriting a `type` entry into a list does not change how the declaration resolves |
| Aggregation.NormaliseVars | src/data/process.py:62-65 | rewriting the first `n` declarations keeps names, pairs and metadata, and touches no other declaration |
| Aggregation.NormalisedThrough | src/data/process.py:59-65 | the configuration after rewriting the first `s` sections keeps every title and which declarations there are |
| Aggregation.VariablesOfAlike | src/data/process.py:62-89 | declarations that agree name by name and resolve alike give the same dictionary |
| Aggregation.AggregateAlike | src/data/process.py:59-124 | sections that agree title by title and dictionary by dictionary aggregate alike |
| Aggregation.AggregateIgnoresNormalisation | src/data/process.py:64-65 | running again over a configuration an earlier run rewrote gives the same sections, so the in-place rewrite is harmless |
| Aggregation.AggregateStep | src/data/process.py:118-124 | one more valid section appends exactly its section to the result |
| Aggregation.AggregateStopsAt | src/data/process.py:118-124 | the first refused title makes the whole run fail, and all titles before it were valid |
| Aggregation.ConfigStore.ResolveSection | src/data/process.py:62-116 | the variable loop rewrites every `type` entry of the section into a list and builds that section's dictionary |
| Aggregation.ConfigStore.AggregateData | src/data/process.py:39-126 | the method computes the aggregation of the configuration as it was. On success every `type` entry has been rewritten; when a title aborts the run, the sections up to that one have been rewritten |
| ConfigSections.Affixes | src/config/sections.py:63-67 | a pattern is accepted exactly when it splits into two pieces around `{}`, and is then prefix, `{}` and suffix |
| ConfigSections.PlaceholderSplit | src/config/sections.py:63-67 | a pattern written as prefix, `{}` and suffix, with no `{` in either, splits back into them |
| ConfigSections.TrailingNewlineInBothFamilies | src/config/sections.py:67-73 | with the `$` of the code as written, the column name "xc\n" matches pattern "x{}" in both the control and the intervention family |
| ConfigSections.AsWrittenAgreesWithoutNewline | src/config/sections.py:68-73 | for names that do not end in a newline, the code as written and the corrected match agree |
| ConfigSections.FamiliesDisjoint | src/config/sections.py:69 | under the corrected match no name is in both families |
| ConfigSections.Matching | src/config/sections.py:73 | the comprehension keeps each matching column as often as it occurs, and no other |
| ConfigSections.FindMatchingVars | src/config/sections.py:50-74 | a pattern without exactly one `{}` raises. The result is sorted and holds exactly the matching columns, each starting with the prefix and ending in `c` exactly in the control family; with an empty suffix the bare prefix never matches |
| ConfigSections.FindMatchingVarsIgnoresOrder | src/config/sections.py:73-74 | the result depends only on which columns the table has, not on their order |
| ConfigSections.ControlListsDisjoint | src/config/sections.py:68-74 | the control and intervention lists of one pattern share no name |
| ConfigSections.ProductionPatterns | src/config/sections.py:93-132 | the month patterns of the production indicators each hold one placeholder with an empty suffix |
| ConfigSections.MonthColumnsOf | src/config/sections.py:89-132 | none of the configuration's column-family lookups raises |
| ConfigSections.Section1WellDeclared | src/config/sections.py:88-208 | every declaration of "Optimización operativa" is well declared |
| ConfigSections.Section2WellDeclared | src/config/sections.py:209-302 | every declaration of "Mayor Calidad del Producto" is well declared |
| ConfigSections.Section3WellDeclared | src/config/sections.py:303-344 | every declaration of "Talento Humano" is well declared |
| ConfigSections.Section4WellDeclared | src/config/sections.py:345-437 | every declaration of "Practicas Gerenciales" is well declared |
| ConfigSections.Section5WellDeclared | src/config/sections.py:438-520 | every declaration of "Financiero" is well declared |
| ConfigSections.Section6WellDeclared | src/config/sections.py:521-602 | every declaration of "Asociatividad" is well declared |
| ConfigSections.ConfigWellDeclared | src/config/sections.py:87-603 | there are six sections with distinct titles, and in every declaration the metadata name is its key, a possibly categorical one has a non-empty category list, and an indicator has a calculation text and lists on both sides |
| StaticConfig.GeneratePrevmonthVars | src/sections_config.py:45-47 | exactly `num_months` names, none when it is not positive, the i-th being the base name followed by i |
| StaticConfig.DefaultIsFourMonths | src/sections_config.py:45 | by default the names end in 1 to 4 |
| StaticConfig.PrevmonthNamesParse | src/sections_config.py:47 | each name's number suffix reads back as its 1-based position |
| StaticConfig.PrevmonthNamesDistinct | src/sections_config.py:47 | no name is generated twice |
| StaticConfig.Flat1Shape | src/sections_config.py:50-122 | every triple of "Optimización operativa" has the flat shape |
| StaticConfig.Flat2Shape | src/sections_config.py:123-184 | every triple of "Mayor Calidad del Producto" has the flat shape |
| StaticConfig.Flat3Shape | src/sections_config.py:185-209 | every triple of "Talento Humano" has the flat shape |
| StaticConfig.Flat4Shape | src/sections_config.py:210-274 | every triple of "Practicas Gerenciales" has the flat shape |
| StaticConfig.Flat5Shape | src/sections_config.py:275-324 | every triple of "Financiero" has the flat shape |
| StaticConfig.Flat6Shape | src/sections_config.py:325-366 | every triple of "Asociatividad" has the flat shape |
| StaticConfig.FlatConfigShape | src/sections_config.py:49-367 | six sections with distinct titles. Every final reference is one column, only categorical triples carry a non-empty mapping, and no metadata has a name or a calculation |
| StaticConfig.ProductionDeclarations | src/sections_config.py:52-76 | the five production variables are numeric, with four month columns as baseline and the base name plus `c` as final column |
| StaticConfig.FinalOnlyDeclarations | src/sections_config.py:282-307 | exactly the five "Financiero" triples after the first have no baseline |
| DataTabs.KeyAvailability | src/ui/data_tabs.py:63-77 | the check as written, applied to a variable key, raises for every key: a key fails to unpack into three names unless it has three characters, and then its one-character pair fails to unpack into two sides |
| DataTabs.CheckVariableAvailability | src/ui/data_tabs.py:47-87 | the flag-clearing check answers the availability rule, passes the metadata back, and raises where the rule raises |
| DataTabs.IndicatorIgnoresDenominators | src/ui/data_tabs.py:67 | an indicator's denominators never affect its availability |
| DataTabs.IndicatorNameNumeratorNeverBlocks | src/ui/data_tabs.py:68-75 | an indicator with a single-name initial numerator is decided by its final numerator alone |
| DataTabs.IndicatorListsNeedOnePresent | src/ui/data_tabs.py:68-73 | an indicator over lists is available exactly when each side has a present numerator column |
| DataTabs.ListBaselineNeedsOnePresent | src/ui/data_tabs.py:78-85 | another kind with a list baseline is available exactly when one listed column and the final column are present |
| DataTabs.FalsyBaselineSkipped | src/ui/data_tabs.py:78 | another kind with `None` or an empty list as baseline is decided by its final column alone |
| DataTabs.AvailableHasFinalColumn | src/ui/data_tabs.py:84-85 | another kind is available only with a present final column, and a list as final reference raises |
| DataTabs.Label | src/ui/data_tabs.py:116 | the label is `"description (name)"`, and metadata without a name raises |
| DataTabs.Partition | src/ui/data_tabs.py:107-117 | each declaration of a section lands in exactly one of the two lists |
| DataTabs.PartitionKeepsAvailable | src/ui/data_tabs.py:111-115 | each available entry is a declaration of the section that passes the check |
| DataTabs.PartitionFailsIffSomeDeclarationFails | src/ui/data_tabs.py:111-117 | a section fails exactly when checking or labelling one of its declarations raises |
| DataTabs.PartitionAppend | src/ui/data_tabs.py:111-117 | partitioning two runs of declarations in turn is partitioning them together, so configuration order is kept |
| DataTabs.PartitionSingle | src/ui/data_tabs.py:112-117 | a single declaration goes to the available list, or its label to the missing list |
| DataTabs.FailingSectionFailsScreening | src/ui/data_tabs.py:107-122 | a section that fails makes the whole screen fail |
| DataTabs.FailedScreeningHasFailingSection | src/ui/data_tabs.py:107-122 | a failing screen has a failing section |
| DataTabs.ScreeningFailsIffSomeSectionFails | src/ui/data_tabs.py:107-122 | the screen fails exactly when some section's partition does |
| DataTabs.ScreeningLast | src/ui/data_tabs.py:107-122 | the screen of a configuration is that of all but its last section, updated with the last section's non-empty lists |
| DataTabs.TitleIsNew | src/ui/data_tabs.py:119-122 | with distinct titles, the last title is in neither map of the sections before it |
| DataTabs.KeyOfSection | src/ui/data_tabs.py:119-122 | with distinct titles, a section's title is a key of the available (missing) map exactly when its available (missing) list is non-empty, and maps to that list |
| DataTabs.ScreeningKeys | src/ui/data_tabs.py:119-122 | the same holds for every section at once |
| DataTabs.KeysAreTitles | src/ui/data_tabs.py:119-122 | every key of either map is a section title |
| DataTabs.ProcessSectionsConfig | src/ui/data_tabs.py:90-124 | the loops return the configuration with the two maps of the screen, or the error of the first declaration that raises |
| DataTabs.PartitionStopsAt | src/ui/data_tabs.py:111-117 | the first declaration that raises is the error of its section |
| DataTabs.ScreeningStopsAt | src/ui/data_tabs.py:107-122 | the first section that fails is the error of the screen |
| ChartUtils.SliceEnd | src/charts/utils.py:26 | the slice `s[:end]` stops at `end`, or `end` from the back when it is negative |
| ChartUtils.Truncate | src/charts/utils.py:25-26 | short text is kept; longer text keeps its first `max_chars - 1` characters and ends in `…`, so it is exactly `max_chars` long |
| ChartUtils.ChunksShape | src/charts/utils.py:35-36 | there are ceil(words/step) groups of one to `step` words, all full but the last |
| ChartUtils.ChunksConcat | src/charts/utils.py:35-36 | grouping loses, duplicates and reorders no word |
| ChartUtils.ChunkElement | src/charts/utils.py:35-36 | every grouped word is one of the words |
| ChartUtils.LineTexts | src/charts/utils.py:36 | each line is its group's words joined by single spaces |
| ChartUtils.ProcessLabel | src/charts/utils.py:13-38 | the label built as the code does equals the truncate-then-wrap definition, in both the `break_every == 0` and the wrapping case |
| ChartUtils.WrapWords | src/charts/utils.py:34-36 | the stepping loop yields one line per group of `break_every` words |
| ChartUtils.BlankLabelIsEmpty | src/charts/utils.py:29-38 | blank text that needs no truncation gives an empty wrapped label |
| ChartUtils.LineCount | src/charts/utils.py:34-38 | a wrapped label has ceil(words/`break_every`) lines |
| ChartUtils.WordsOfJoin | src/charts/utils.py:29-36 | words joined by single spaces split back into the same words |
| ChartUtils.LinesHoldTheirWords | src/charts/utils.py:34-38 | each line holds exactly its group's words, one to `break_every` of them |
| ChartUtils.GetSplits | src/charts/utils.py:40-59 | (60, 3) up to two labels, (40, 2) for three, (30, 2) for four, and (30, 1) for more |
| ChartUtils.SplitsShrink | src/charts/utils.py:46-58 | more labels never give a larger budget or step, the step is at least 1, and the budget at least 30 |
| ChartUtils.SplitLabels | src/charts/utils.py:13-59 | with the splits for any label count, the truncated text fits its budget and the label is always wrapped |
| ChartConfig.Available | src/config/charts.py:59-64 | filtering keeps at most the known charts |
| ChartConfig.GetAvailableCharts | src/config/charts.py:49-66 | the loop keeps exactly the charts with a processed variable, in order |
| ChartConfig.AvailableIff | src/config/charts.py:61-64 | a chart is kept exactly when it is known and one of its required variables is processed, and it is kept unaltered |
| ChartConfig.AvailableAppend | src/config/charts.py:61 | filtering two lists of charts in turn is filtering them together, so order is kept |
| ChartConfig.NothingProcessedNothingDrawn | src/config/charts.py:63 | with no processed variable, or charts requiring nothing, no chart is kept |
| ChartConfig.AnyRequiredVariableSuffices | src/config/charts.py:26-34 | one processed input is enough: the quality chart is kept though three of its four inputs are missing |
| Document.SplitSingleIffAbsent | src/utils/document.py:18-19 | splitting at `**` gives one piece exactly when the text has no `**` |
| Document.ProcessParagraphText | src/utils/document.py:10-30 | the document's calls are extended by exactly the paragraph's calls |
| Document.PlainTextIsOneParagraph | src/utils/document.py:18-21 | text without `**` is one paragraph holding the text unchanged |
| Document.RunsSpellPieces | src/utils/document.py:24-27 | the runs spell the pieces end to end, dropping only the empty ones |
| Document.MarkedTextSpelledByRuns | src/utils/document.py:18-27 | text with `**` is an empty paragraph followed by runs that spell the text with every `**` removed |
| Document.RunsAreOddBold | src/utils/document.py:24-29 | every run is a non-empty piece, bold exactly when its index is odd, at font size 11 |
| Document.ScanPrefix | src/utils/document.py:42 | reading one more line is one more step of the scan |
| Document.StepBlocks | src/utils/document.py:43-59 | a heading line flushes the buffer and adds the heading; any other line only buffers itself, and only when it is not blank |
| Document.RenderAppend | src/utils/document.py:45-62 | rendering one more block appends its calls |
| Document.Level3IsHeading | src/utils/document.py:43-50 | a `###` line is a heading line |
| Document.Level3Events | src/utils/document.py:48-49 | a `###` line gives a level-3 heading of its text with every `###` removed and stripped, at size 12 |
| Document.Level2Events | src/utils/document.py:55-56 | a `##` line that is not a `###` line gives a level-2 heading of its stripped text with every `##` removed, at size 13 |
| Document.ProcessContentLines | src/utils/document.py:33-62 | the document's calls are extended by exactly the calls of the lines' blocks |
| Document.ScanKeepsLines | src/utils/document.py:42-59 | the closed paragraphs and the buffer hold the body lines read, in order, and the closed headings are the heading lines |
| Document.ScanSeparates | src/utils/document.py:42-59 | no two closed paragraphs are adjacent |
| Document.BlocksAccountForLines | src/utils/document.py:40-62 | every non-blank, non-heading line is in exactly one paragraph, in order; headings come out in order; no paragraph is empty; two paragraphs are always separated by a heading |
| Document.HeadingShape | src/utils/document.py:48-55 | a heading's level follows its marker, and its text has no surrounding white space |

## Left out

- Logging, the Streamlit screens, the LLM calls, prompt templates, chart plotting, image export, file loading and writing, and `create_word_doc`. These are I/O or foreign libraries. `ChartFunc` only names the plotting routine a chart uses.
- Timestamps: `created_at` and `generated_at` read the clock, so the records carry no timestamp.
- Float arithmetic: values are exact reals. Python's `round(x, 2)` is exact half-even rounding to hundredths; `int()` of a NaN raises, as in Python.
- Interpretation wording: `Interpretation` records which figures and categories the text states, not the Spanish sentence or the float formatting.
- Python dictionaries are sequences of key–value pairs in insertion order. A configured section is a dictionary literal, so its keys are distinct, and `Aggregation.VariablesOfDistinct` gives each key exactly its own declaration's result. The model does not require distinct keys. Over a sequence that repeats a key, `VariablesOf` keeps the last declaration of that key that resolves, which no Python dictionary can express.
- The outer `try` of `aggregate_data` (src/data/process.py:63,114-116) catches what is raised outside the inner `try`: a missing `type` or `var_pairs` key (process.py:64,68), a `var_pairs` that cannot be iterated (process.py:68), and a kind that cannot be hashed for `PROCESSORS.get` (process.py:71). `metadata` is read inside the inner `try` (process.py:72-74), whose handler catches its `KeyError`. A declaration of the model always has both keys, a sequence of pairs and kinds that are texts, so the outer handler has nothing to catch.
- `process_sections_config` unpacks each declaration as a triple, but the `get_sections_config` it imports returns nested dictionaries, so as written every screen of a non-empty section raises (second row of "## Findings"). `DataTabs.ProcessSectionsConfig` takes the configuration as a parameter, as a list of triples, the shape `src/sections_config.py` writes.
- The triples of `src/sections_config.py` have no `name` in their metadata. So in the model, as in the code, a screen with a missing declaration of that configuration raises on the label (`DataTabs.Label`).
- MultiOption.Percentages: it requires every selection to be an option of the universe. That always holds there, because the universe is built from the same column; the `KeyError` the source would raise otherwise cannot occur.
- `Metadata.description` is a mandatory field. Every processor reads `metadata["description"]` first (numeric.py:18, boolean.py:15, dummy.py:16, categorical.py:15, array.py:17, indicator.py:21), so a declaration without one would raise a `KeyError`, and the inner `try` of `aggregate_data` would skip that type. The model has no such declaration to skip, because every declaration of both configurations (src/config/sections.py and src/sections_config.py) carries a description.
- ConfigSections.ConfigWellDeclared: it does not state that the variable keys within a section are distinct. The keys were compared by eye; a proof over the whole literal was too expensive.
- The comment in `get_available_charts` (src/config/charts.py:62) says all required variables must be present, but the test below it (charts.py:63) keeps a chart when any of them is; the model follows the test (`ChartConfig.AnyRequiredVariableSuffices`).
- A long label whose first `max_chars - 1` characters are blank becomes just `"…"` when it is wrapped (`break_every` positive), because `process_label` truncates before it splits into words (src/charts/utils.py:25-38).

## Findings

| source | as written | input that shows it | evidently intended | confidence | as-written member | corrected member |
|---|---|---|---|---|---|---|
| src/config/sections.py:67-73 | the regex ends in `c$` or `[^c]$`, and Python's `$` also matches just before a trailing newline | the column "xc\n" with pattern "x{}" is in both the control and the intervention list | the match ends at the end of the name (`\Z`), so the two families are disjoint | not executed | ConfigSections.TrailingNewlineInBothFamilies | ConfigSections.FindMatchingVars |
| src/ui/data_tabs.py:103-112 | `for var_config in variables` iterates a section of `get_sections_config`, a dictionary, so `var_config` is a variable key, and `check_variable_availability` unpacks it as `var_pair, var_type, metadata` (data_tabs.py:63) | the key "production_efficiency" of the first section does not unpack into three names; a three-character key does, but then its one-character `var_pair` does not unpack into two sides (data_tabs.py:67,77) | the screen iterates the declarations of each variable as `(var_pair, var_type, metadata)` triples, as `src/sections_config.py` writes them | not executed | DataTabs.KeyAvailability | DataTabs.ProcessSectionsConfig |
