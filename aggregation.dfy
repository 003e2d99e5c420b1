/**
 * `aggregate_data`: every declared variable is resolved by trying its column pairs, and for
 * each pair its processor types, until one processor succeeds; sections keep their order.
 */
module Aggregation {
  import opened Wrappers
  import opened Frame
  import opened Declarations
  import opened Variables
  import opened Sections
  import Numeric
  import Boolean
  import Categorical
  import MultiOption
  import Dummy
  import Indicator

  /** The six processors of the dispatch table. */
  datatype Kind = NumericKind | BooleanKind | CategoricalKind | ArrayKind | DummyKind | IndicatorKind

  function KindName(k: Kind): string
  {
    match k
    case NumericKind => NUMERIC
    case BooleanKind => BOOLEAN
    case CategoricalKind => CATEGORICAL
    case ArrayKind => ARRAY
    case DummyKind => DUMMY
    case IndicatorKind => INDICATOR
  }

  /** `PROCESSORS.get(name)`: a known type name gives its processor, any other name nothing. */
  function ProcessorFor(name: string): (k: Option<Kind>)
    ensures k.Some? ==> KindName(k.value) == name
  {
    if name == NUMERIC then Some(NumericKind)
    else if name == BOOLEAN then Some(BooleanKind)
    else if name == CATEGORICAL then Some(CategoricalKind)
    else if name == ARRAY then Some(ArrayKind)
    else if name == DUMMY then Some(DummyKind)
    else if name == INDICATOR then Some(IndicatorKind)
    else None
  }

  /** Every processor is registered under its own type name, and only the six names are known. */
  lemma DispatchTable(k: Kind, name: string)
    ensures ProcessorFor(KindName(k)) == Some(k)
    ensures ProcessorFor(name).Some? <==> name in [NUMERIC, BOOLEAN, CATEGORICAL, ARRAY, DUMMY, INDICATOR]
  {
  }

  /** `processor.process(df, var_pair, metadata)`. */
  function Run(k: Kind, t: Frame, pair: Pair, meta: Metadata): (r: Result<VariableData>)
    ensures r.Ok? ==> WellShaped(r.value)
  {
    match k
    case NumericKind => Numeric.Process(t, pair, meta)
    case BooleanKind => Boolean.Process(t, pair, meta)
    case CategoricalKind => Categorical.Process(t, pair, meta)
    case ArrayKind => MultiOption.Process(t, pair, meta)
    case DummyKind => Dummy.Process(t, pair, meta)
    case IndicatorKind => Indicator.Process(t, pair, meta)
  }

  /** What one try of a (pair, type) combination ends in. */
  datatype Outcome =
    | Raised                       // the processor (or a missing one) raised; the next type is tried
    | SoftFail                     // both values came out NaN; the next type is tried
    | Success(data: VariableData)  // the variable is resolved

  /** The body of the innermost `try`: an unknown type raises, as does a failing processor. */
  function Attempt(t: Frame, pair: Pair, typeName: string, meta: Metadata): (o: Outcome)
    ensures o.Raised? <==> ProcessorFor(typeName).None? || Run(ProcessorFor(typeName).value, t, pair, meta).Err?
    ensures o.Success? ==> Run(ProcessorFor(typeName).value, t, pair, meta) == Ok(o.data) && !BothUndefined(o.data)
  {
    match ProcessorFor(typeName)
    case None => Raised
    case Some(k) =>
      match Run(k, t, pair, meta)
      case Err(_) => Raised
      case Ok(d) => if BothUndefined(d) then SoftFail else Success(d)
  }

  /** No processor returns NaN on both sides, so the "try the next type" branch for NaN never runs. */
  lemma NoSoftFailure(t: Frame, pair: Pair, typeName: string, meta: Metadata)
    ensures !Attempt(t, pair, typeName, meta).SoftFail?
  {
    if ProcessorFor(typeName).Some? {
      var r := Run(ProcessorFor(typeName).value, t, pair, meta);
      if r.Ok? {
        WellShapedIsDefined(r.value);
      }
    }
  }

  datatype Candidate = Candidate(pair: Pair, typeName: string)

  /** The types tried for one pair, in order. */
  function Row(pair: Pair, types: seq<string>): (r: seq<Candidate>)
    ensures |r| == |types| && forall j :: 0 <= j < |r| ==> r[j] == Candidate(pair, types[j])
  {
    seq(|types|, j requires 0 <= j < |types| => Candidate(pair, types[j]))
  }

  /** Every (pair, type) combination in the order the two loops visit them: pairs outside, types inside. */
  function Candidates(pairs: seq<Pair>, types: seq<string>): seq<Candidate>
  {
    if |pairs| == 0 then []
    else Candidates(pairs[..|pairs| - 1], types) + Row(pairs[|pairs| - 1], types)
  }

  /** What trying each combination ends in, for a given try. */
  function Outcomes(attempt: Candidate -> Outcome, cands: seq<Candidate>): (os: seq<Outcome>)
    ensures |os| == |cands|
    ensures forall i :: 0 <= i < |cands| ==> os[i] == attempt(cands[i])
  {
    seq(|cands|, i requires 0 <= i < |cands| => attempt(cands[i]))
  }

  /** No outcome among the first `n` of `os` is a success. */
  predicate FailsBefore(os: seq<Outcome>, n: int)
  {
    forall i :: 0 <= i < n && i < |os| ==> !os[i].Success?
  }

  /** The earliest combination that succeeds, with its position. */
  function FirstSuccess(attempt: Candidate -> Outcome, cands: seq<Candidate>): (r: Option<(nat, VariableData)>)
    ensures r.Some? ==> (r.value.0 < |cands| && attempt(cands[r.value.0]) == Success(r.value.1)
      && forall i :: 0 <= i < r.value.0 ==> !attempt(cands[i]).Success?)
    ensures r.None? ==> forall i :: 0 <= i < |cands| ==> !attempt(cands[i]).Success?
  {
    if |cands| == 0 then None
    else
      var o := attempt(cands[0]);
      if o.Success? then Some((0, o.data))
      else
        var rest := FirstSuccess(attempt, cands[1..]);
        if rest.None? then None else Some((rest.value.0 + 1, rest.value.1))
  }

  /** One try of a combination of a declaration. */
  function TryOf(t: Frame, meta: Metadata): Candidate -> Outcome
  {
    (c: Candidate) => Attempt(t, c.pair, c.typeName, meta)
  }

  /** The record a declaration resolves to, if any combination succeeds. */
  function Resolved(t: Frame, decl: VarDecl): Option<VariableData>
  {
    match FirstSuccess(TryOf(t, decl.metadata), Candidates(decl.pairs, TypeList(decl.types)))
    case None => None
    case Some((_, d)) => Some(d)
  }

  predicate IsPrefix<T(==)>(a: seq<T>, b: seq<T>)
  {
    |a| <= |b| && a == b[..|a|]
  }

  lemma {:induction false} CandidatesPrefix(pairs: seq<Pair>, types: seq<string>, p: nat)
    requires p <= |pairs|
    ensures IsPrefix(Candidates(pairs[..p], types), Candidates(pairs, types))
    decreases |pairs| - p
  {
    if p < |pairs| {
      CandidatesPrefix(pairs, types, p + 1);
      assert pairs[..p + 1][..p] == pairs[..p];
    } else {
      assert pairs[..p] == pairs;
    }
  }

  /** An index of the first success in a prefix is the first success overall. */
  lemma FirstSuccessAt(attempt: Candidate -> Outcome, cands: seq<Candidate>, k: nat, d: VariableData)
    requires k < |cands|
    requires attempt(cands[k]) == Success(d)
    requires forall i :: 0 <= i < k ==> !attempt(cands[i]).Success?
    ensures FirstSuccess(attempt, cands) == Some((k, d))
  {
  }

  lemma OutcomesConcat(attempt: Candidate -> Outcome, a: seq<Candidate>, b: seq<Candidate>)
    ensures Outcomes(attempt, a + b) == Outcomes(attempt, a) + Outcomes(attempt, b)
  {
  }

  lemma OutcomesPrefix(attempt: Candidate -> Outcome, a: seq<Candidate>, b: seq<Candidate>)
    requires IsPrefix(a, b)
    ensures IsPrefix(Outcomes(attempt, a), Outcomes(attempt, b))
  {
  }

  /** The inner loop of `aggregate_data`: the types of one pair, until one succeeds. */
  method TryTypes(attempt: Candidate -> Outcome, pair: Pair, types: seq<string>)
    returns (found: Option<VariableData>, ghost tried: seq<Outcome>)
    ensures IsPrefix(tried, Outcomes(attempt, Row(pair, types)))
    ensures found.None? ==> tried == Outcomes(attempt, Row(pair, types))
    ensures found.Some? ==> |tried| > 0 && tried[|tried| - 1] == Success(found.value)
    ensures FailsBefore(tried, |tried| - 1)
    ensures found.None? ==> FailsBefore(tried, |tried|)
  {
    found := None;
    tried := [];
    var j := 0;
    while j < |types|
      invariant 0 <= j <= |types|
      invariant tried == Outcomes(attempt, Row(pair, types[..j]))
      invariant FailsBefore(tried, |tried|)
    {
      var o := attempt(Candidate(pair, types[j]));
      assert Row(pair, types[..j + 1]) == Row(pair, types[..j]) + [Candidate(pair, types[j])];
      tried := tried + [o];
      if !o.Success? {
        j := j + 1;
        continue;
      }
      found := Some(o.data);
      assert Row(pair, types[..j + 1]) == Row(pair, types)[..j + 1];
      return;
    }
    assert types[..j] == types;
  }

  /** The tries of the first `p` pairs followed by some tries of pair `p` are the first tries overall. */
  lemma SearchStep(attempt: Candidate -> Outcome, pairs: seq<Pair>, types: seq<string>, p: nat,
                   before: seq<Outcome>, tried: seq<Outcome>)
    requires p < |pairs|
    requires before == Outcomes(attempt, Candidates(pairs[..p], types))
    requires IsPrefix(tried, Outcomes(attempt, Row(pairs[p], types)))
    ensures IsPrefix(before + tried, Outcomes(attempt, Candidates(pairs, types)))
    ensures tried == Outcomes(attempt, Row(pairs[p], types)) ==>
      before + tried == Outcomes(attempt, Candidates(pairs[..p + 1], types))
  {
    assert pairs[..p + 1][..p] == pairs[..p];
    OutcomesConcat(attempt, Candidates(pairs[..p], types), Row(pairs[p], types));
    CandidatesPrefix(pairs, types, p + 1);
    OutcomesPrefix(attempt, Candidates(pairs[..p + 1], types), Candidates(pairs, types));
    var whole := Outcomes(attempt, Candidates(pairs[..p + 1], types));
    assert whole == before + Outcomes(attempt, Row(pairs[p], types));
    assert IsPrefix(before + tried, whole);
  }

  /** A trace of first tries ending in the only success found marks the first success. */
  lemma FoundAt(attempt: Candidate -> Outcome, cands: seq<Candidate>, trace: seq<Outcome>, d: VariableData)
    requires IsPrefix(trace, Outcomes(attempt, cands))
    requires |trace| > 0 && trace[|trace| - 1] == Success(d)
    requires FailsBefore(trace, |trace| - 1)
    ensures FirstSuccess(attempt, cands) == Some((|trace| - 1, d))
  {
    FirstSuccessAt(attempt, cands, |trace| - 1, d);
  }

  /** A full trace without a success means no combination succeeds. */
  lemma NoSuccessAtAll(attempt: Candidate -> Outcome, cands: seq<Candidate>, trace: seq<Outcome>)
    requires trace == Outcomes(attempt, cands)
    requires FailsBefore(trace, |trace|)
    ensures FirstSuccess(attempt, cands) == None
  {
    assert forall i :: 0 <= i < |cands| ==> !attempt(cands[i]).Success? by {
      forall i | 0 <= i < |cands|
        ensures !attempt(cands[i]).Success?
      {
        assert trace[i] == attempt(cands[i]);
      }
    }
  }

  /** A pair whose types all fail extends the failing trace by its whole row. */
  lemma SearchMissed(attempt: Candidate -> Outcome, pairs: seq<Pair>, types: seq<string>, p: nat,
                     before: seq<Outcome>, tried: seq<Outcome>)
    requires p < |pairs|
    requires before == Outcomes(attempt, Candidates(pairs[..p], types))
    requires FailsBefore(before, |before|)
    requires tried == Outcomes(attempt, Row(pairs[p], types))
    requires FailsBefore(tried, |tried|)
    ensures before + tried == Outcomes(attempt, Candidates(pairs[..p + 1], types))
    ensures FailsBefore(before + tried, |before + tried|)
  {
    SearchStep(attempt, pairs, types, p, before, tried);
    NoSuccessConcat(before, tried);
  }

  lemma NoSuccessConcat(a: seq<Outcome>, b: seq<Outcome>)
    requires FailsBefore(a, |a|)
    requires FailsBefore(b, |b|)
    ensures FailsBefore(a + b, |a + b|)
  {
    var all := a + b;
    forall i | 0 <= i < |all|
      ensures !all[i].Success?
    {
      if i < |a| {
        assert all[i] == a[i];
      } else {
        assert all[i] == b[i - |a|];
      }
    }
  }

  /** A pair with a succeeding type ends the trace at the first success overall. */
  lemma SearchFound(attempt: Candidate -> Outcome, pairs: seq<Pair>, types: seq<string>, p: nat,
                    before: seq<Outcome>, tried: seq<Outcome>, d: VariableData)
    requires p < |pairs|
    requires before == Outcomes(attempt, Candidates(pairs[..p], types))
    requires FailsBefore(before, |before|)
    requires IsPrefix(tried, Outcomes(attempt, Row(pairs[p], types)))
    requires |tried| > 0 && tried[|tried| - 1] == Success(d)
    requires FailsBefore(tried, |tried| - 1)
    ensures IsPrefix(before + tried, Outcomes(attempt, Candidates(pairs, types)))
    ensures (before + tried)[|before + tried| - 1] == Success(d)
    ensures FirstSuccess(attempt, Candidates(pairs, types)) == Some((|before + tried| - 1, d))
  {
    SearchStep(attempt, pairs, types, p, before, tried);
    NoSuccessBeforeLast(before, tried);
    FoundAt(attempt, Candidates(pairs, types), before + tried, d);
  }

  lemma NoSuccessBeforeLast(a: seq<Outcome>, b: seq<Outcome>)
    requires FailsBefore(a, |a|)
    requires |b| > 0 && FailsBefore(b, |b| - 1)
    ensures (a + b)[|a + b| - 1] == b[|b| - 1]
    ensures FailsBefore(a + b, |a + b| - 1)
  {
    var all := a + b;
    assert all[|all| - 1] == b[|b| - 1];
    forall i | 0 <= i < |all| - 1
      ensures !all[i].Success?
    {
      if i < |a| {
        assert all[i] == a[i];
      } else {
        assert all[i] == b[i - |a|];
      }
    }
  }

  /**
   * The two nested loops of `aggregate_data` for one variable: pairs in order, and for each
   * pair its types, until a try succeeds. `trace` records the outcome of every try made.
   */
  method Search(attempt: Candidate -> Outcome, pairs: seq<Pair>, types: seq<string>)
    returns (found: Option<VariableData>, ghost trace: seq<Outcome>)
    ensures found == (var r := FirstSuccess(attempt, Candidates(pairs, types)); if r.None? then None else Some(r.value.1))
    ensures IsPrefix(trace, Outcomes(attempt, Candidates(pairs, types)))
    ensures found.Some? ==> |trace| > 0 && trace[|trace| - 1] == Success(found.value)
    ensures found.None? ==> trace == Outcomes(attempt, Candidates(pairs, types))
  {
    found := None;
    trace := [];
    var processed := false;
    var p := 0;
    while p < |pairs|
      invariant 0 <= p <= |pairs|
      invariant !processed && found.None?
      invariant trace == Outcomes(attempt, Candidates(pairs[..p], types))
      invariant FailsBefore(trace, |trace|)
    {
      ghost var tried;
      found, tried := TryTypes(attempt, pairs[p], types);
      processed := found.Some?;
      if processed {
        SearchFound(attempt, pairs, types, p, trace, tried, found.value);
        trace := trace + tried;
        break;
      }
      SearchMissed(attempt, pairs, types, p, trace, tried);
      trace := trace + tried;
      p := p + 1;
    }
    if !processed {
      assert pairs[..p] == pairs;
      NoSuccessAtAll(attempt, Candidates(pairs, types), trace);
    }
  }

  /** Resolving one declaration: its pairs and types, each try running the processor named. */
  method ResolveVariable(t: Frame, decl: VarDecl) returns (found: Option<VariableData>, ghost trace: seq<Outcome>)
    ensures found == Resolved(t, decl)
    ensures IsPrefix(trace, Outcomes(TryOf(t, decl.metadata), Candidates(decl.pairs, TypeList(decl.types))))
    ensures found.Some? ==> |trace| > 0 && trace[|trace| - 1] == Success(found.value)
    ensures found.None? ==> trace == Outcomes(TryOf(t, decl.metadata), Candidates(decl.pairs, TypeList(decl.types)))
  {
    found, trace := Search(TryOf(t, decl.metadata), decl.pairs, TypeList(decl.types));
  }

  /** How a declaration gets resolved: for the modelled code, `ResolverOf(t)`. */
  function ResolverOf(t: Frame): VarDecl -> Option<VariableData>
  {
    (d: VarDecl) => Resolved(t, d)
  }

  /**
   * The `variable_data` dictionary of one section: each declaration that resolves is stored
   * under its name. A configured section is a dictionary, so its names are distinct
   * (`VariablesOfDistinct`); over a sequence that repeats a name, the last declaration of that
   * name that resolves is the one kept.
   */
  function VariablesOf(resolve: VarDecl -> Option<VariableData>, vars: seq<(string, VarDecl)>): (m: map<string, VariableData>)
    ensures forall k :: k in m <==> exists i :: 0 <= i < |vars| && vars[i].0 == k && resolve(vars[i].1).Some?
    ensures forall k :: k in m ==> exists i :: 0 <= i < |vars| && vars[i].0 == k && resolve(vars[i].1) == Some(m[k])
  {
    if |vars| == 0 then map[]
    else
      var pre := vars[..|vars| - 1];
      var (name, decl) := vars[|vars| - 1];
      var m := VariablesOf(resolve, pre);
      assert forall i :: 0 <= i < |pre| ==> pre[i] == vars[i];
      match resolve(decl)
      case None => m
      case Some(d) => m[name := d]
  }

  /** With distinct names, a name is stored exactly when its own declaration resolves, with that result. */
  lemma {:induction false} VariablesOfDistinct(resolve: VarDecl -> Option<VariableData>, vars: seq<(string, VarDecl)>)
    requires forall i, j :: 0 <= i < j < |vars| ==> vars[i].0 != vars[j].0
    ensures forall i :: 0 <= i < |vars| ==>
      (vars[i].0 in VariablesOf(resolve, vars) <==> resolve(vars[i].1).Some?)
    ensures forall i :: 0 <= i < |vars| && resolve(vars[i].1).Some? ==>
      VariablesOf(resolve, vars)[vars[i].0] == resolve(vars[i].1).value
  {
    if |vars| > 0 {
      var pre := vars[..|vars| - 1];
      VariablesOfDistinct(resolve, pre);
      assert forall i :: 0 <= i < |pre| ==> pre[i] == vars[i];
    }
  }

  /**
   * `aggregate_data`: one section per configured section, in order, with empty content; a
   * title the section model refuses aborts the whole aggregation.
   */
  function Aggregate(resolve: VarDecl -> Option<VariableData>, secs: seq<SectionDecl>): (r: Result<seq<ReportSection>>)
    ensures r.Err? ==> r.error == TitleLength
    ensures r.Ok? ==> |r.value| == |secs|
  {
    if |secs| == 0 then Ok([])
    else
      var pre := secs[..|secs| - 1];
      var last := secs[|secs| - 1];
      var init :- Aggregate(resolve, pre);
      var section :- NewReportSection(last.title, "", VariablesOf(resolve, last.vars));
      Ok(init + [section])
  }

  /** Aggregation fails exactly when some title is refused. */
  lemma {:induction false} AggregateFailsIff(resolve: VarDecl -> Option<VariableData>, secs: seq<SectionDecl>)
    ensures Aggregate(resolve, secs).Err? <==> exists i :: 0 <= i < |secs| && !ValidTitle(secs[i].title)
  {
    if |secs| > 0 {
      var pre := secs[..|secs| - 1];
      AggregateFailsIff(resolve, pre);
      assert forall i :: 0 <= i < |pre| ==> pre[i] == secs[i];
    }
  }

  /**
   * On success, section `i` of the report carries title `i`, no text yet, and the
   * dictionary of section `i`'s declarations.
   */
  lemma {:induction false} AggregateSections(resolve: VarDecl -> Option<VariableData>, secs: seq<SectionDecl>)
    requires Aggregate(resolve, secs).Ok?
    ensures var r := Aggregate(resolve, secs).value;
      forall i :: 0 <= i < |secs| ==>
        r[i].title == secs[i].title && r[i].content == ""
        && r[i].variables == VariablesOf(resolve, secs[i].vars) && r[i].cohortDetails.None?
  {
    if |secs| > 0 {
      var pre := secs[..|secs| - 1];
      var last := secs[|secs| - 1];
      var init := Aggregate(resolve, pre).value;
      var section := NewReportSection(last.title, "", VariablesOf(resolve, last.vars)).value;
      assert Aggregate(resolve, secs).value == init + [section];
      AggregateSections(resolve, pre);
      assert forall i :: 0 <= i < |pre| ==> pre[i] == secs[i];
    }
  }

  /** A declaration's `type` entry rewritten into a list leaves its resolution unchanged. */
  lemma ResolvedIgnoresNormalisation(t: Frame, d: VarDecl)
    ensures Resolved(t, Normalised(d)) == Resolved(t, d)
  {
  }

  /** The first `n` declarations of a section after `aggregate_data` rewrote their `type` entries. */
  function NormaliseVars(vars: seq<(string, VarDecl)>, n: nat): (r: seq<(string, VarDecl)>)
    ensures |r| == |vars|
    ensures forall i :: 0 <= i < |vars| ==> (r[i].0 == vars[i].0 && r[i].1.pairs == vars[i].1.pairs
      && r[i].1.metadata == vars[i].1.metadata && TypeList(r[i].1.types) == TypeList(vars[i].1.types))
    ensures forall i :: 0 <= i < |vars| ==> r[i] == (if i < n then (vars[i].0, Normalised(vars[i].1)) else vars[i])
  {
    seq(|vars|, i requires 0 <= i < |vars| => if i < n then (vars[i].0, Normalised(vars[i].1)) else vars[i])
  }

  function NormaliseSection(sec: SectionDecl, n: nat): SectionDecl
  {
    SectionDecl(sec.title, NormaliseVars(sec.vars, n))
  }

  /** The configuration after the first `s` sections had all their declarations rewritten. */
  function NormalisedThrough(secs: seq<SectionDecl>, s: nat): (r: seq<SectionDecl>)
    ensures |r| == |secs|
    ensures forall i :: 0 <= i < |secs| ==>
      r[i] == (if i < s then NormaliseSection(secs[i], |secs[i].vars|) else secs[i])
  {
    seq(|secs|, i requires 0 <= i < |secs| => if i < s then NormaliseSection(secs[i], |secs[i].vars|) else secs[i])
  }

  /** Declarations that agree name by name and resolve alike give the same dictionary. */
  lemma {:induction false} VariablesOfAlike(resolve: VarDecl -> Option<VariableData>,
                                            a: seq<(string, VarDecl)>, b: seq<(string, VarDecl)>)
    requires |a| == |b|
    requires forall i :: 0 <= i < |a| ==> a[i].0 == b[i].0 && resolve(a[i].1) == resolve(b[i].1)
    ensures VariablesOf(resolve, a) == VariablesOf(resolve, b)
  {
    if |a| > 0 {
      VariablesOfAlike(resolve, a[..|a| - 1], b[..|b| - 1]);
    }
  }

  /** Sections that agree title by title and dictionary by dictionary aggregate alike. */
  lemma {:induction false} AggregateAlike(resolve: VarDecl -> Option<VariableData>, a: seq<SectionDecl>, b: seq<SectionDecl>)
    requires |a| == |b|
    requires forall i :: 0 <= i < |a| ==>
      a[i].title == b[i].title && VariablesOf(resolve, a[i].vars) == VariablesOf(resolve, b[i].vars)
    ensures Aggregate(resolve, a) == Aggregate(resolve, b)
  {
    if |a| > 0 {
      AggregateAlike(resolve, a[..|a| - 1], b[..|b| - 1]);
    }
  }

  /**
   * Aggregating again over a configuration that an earlier run rewrote gives the same
   * sections: the in-place rewriting of `type` entries is harmless.
   */
  lemma AggregateIgnoresNormalisation(t: Frame, secs: seq<SectionDecl>, s: nat)
    ensures Aggregate(ResolverOf(t), NormalisedThrough(secs, s)) == Aggregate(ResolverOf(t), secs)
  {
    var n := NormalisedThrough(secs, s);
    var resolve := ResolverOf(t);
    forall i | 0 <= i < |secs|
      ensures n[i].title == secs[i].title && VariablesOf(resolve, n[i].vars) == VariablesOf(resolve, secs[i].vars)
    {
      if i < s {
        var nv := NormaliseVars(secs[i].vars, |secs[i].vars|);
        forall j | 0 <= j < |nv|
          ensures nv[j].0 == secs[i].vars[j].0 && resolve(nv[j].1) == resolve(secs[i].vars[j].1)
        {
          ResolvedIgnoresNormalisation(t, secs[i].vars[j].1);
        }
        VariablesOfAlike(resolve, nv, secs[i].vars);
      }
    }
    AggregateAlike(resolve, n, secs);
  }

  lemma VariablesOfStep(resolve: VarDecl -> Option<VariableData>, vars: seq<(string, VarDecl)>, v: nat)
    requires v < |vars|
    ensures VariablesOf(resolve, vars[..v + 1])
         == if resolve(vars[v].1).Some? then VariablesOf(resolve, vars[..v])[vars[v].0 := resolve(vars[v].1).value]
            else VariablesOf(resolve, vars[..v])
  {
    assert vars[..v + 1][..v] == vars[..v];
  }

  /** Rewriting declaration `v` of a section whose first `v` were rewritten gives the first `v + 1` rewritten. */
  lemma NormaliseStep(sec: SectionDecl, v: nat)
    requires v < |sec.vars|
    ensures
      var cur := NormaliseSection(sec, v);
      cur.(vars := cur.vars[v := (sec.vars[v].0, Normalised(sec.vars[v].1))]) == NormaliseSection(sec, v + 1)
  {
    var cur := NormaliseSection(sec, v);
    var a := cur.vars[v := (sec.vars[v].0, Normalised(sec.vars[v].1))];
    var b := NormaliseVars(sec.vars, v + 1);
    assert |a| == |b|;
    forall i | 0 <= i < |a|
      ensures a[i] == b[i]
    {
    }
    assert a == b;
  }

  lemma NormalisedThroughStep(secs: seq<SectionDecl>, s: nat)
    requires s < |secs|
    ensures NormalisedThrough(secs, s)[s := NormaliseSection(secs[s], |secs[s].vars|)] == NormalisedThrough(secs, s + 1)
  {
  }

  /** One more section built on a successful prefix extends the result by that section. */
  lemma AggregateStep(resolve: VarDecl -> Option<VariableData>, secs: seq<SectionDecl>, s: nat,
                      done: seq<ReportSection>, next: ReportSection)
    requires s < |secs|
    requires Aggregate(resolve, secs[..s]) == Ok(done)
    requires NewReportSection(secs[s].title, "", VariablesOf(resolve, secs[s].vars)) == Ok(next)
    ensures Aggregate(resolve, secs[..s + 1]) == Ok(done + [next])
  {
    assert secs[..s + 1][..s] == secs[..s];
  }

  /** The first refused title makes the whole aggregation fail. */
  lemma AggregateStopsAt(resolve: VarDecl -> Option<VariableData>, secs: seq<SectionDecl>, s: nat)
    requires s < |secs|
    requires Aggregate(resolve, secs[..s]).Ok?
    requires !ValidTitle(secs[s].title)
    ensures Aggregate(resolve, secs) == Err(TitleLength)
    ensures forall i :: 0 <= i < s ==> ValidTitle(secs[i].title)
  {
    AggregateFailsIff(resolve, secs);
    AggregateFailsIff(resolve, secs[..s]);
    assert forall i :: 0 <= i < s ==> secs[..s][i] == secs[i];
  }

  /** The configuration dictionary `aggregate_data` receives, and rewrites in place. */
  class ConfigStore {
    var sections: seq<SectionDecl>

    constructor(sections: seq<SectionDecl>)
      ensures this.sections == sections
    {
      this.sections := sections;
    }

    /**
     * The loop over one section's variables: each declaration's `type` entry is rewritten
     * into a list, then the declaration is resolved into the section's dictionary.
     */
    method ResolveSection(t: Frame, s: nat) returns (variableData: map<string, VariableData>)
      requires s < |sections|
      modifies this
      ensures sections == old(sections)[s := NormaliseSection(old(sections)[s], |old(sections)[s].vars|)]
      ensures variableData == VariablesOf(ResolverOf(t), old(sections)[s].vars)
    {
      var section := sections[s];
      variableData := map[];
      var v := 0;
      assert NormaliseSection(section, 0) == section;
      while v < |section.vars|
        invariant 0 <= v <= |section.vars|
        invariant sections == old(sections)[s := NormaliseSection(section, v)]
        invariant variableData == VariablesOf(ResolverOf(t), section.vars[..v])
      {
        var (name, decl) := section.vars[v];
        var current := sections[s];
        NormaliseStep(section, v);
        sections := sections[s := current.(vars := current.vars[v := (name, Normalised(decl))])];
        var found, trace := ResolveVariable(t, Normalised(decl));
        ResolvedIgnoresNormalisation(t, decl);
        VariablesOfStep(ResolverOf(t), section.vars, v);
        assert ResolverOf(t)(decl) == found;
        if found.Some? {
          variableData := variableData[name := found.value];
        }
        v := v + 1;
      }
      assert section.vars[..v] == section.vars;
    }

    /**
     * `aggregate_data(df, sections_config)`: on success every declaration's `type` entry has
     * been rewritten into a list; when a title aborts the run, the sections up to and
     * including that one have been.
     */
    method AggregateData(t: Frame) returns (r: Result<seq<ReportSection>>)
      modifies this
      ensures r == Aggregate(ResolverOf(t), old(sections))
      ensures r.Ok? ==> sections == NormalisedThrough(old(sections), |old(sections)|)
      ensures r.Err? ==> exists s :: (0 <= s < |old(sections)| && !ValidTitle(old(sections)[s].title)
        && (forall i :: 0 <= i < s ==> ValidTitle(old(sections)[i].title))
        && sections == NormalisedThrough(old(sections), s + 1))
    {
      ghost var original := sections;
      var reportSections: seq<ReportSection> := [];
      var s := 0;
      while s < |sections|
        invariant 0 <= s <= |original| == |sections|
        invariant sections == NormalisedThrough(original, s)
        invariant Aggregate(ResolverOf(t), original[..s]) == Ok(reportSections)
      {
        var title := sections[s].title;
        var variableData := ResolveSection(t, s);
        NormalisedThroughStep(original, s);
        var built := NewReportSection(title, "", variableData);
        if built.Err? {
          AggregateStopsAt(ResolverOf(t), original, s);
          return Err(built.error);
        }
        AggregateStep(ResolverOf(t), original, s, reportSections, built.value);
        reportSections := reportSections + [built.value];
        s := s + 1;
      }
      assert original[..s] == original;
      r := Ok(reportSections);
    }
  }
}
