/** How the configuration declares variables: column references, pairs, kinds and metadata. */
module Declarations {
  import opened Wrappers
  import opened Frame

  /**
   * A column reference as the configuration writes it: None, one column name, a list of
   * names, or a (numerators, denominators) tuple for an indicator.
   */
  datatype Ref = NoRef | Col(name: string) | Cols(names: seq<string>) | Ratio(nums: Ref, dens: Ref)

  /** An (initial, final) column pair. */
  datatype Pair = Pair(initial: Ref, final: Ref)

  /** The metadata dictionary: `name`, `mapping` and `calculation` are optional keys. */
  datatype Metadata = Metadata(
    name: Option<string>,
    description: string,
    mapping: Option<seq<string>>,
    calculation: Option<string>)

  /** The `type` entry: one type name, or a list tried in order. */
  datatype TypeSpec = One(name: string) | Many(names: seq<string>)

  /** One variable of the nested configuration: its candidate pairs, its types and metadata. */
  datatype VarDecl = VarDecl(pairs: seq<Pair>, types: TypeSpec, metadata: Metadata)

  /** One section of the nested configuration: its title and its variables, keyed by name. */
  datatype SectionDecl = SectionDecl(title: string, vars: seq<(string, VarDecl)>)

  /** One `[pair, type, metadata]` entry of the flat configuration. */
  datatype Triple = Triple(pair: Pair, types: TypeSpec, metadata: Metadata)

  const NUMERIC: string := "numeric"
  const BOOLEAN: string := "boolean"
  const CATEGORICAL: string := "categorical"
  const ARRAY: string := "array"
  const DUMMY: string := "dummy"
  const INDICATOR: string := "indicator"

  /** Python refuses to hash a list, and a tuple that holds one. */
  predicate Hashable(r: Ref)
  {
    match r
    case Cols(_) => false
    case Ratio(a, b) => Hashable(a) && Hashable(b)
    case _ => true
  }

  /** `ref in df.columns`: only a present column name is in; an unhashable reference raises. */
  function Contains(t: Frame, r: Ref): (res: Result<bool>)
    ensures res.Err? <==> !Hashable(r)
    ensures res == Ok(true) <==> r.Col? && r.name in t.columns
  {
    if !Hashable(r) then Err(TypeMismatch) else Ok(r.Col? && r.name in t.columns)
  }

  /** Python truthiness: None, "" and [] are false; a tuple is true. */
  predicate Truthy(r: Ref)
  {
    match r
    case NoRef => false
    case Col(s) => s != ""
    case Cols(l) => l != []
    case Ratio(_, _) => true
  }

  /** `(a, b) = ref`: a tuple, a two-element list or a two-character string unpacks; anything else raises. */
  function Unpack(r: Ref): (res: Result<(Ref, Ref)>)
    ensures r.Ratio? ==> res == Ok((r.nums, r.dens))
    ensures r.NoRef? ==> res.Err?
  {
    match r
    case Ratio(a, b) => Ok((a, b))
    case Cols(l) => if |l| == 2 then Ok((Col(l[0]), Col(l[1]))) else Err(TypeMismatch)
    case Col(s) => if |s| == 2 then Ok((Col([s[0]]), Col([s[1]]))) else Err(TypeMismatch)
    case NoRef => Err(TypeMismatch)
  }

  /** The list of type names a `type` entry stands for. */
  function TypeList(ts: TypeSpec): (names: seq<string>)
    ensures ts.One? ==> names == [ts.name]
    ensures ts.Many? ==> names == ts.names
  {
    match ts
    case One(n) => [n]
    case Many(ns) => ns
  }

  /** The `type` entry after `aggregate_data` rewrote a bare name into a one-element list. */
  function Normalised(d: VarDecl): (n: VarDecl)
    ensures n.types.Many? && TypeList(n.types) == TypeList(d.types)
    ensures n.pairs == d.pairs && n.metadata == d.metadata
  {
    d.(types := Many(TypeList(d.types)))
  }

  /** The listed names that are columns of `t`, in order (`[c for c in names if c in df.columns]`). */
  function Present(t: Frame, names: seq<string>): (r: seq<string>)
    ensures |r| <= |names|
    ensures forall c :: c in r <==> c in names && c in t.columns
  {
    if |names| == 0 then []
    else
      var rest := Present(t, names[..|names| - 1]);
      assert names == names[..|names| - 1] + [names[|names| - 1]];
      if names[|names| - 1] in t.columns then rest + [names[|names| - 1]] else rest
  }

  /** `any(col in df.columns for col in names)`. */
  predicate AnyPresent(t: Frame, names: seq<string>)
  {
    exists i :: 0 <= i < |names| && names[i] in t.columns
  }

  lemma PresentEmptyIffNoneAny(t: Frame, names: seq<string>)
    ensures Present(t, names) == [] <==> !AnyPresent(t, names)
  {
    if AnyPresent(t, names) {
      var i :| 0 <= i < |names| && names[i] in t.columns;
      assert names[i] in Present(t, names);
    }
    if Present(t, names) != [] {
      assert Present(t, names)[0] in Present(t, names);
    }
  }
}
