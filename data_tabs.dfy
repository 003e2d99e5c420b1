/**
 * The availability screen: which declared variables the loaded table can feed, and the
 * partition of every section into available declarations and labels of missing ones.
 */
module DataTabs {
  import opened Wrappers
  import opened Frame
  import opened Declarations

  /** A declaration whose kind is the bare name "indicator" (a one-element list is not). */
  predicate IsIndicator(c: Triple)
  {
    c.types == One(INDICATOR)
  }

  /** A side that is a list counts as present exactly when one of its columns is. */
  predicate ListSideSeen(t: Frame, r: Ref)
  {
    !r.Cols? || AnyPresent(t, r.names)
  }

  /**
   * Whether the table can feed the declaration `c`; an error is a Python exception that
   * escapes the check (an unpacking failure, or a list tested for membership in the columns).
   */
  function Availability(t: Frame, c: Triple): Result<bool>
  {
    if IsIndicator(c) then
      var initial :- Unpack(c.pair.initial);
      var final :- Unpack(c.pair.final);
      if final.0.Cols? then Ok(ListSideSeen(t, initial.0) && AnyPresent(t, final.0.names))
      else
        var has :- Contains(t, final.0);
        Ok(ListSideSeen(t, initial.0) && has)
    else PairSeen(t, c.pair.initial, c.pair.final)
  }

  /** The test of a two-sided pair: a truthy baseline must be seen, and the final column present. */
  function PairSeen(t: Frame, initial: Ref, final: Ref): Result<bool>
  {
    var initialSeen :-
      if !Truthy(initial) then Ok(true)
      else if initial.Cols? then Ok(AnyPresent(t, initial.names))
      else Contains(t, initial);
    var has :- Contains(t, final);
    Ok(initialSeen && has)
  }

  /**
   * The check as the screen calls it on the nested dictionaries of `get_sections_config`:
   * iterating a section's dictionary yields its keys, so each declaration handed over is a
   * variable key, and `var_pair, var_type, metadata = var_config` unpacks its characters.
   * Only a three-character key gets past that, and then `var_pair` is one character, which
   * the unpacking of the pair (in the indicator branch and the other alike) cannot split in two.
   */
  function KeyAvailability(t: Frame, key: string): (r: Result<bool>)
    ensures r.Err?
  {
    if |key| != 3 then Err(TypeMismatch)
    else
      match Unpack(Col([key[0]]))
      case Err(e) => Err(e)
      case Ok(sides) => PairSeen(t, sides.0, sides.1)
  }

  /** The check as the screen runs it: a flag that each failed test clears; the metadata is passed back. */
  method CheckVariableAvailability(t: Frame, c: Triple) returns (r: Result<(bool, Metadata)>)
    ensures Availability(t, c).Ok? ==> r == Ok((Availability(t, c).value, c.metadata))
    ensures Availability(t, c).Err? ==> r == Err(Availability(t, c).error)
  {
    var isAvailable := true;
    if c.types == One(INDICATOR) {
      var initial := Unpack(c.pair.initial);
      if initial.Err? {
        return Err(initial.error);
      }
      var final := Unpack(c.pair.final);
      if final.Err? {
        return Err(final.error);
      }
      var initialNums, finalNum := initial.value.0, final.value.0;
      if initialNums.Cols? && !AnyPresent(t, initialNums.names) {
        isAvailable := false;
      }
      if finalNum.Cols? {
        if !AnyPresent(t, finalNum.names) {
          isAvailable := false;
        }
      } else {
        var has := Contains(t, finalNum);
        if has.Err? {
          return Err(has.error);
        }
        if !has.value {
          isAvailable := false;
        }
      }
    } else {
      var initial, final := c.pair.initial, c.pair.final;
      if Truthy(initial) {
        if initial.Cols? {
          if !AnyPresent(t, initial.names) {
            isAvailable := false;
          }
        } else {
          var has := Contains(t, initial);
          if has.Err? {
            return Err(has.error);
          }
          if !has.value {
            isAvailable := false;
          }
        }
      }
      var has := Contains(t, final);
      if has.Err? {
        return Err(has.error);
      }
      if !has.value {
        isAvailable := false;
      }
    }
    return Ok((isAvailable, c.metadata));
  }

  /** For an indicator only the numerators are examined: the denominators never matter. */
  lemma IndicatorIgnoresDenominators(t: Frame, c: Triple, initialDens: Ref, finalDens: Ref)
    requires IsIndicator(c) && c.pair.initial.Ratio? && c.pair.final.Ratio?
    ensures Availability(t, c) ==
      Availability(t, c.(pair := Pair(Ratio(c.pair.initial.nums, initialDens), Ratio(c.pair.final.nums, finalDens))))
  {
  }

  /** An indicator whose initial numerator is one column name is decided by its final numerator alone. */
  lemma IndicatorNameNumeratorNeverBlocks(t: Frame, c: Triple)
    requires IsIndicator(c) && c.pair.initial.Ratio? && c.pair.final.Ratio?
    requires c.pair.initial.nums.Col? && c.pair.final.nums.Col?
    ensures Availability(t, c) == Ok(c.pair.final.nums.name in t.columns)
  {
  }

  /** An indicator over lists is available exactly when each side has a present numerator column. */
  lemma IndicatorListsNeedOnePresent(t: Frame, c: Triple)
    requires IsIndicator(c) && c.pair.initial.Ratio? && c.pair.final.Ratio?
    requires c.pair.initial.nums.Cols? && c.pair.final.nums.Cols?
    ensures Availability(t, c) ==
      Ok(AnyPresent(t, c.pair.initial.nums.names) && AnyPresent(t, c.pair.final.nums.names))
  {
  }

  /** For any other kind, a list baseline counts exactly when one of its columns is present. */
  lemma ListBaselineNeedsOnePresent(t: Frame, c: Triple)
    requires !IsIndicator(c) && c.pair.initial.Cols? && |c.pair.initial.names| > 0 && c.pair.final.Col?
    ensures Availability(t, c) == Ok(AnyPresent(t, c.pair.initial.names) && c.pair.final.name in t.columns)
  {
  }

  /** For any other kind, a missing baseline (None or an empty list) is not examined. */
  lemma FalsyBaselineSkipped(t: Frame, c: Triple)
    requires !IsIndicator(c) && !Truthy(c.pair.initial)
    ensures Availability(t, c) == Contains(t, c.pair.final)
  {
  }

  /** For any other kind, an available declaration has a final reference that is a present column. */
  lemma AvailableHasFinalColumn(t: Frame, c: Triple)
    requires !IsIndicator(c)
    ensures Availability(t, c) == Ok(true) ==> c.pair.final.Col? && c.pair.final.name in t.columns
    ensures c.pair.final.Cols? ==> Availability(t, c).Err?
  {
  }

  /** The label of a missing variable, `"description (name)"`; a metadata without a name raises. */
  function Label(md: Metadata): (r: Result<string>)
    ensures md.name.None? <==> r == Err(MissingKey("name"))
    ensures md.name.Some? ==> r.Ok? && r.value == md.description + " (" + md.name.value + ")"
  {
    if md.name.None? then Err(MissingKey("name")) else Ok(md.description + " (" + md.name.value + ")")
  }

  /** Where one declaration goes: `None` when available, the label of the missing variable otherwise. */
  function Classify(t: Frame, c: Triple): Result<Option<string>>
  {
    var available :- Availability(t, c);
    if available then Ok(None)
    else
      var text :- Label(c.metadata);
      Ok(Some(text))
  }

  /** One section's declarations split into the available ones and the labels of the missing ones. */
  function Partition(t: Frame, cs: seq<Triple>): (r: Result<(seq<Triple>, seq<string>)>)
    ensures r.Ok? ==> |r.value.0| + |r.value.1| == |cs|
  {
    if |cs| == 0 then Ok(([], []))
    else
      var rest :- Partition(t, cs[..|cs| - 1]);
      var place :- Classify(t, cs[|cs| - 1]);
      if place.None? then Ok((rest.0 + [cs[|cs| - 1]], rest.1)) else Ok((rest.0, rest.1 + [place.value]))
  }

  /** Every declaration the partition lists as available passes the check, and it keeps their order. */
  lemma {:induction false} PartitionKeepsAvailable(t: Frame, cs: seq<Triple>)
    requires Partition(t, cs).Ok?
    ensures forall j :: 0 <= j < |Partition(t, cs).value.0| ==> Availability(t, Partition(t, cs).value.0[j]) == Ok(true)
    ensures forall j :: 0 <= j < |Partition(t, cs).value.0| ==> Partition(t, cs).value.0[j] in cs
  {
    if |cs| > 0 {
      var init := cs[..|cs| - 1];
      assert Partition(t, init).Ok?;
      PartitionKeepsAvailable(t, init);
      var p := Partition(t, init).value.0;
      assert forall j :: 0 <= j < |p| ==> p[j] in cs by {
        forall j | 0 <= j < |p|
          ensures p[j] in cs
        {
          assert p[j] in init;
        }
      }
    }
  }

  /** The partition fails exactly when checking or labelling some declaration fails. */
  lemma {:induction false} PartitionFailsIffSomeDeclarationFails(t: Frame, cs: seq<Triple>)
    ensures Partition(t, cs).Err? <==> exists i :: 0 <= i < |cs| && Classify(t, cs[i]).Err?
  {
    if |cs| > 0 {
      var init := cs[..|cs| - 1];
      PartitionFailsIffSomeDeclarationFails(t, init);
      if Partition(t, init).Err? {
        var i :| 0 <= i < |init| && Classify(t, init[i]).Err?;
        assert cs[i] == init[i];
      }
      if i :| 0 <= i < |cs| && Classify(t, cs[i]).Err? {
        if i < |init| {
          assert init[i] == cs[i];
        }
      }
    }
  }

  /** Partitioning two runs of declarations one after the other is partitioning them together. */
  lemma {:induction false} PartitionAppend(t: Frame, xs: seq<Triple>, ys: seq<Triple>)
    requires Partition(t, xs).Ok? && Partition(t, ys).Ok?
    ensures Partition(t, xs + ys) ==
      Ok((Partition(t, xs).value.0 + Partition(t, ys).value.0, Partition(t, xs).value.1 + Partition(t, ys).value.1))
    decreases |ys|
  {
    if |ys| == 0 {
      assert xs + ys == xs;
      var a := Partition(t, xs).value;
      assert a.0 + [] == a.0 && a.1 + [] == a.1;
    } else {
      var init := ys[..|ys| - 1];
      assert (xs + ys)[..|xs + ys| - 1] == xs + init;
      assert (xs + ys)[|xs + ys| - 1] == ys[|ys| - 1];
      assert Partition(t, init).Ok?;
      PartitionAppend(t, xs, init);
      var a, b := Partition(t, xs).value, Partition(t, init).value;
      if Classify(t, ys[|ys| - 1]).value.None? {
        assert a.0 + (b.0 + [ys[|ys| - 1]]) == (a.0 + b.0) + [ys[|ys| - 1]];
      } else {
        assert a.1 + (b.1 + [Classify(t, ys[|ys| - 1]).value.value]) == (a.1 + b.1) + [Classify(t, ys[|ys| - 1]).value.value];
      }
    }
  }

  /** A single declaration goes to the available list, or its label to the missing list. */
  lemma PartitionSingle(t: Frame, c: Triple)
    requires Classify(t, c).Ok?
    ensures Availability(t, c) == Ok(true) ==> Partition(t, [c]) == Ok(([c], []))
    ensures Availability(t, c) == Ok(false) ==> Partition(t, [c]) == Ok(([], [Label(c.metadata).value]))
  {
    assert [c][..0] == [];
    assert Partition(t, [c][..0]) == Ok(([], []));
    assert [] + [c] == [c];
    if Availability(t, c) == Ok(false) {
      var text := Label(c.metadata).value;
      assert Classify(t, c) == Ok(Some(text));
      assert [] + [text] == [text];
    }
  }

  /** Titles with their available declarations, and titles with their missing labels. */
  type Screen = (map<string, seq<Triple>>, map<string, seq<string>>)

  /** The screen after every section is partitioned, in order; a section enters a map only with a non-empty list. */
  function Screening(t: Frame, config: seq<(string, seq<Triple>)>): (r: Result<Screen>)
  {
    if |config| == 0 then Ok((map[], map[]))
    else
      var rest :- Screening(t, config[..|config| - 1]);
      var title := config[|config| - 1].0;
      var part :- Partition(t, config[|config| - 1].1);
      Ok((if |part.0| > 0 then rest.0[title := part.0] else rest.0,
          if |part.1| > 0 then rest.1[title := part.1] else rest.1))
  }

  /** A section whose partition fails makes the whole screening fail. */
  lemma {:induction false} FailingSectionFailsScreening(t: Frame, config: seq<(string, seq<Triple>)>, i: int)
    requires 0 <= i < |config| && Partition(t, config[i].1).Err?
    ensures Screening(t, config).Err?
    decreases |config|
  {
    var n := |config| - 1;
    var init := config[..n];
    if i < n {
      assert init[i] == config[i];
      FailingSectionFailsScreening(t, init, i);
    }
  }

  /** A failing screening has a section whose partition fails. */
  lemma {:induction false} FailedScreeningHasFailingSection(t: Frame, config: seq<(string, seq<Triple>)>)
    requires Screening(t, config).Err?
    ensures exists i :: 0 <= i < |config| && Partition(t, config[i].1).Err?
  {
    var n := |config| - 1;
    var init := config[..n];
    if Screening(t, init).Err? {
      FailedScreeningHasFailingSection(t, init);
      var i :| 0 <= i < |init| && Partition(t, init[i].1).Err?;
      assert config[i] == init[i];
    } else {
      assert Partition(t, config[n].1).Err?;
    }
  }

  /** The screening fails exactly when some section's partition does. */
  lemma ScreeningFailsIffSomeSectionFails(t: Frame, config: seq<(string, seq<Triple>)>)
    ensures Screening(t, config).Err? <==> exists i :: 0 <= i < |config| && Partition(t, config[i].1).Err?
  {
    if Screening(t, config).Err? {
      FailedScreeningHasFailingSection(t, config);
    }
    if i :| 0 <= i < |config| && Partition(t, config[i].1).Err? {
      FailingSectionFailsScreening(t, config, i);
    }
  }

  /** The last section with a given title and a non-empty available (`missing` false) or missing list decides that title. */
  predicate Listed(t: Frame, config: seq<(string, seq<Triple>)>, i: int, missing: bool)
    requires 0 <= i < |config|
  {
    && Partition(t, config[i].1).Ok?
    && (if missing then |Partition(t, config[i].1).value.1| > 0 else |Partition(t, config[i].1).value.0| > 0)
  }

  /** The screen of a non-empty configuration, from the screen of all but its last section. */
  lemma ScreeningLast(t: Frame, config: seq<(string, seq<Triple>)>)
    requires |config| > 0 && Screening(t, config).Ok?
    ensures Screening(t, config[..|config| - 1]).Ok? && Partition(t, config[|config| - 1].1).Ok?
    ensures
      var p := Screening(t, config[..|config| - 1]).value;
      var part := Partition(t, config[|config| - 1].1).value;
      var title := config[|config| - 1].0;
      Screening(t, config).value ==
        (if |part.0| > 0 then p.0[title := part.0] else p.0, if |part.1| > 0 then p.1[title := part.1] else p.1)
  {
  }

  /** With distinct titles, the last title is in neither map of the sections before it. */
  lemma TitleIsNew(t: Frame, config: seq<(string, seq<Triple>)>)
    requires forall i, j :: 0 <= i < j < |config| ==> config[i].0 != config[j].0
    requires |config| > 0 && Screening(t, config[..|config| - 1]).Ok?
    ensures config[|config| - 1].0 !in Screening(t, config[..|config| - 1]).value.0
    ensures config[|config| - 1].0 !in Screening(t, config[..|config| - 1]).value.1
  {
    var n := |config| - 1;
    var init := config[..n];
    KeysAreTitles(t, init);
    forall j | 0 <= j < |init|
      ensures init[j].0 != config[n].0
    {
      assert init[j] == config[j];
    }
  }

  /**
   * With distinct titles, the title of section `i` is a key of the available map exactly when
   * that section has an available declaration, and then it maps to that section's available
   * list; likewise for the missing map and the missing labels.
   */
  lemma {:induction false} KeyOfSection(t: Frame, config: seq<(string, seq<Triple>)>, i: int)
    requires forall i, j :: 0 <= i < j < |config| ==> config[i].0 != config[j].0
    requires Screening(t, config).Ok? && 0 <= i < |config|
    ensures config[i].0 in Screening(t, config).value.0 <==> Listed(t, config, i, false)
    ensures Listed(t, config, i, false) ==> Screening(t, config).value.0[config[i].0] == Partition(t, config[i].1).value.0
    ensures config[i].0 in Screening(t, config).value.1 <==> Listed(t, config, i, true)
    ensures Listed(t, config, i, true) ==> Screening(t, config).value.1[config[i].0] == Partition(t, config[i].1).value.1
    decreases |config|
  {
    var n := |config| - 1;
    var init := config[..n];
    ScreeningLast(t, config);
    if i < n {
      KeyOfSection(t, init, i);
      assert config[i] == init[i];
      assert config[i].0 != config[n].0;
      assert Listed(t, config, i, false) == Listed(t, init, i, false);
      assert Listed(t, config, i, true) == Listed(t, init, i, true);
    } else {
      TitleIsNew(t, config);
    }
  }

  /** The same for every section at once. */
  lemma ScreeningKeys(t: Frame, config: seq<(string, seq<Triple>)>)
    requires forall i, j :: 0 <= i < j < |config| ==> config[i].0 != config[j].0
    requires Screening(t, config).Ok?
    ensures forall i :: 0 <= i < |config| ==>
      && (config[i].0 in Screening(t, config).value.0 <==> Listed(t, config, i, false))
      && (config[i].0 in Screening(t, config).value.1 <==> Listed(t, config, i, true))
  {
    forall i | 0 <= i < |config|
      ensures config[i].0 in Screening(t, config).value.0 <==> Listed(t, config, i, false)
      ensures config[i].0 in Screening(t, config).value.1 <==> Listed(t, config, i, true)
    {
      KeyOfSection(t, config, i);
    }
  }

  /** Every key of either map is the title of some section. */
  lemma {:induction false} KeysAreTitles(t: Frame, config: seq<(string, seq<Triple>)>)
    requires Screening(t, config).Ok?
    ensures forall k :: k in Screening(t, config).value.0 || k in Screening(t, config).value.1 ==>
      exists i :: 0 <= i < |config| && config[i].0 == k
  {
    if |config| > 0 {
      var n := |config| - 1;
      var init := config[..n];
      ScreeningLast(t, config);
      KeysAreTitles(t, init);
      var s := Screening(t, config).value;
      var p := Screening(t, init).value;
      forall k | k in s.0 || k in s.1
        ensures exists i :: 0 <= i < |config| && config[i].0 == k
      {
        if k != config[n].0 {
          assert k in p.0 || k in p.1;
          var i :| 0 <= i < |init| && init[i].0 == k;
          assert config[i].0 == k;
        }
      }
    }
  }

  /**
   * The screen as the page builds it: for each section, each declaration is checked and lands in
   * the available list or, by its label, in the missing list; non-empty lists are stored by title.
   * The configuration is returned unchanged beside the two maps.
   */
  method ProcessSectionsConfig(t: Frame, config: seq<(string, seq<Triple>)>)
    returns (r: Result<(seq<(string, seq<Triple>)>, map<string, seq<Triple>>, map<string, seq<string>>)>)
    ensures Screening(t, config).Ok? ==>
      r == Ok((config, Screening(t, config).value.0, Screening(t, config).value.1))
    ensures Screening(t, config).Err? ==> r == Err(Screening(t, config).error)
  {
    var availableVars: map<string, seq<Triple>> := map[];
    var missingVars: map<string, seq<string>> := map[];
    var i := 0;
    while i < |config|
      invariant 0 <= i <= |config|
      invariant Screening(t, config[..i]) == Ok((availableVars, missingVars))
    {
      var (title, variables) := config[i];
      var sectionAvailable: seq<Triple> := [];
      var sectionMissing: seq<string> := [];
      var j := 0;
      while j < |variables|
        invariant 0 <= j <= |variables|
        invariant Partition(t, variables[..j]) == Ok((sectionAvailable, sectionMissing))
      {
        assert variables[..j + 1][..j] == variables[..j];
        var checked := CheckVariableAvailability(t, variables[j]);
        if checked.Err? {
          PartitionStopsAt(t, variables, j);
          ScreeningStopsAt(t, config, i);
          return Err(checked.error);
        }
        var (isAvailable, metadata) := checked.value;
        if isAvailable {
          sectionAvailable := sectionAvailable + [variables[j]];
        } else {
          var labelled := Label(metadata);
          if labelled.Err? {
            PartitionStopsAt(t, variables, j);
            ScreeningStopsAt(t, config, i);
            return Err(labelled.error);
          }
          sectionMissing := sectionMissing + [labelled.value];
        }
        j := j + 1;
      }
      assert variables[..j] == variables;
      assert config[..i + 1][..i] == config[..i];
      if |sectionAvailable| > 0 {
        availableVars := availableVars[title := sectionAvailable];
      }
      if |sectionMissing| > 0 {
        missingVars := missingVars[title := sectionMissing];
      }
      i := i + 1;
    }
    assert config[..i] == config;
    return Ok((config, availableVars, missingVars));
  }

  /** A declaration whose check fails after a successful prefix is the error of the whole section. */
  lemma {:induction false} PartitionStopsAt(t: Frame, cs: seq<Triple>, j: int)
    requires 0 <= j < |cs| && Partition(t, cs[..j]).Ok? && Classify(t, cs[j]).Err?
    ensures Partition(t, cs) == Err(Classify(t, cs[j]).error)
    decreases |cs|
  {
    if j + 1 < |cs| {
      var init := cs[..|cs| - 1];
      assert init[..j] == cs[..j] && init[j] == cs[j];
      PartitionStopsAt(t, init, j);
    } else {
      assert cs[..|cs| - 1] == cs[..j];
    }
  }

  /** A section whose partition fails after a successful prefix is the error of the whole screen. */
  lemma {:induction false} ScreeningStopsAt(t: Frame, config: seq<(string, seq<Triple>)>, i: int)
    requires 0 <= i < |config| && Screening(t, config[..i]).Ok? && Partition(t, config[i].1).Err?
    ensures Screening(t, config) == Err(Partition(t, config[i].1).error)
    decreases |config|
  {
    if i + 1 < |config| {
      var init := config[..|config| - 1];
      assert init[..i] == config[..i] && init[i] == config[i];
      ScreeningStopsAt(t, init, i);
    } else {
      assert config[..|config| - 1] == config[..i];
    }
  }
}
