/** Which report charts can be drawn, given the variables that were processed. */
module ChartConfig {
  import opened Wrappers

  /** The drawing routine a chart uses; the plotting itself is not part of this model. */
  datatype ChartFunc = BeforeAfterChart | MultiResponseChart

  /** A chart's title, axis label and optional category labels. */
  datatype Params = Params(title: string, yLabel: string, labels: Option<seq<string>>)

  datatype ChartSpec = ChartSpec(chartType: string, chartFunc: ChartFunc, requiredVariables: seq<string>,
                                 params: Option<Params>)

  /** The charts the report knows, by identifier, in declaration order. */
  const Charts: seq<(string, ChartSpec)> := [
    ("production_efficiency_c1",
     ChartSpec("efficiency", BeforeAfterChart, ["production_efficiency_c1"],
               Some(Params("Evolución de la " + "eficiencia", "Porcentaje de " + "eficiencia (%)", None)))),
    ("production_efficiency_c4",
     ChartSpec("efficiency", BeforeAfterChart, ["production_efficiency_c4"], None)),
    ("quality_processes",
     ChartSpec("multi_response", MultiResponseChart,
               ["qualityprocess_sample", "qualityprocess_set_machinery",
                "qualityprocess_control_quality", "qualityprocess_none"],
               Some(Params("Procesos de calidad " + "implementados",
                           "Porcentaje de unidades " + "productivas (%)",
                           Some(["Muestra y contramuestra", "Preparación maquinaria",
                                 "Calidad de materiales", "Sin procesos de calidad"])))))]

  /** A chart can be drawn when at least one of its required variables was processed. */
  predicate Drawable(spec: ChartSpec, processed: set<string>)
  {
    exists i :: 0 <= i < |spec.requiredVariables| && spec.requiredVariables[i] in processed
  }

  /** The drawable charts of `config`, in order and unchanged. */
  function Available(config: seq<(string, ChartSpec)>, processed: set<string>): (r: seq<(string, ChartSpec)>)
    ensures |r| <= |config|
  {
    if |config| == 0 then []
    else
      var rest := Available(config[..|config| - 1], processed);
      if Drawable(config[|config| - 1].1, processed) then rest + [config[|config| - 1]] else rest
  }

  /** `get_available_charts`: a loop over the known charts that keeps those with a processed variable. */
  method GetAvailableCharts<V>(variables: map<string, V>) returns (r: seq<(string, ChartSpec)>)
    ensures r == Available(Charts, variables.Keys)
  {
    r := [];
    var i := 0;
    while i < |Charts|
      invariant 0 <= i <= |Charts|
      invariant r == Available(Charts[..i], variables.Keys)
    {
      var (chartId, config) := Charts[i];
      assert Charts[..i + 1][..i] == Charts[..i];
      var j := 0;
      var any := false;
      while j < |config.requiredVariables|
        invariant 0 <= j <= |config.requiredVariables|
        invariant any <==> exists k :: 0 <= k < j && config.requiredVariables[k] in variables
      {
        if config.requiredVariables[j] in variables {
          any := true;
        }
        j := j + 1;
      }
      if any {
        r := r + [(chartId, config)];
      }
      i := i + 1;
    }
    assert Charts[..i] == Charts;
  }

  /** A chart is in the result exactly when it is a known chart that is drawable; entries are not altered. */
  lemma {:induction false} AvailableIff(config: seq<(string, ChartSpec)>, processed: set<string>,
                                        entry: (string, ChartSpec))
    ensures entry in Available(config, processed) <==> entry in config && Drawable(entry.1, processed)
  {
    if |config| > 0 {
      var init := config[..|config| - 1];
      AvailableIff(init, processed, entry);
      assert config == init + [config[|config| - 1]];
    }
  }

  /** Filtering two lists of charts one after the other is filtering them together: order is kept. */
  lemma {:induction false} AvailableAppend(xs: seq<(string, ChartSpec)>, ys: seq<(string, ChartSpec)>,
                                           processed: set<string>)
    ensures Available(xs + ys, processed) == Available(xs, processed) + Available(ys, processed)
    decreases |ys|
  {
    if |ys| == 0 {
      assert xs + ys == xs;
    } else {
      var init := ys[..|ys| - 1];
      assert (xs + ys)[..|xs + ys| - 1] == xs + init;
      assert (xs + ys)[|xs + ys| - 1] == ys[|ys| - 1];
      AvailableAppend(xs, init, processed);
    }
  }

  /** With no processed variable, and for a chart that requires nothing, no chart is drawable. */
  lemma {:induction false} NothingProcessedNothingDrawn(config: seq<(string, ChartSpec)>, processed: set<string>)
    ensures processed == {} ==> Available(config, processed) == []
    ensures (forall i :: 0 <= i < |config| ==> config[i].1.requiredVariables == []) ==>
      Available(config, processed) == []
  {
    if |config| > 0 {
      NothingProcessedNothingDrawn(config[..|config| - 1], processed);
    }
  }

  /** One processed variable is enough: the quality chart is drawn though three of its four inputs are missing. */
  lemma AnyRequiredVariableSuffices()
    ensures Available(Charts, {"qualityprocess_sample"}) == [Charts[2]]
  {
    var processed := {"qualityprocess_sample"};
    assert Charts[2].1.requiredVariables[0] in processed;
    assert !Drawable(Charts[0].1, processed) && !Drawable(Charts[1].1, processed);
    assert Charts[..2][..1] == Charts[..1];
    assert Charts[..1][..0] == [];
    assert Available(Charts[..1], processed) == [];
    assert Available(Charts[..2], processed) == [];
    assert Charts[..3] == Charts;
  }
}
