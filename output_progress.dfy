/** The output and component progress roll-up of the dashboard (src/hooks/useOutputProgress.ts).
    Each configured output averages the capped percentages of its indicators that have a
    positive total target; each component averages the already-rounded progress of its outputs. */
module OutputProgress {
  import opened Wrappers
  import opened Numeric
  import opened Seqs
  import opened TargetTypes

  datatype OutputConfig = OutputConfig(id: string, parentId: string, name: string)

  const OUTPUT_CONFIG: seq<OutputConfig> := [
    OutputConfig("1.1", "Output 1.1", "DigiGreen Centers Infrastructure"),
    OutputConfig("1.2", "Output 1.2", "Basic ICT Skills Training"),
    OutputConfig("1.3", "Output 1.3", "Higher-level ICT Training"),
    OutputConfig("2.1", "Output 2.1", "Incubation Program Development"),
    OutputConfig("2.2", "Output 2.2", "Incubation Program Implementation"),
    OutputConfig("3.1", "Output 3.1", "Conducive Environment"),
    OutputConfig("3.2", "Output 3.2", "Government Capacity Building")
  ]

  datatype ComponentConfig = ComponentConfig(name: string, outputs: seq<string>)

  const COMPONENT_MAPPING: seq<ComponentConfig> := [
    ComponentConfig("Digital Infrastructure", ["1.1"]),
    ComponentConfig("Digital and Green Skills Training", ["1.2", "1.3"]),
    ComponentConfig("Green Entrepreneurship", ["2.1", "2.2"]),
    ComponentConfig("Ecosystem Building", ["3.1", "3.2"])
  ]

  datatype Output = Output(id: string, name: string, progress: int, status: TargetStatus)

  datatype Component = Component(name: string, percentage: int, color: string, outputs: seq<string>)

  const GREEN := "#10B981"
  const BLUE := "#3B82F6"
  const ORANGE := "#F59E0B"
  const RED := "#EF4444"
  const GREY := "#9CA3AF"

  // ---------------------------------------------------------------- classifiers

  /** Colour bands of a component percentage: green from 80, blue from 50, orange from 30, red below. */
  function GetStatusColor(p: real): (c: string)
    ensures c == GREEN <==> p >= 80.0
    ensures c == BLUE <==> 50.0 <= p < 80.0
    ensures c == ORANGE <==> 30.0 <= p < 50.0
    ensures c == RED <==> p < 30.0
  {
    if p >= 80.0 then GREEN
    else if p >= 50.0 then BLUE
    else if p >= 30.0 then ORANGE
    else RED
  }

  /** Status bands of a mean progress: Ahead from 80, On Track from 50, Behind above 0. */
  function GetStatus(p: real): (s: TargetStatus)
    ensures s == Ahead <==> p >= 80.0
    ensures s == OnTrack <==> 50.0 <= p < 80.0
    ensures s == Behind <==> 0.0 < p < 50.0
    ensures s == NotStarted <==> p <= 0.0
  {
    if p >= 80.0 then Ahead
    else if p >= 50.0 then OnTrack
    else if p > 0.0 then Behind
    else NotStarted
  }

  /** Not Started < Behind < On Track < Ahead. */
  function Rank(s: TargetStatus): nat
  {
    match s
    case NotStarted => 0
    case Behind => 1
    case OnTrack => 2
    case Ahead => 3
  }

  /** More progress never gives a worse status. */
  lemma GetStatusMonotone(p: real, q: real)
    requires p <= q
    ensures Rank(GetStatus(p)) <= Rank(GetStatus(q))
  {
  }

  // ---------------------------------------------------------------- one output

  /** The indicators whose parent is the given output, in logframe order. */
  function OutputIndicators(indicators: seq<Indicator>, parentId: string): seq<Indicator>
  {
    Filter(indicators, (ind: Indicator) => ind.parentId == parentId)
  }

  predicate HasValidTarget(ind: Indicator)
  {
    TotalTarget(ind) > 0.0
  }

  function ValidIndicators(s: seq<Indicator>): seq<Indicator>
  {
    Filter(s, HasValidTarget)
  }

  /** `Math.min(100, actual / target * 100)`. */
  function CappedPercent(ind: Indicator, values: map<string, real>): (r: real)
    requires HasValidTarget(ind)
    ensures r <= 100.0
    ensures ActualOf(values, ind.id) >= 0.0 ==> r >= 0.0
    ensures ActualOf(values, ind.id) >= TotalTarget(ind) ==> r == 100.0
  {
    RatioFacts(ActualOf(values, ind.id), TotalTarget(ind));
    Min(100.0, ActualOf(values, ind.id) / TotalTarget(ind) * 100.0)
  }

  lemma RatioFacts(actual: real, target: real)
    requires target > 0.0
    ensures actual >= 0.0 ==> actual / target * 100.0 >= 0.0
    ensures actual >= target ==> actual / target * 100.0 >= 100.0
  {
    var ratio := actual / target;
    assert ratio * target == actual;
    assert ratio < 1.0 ==> (1.0 - ratio) * target > 0.0;
  }

  function CappedPercents(valid: seq<Indicator>, values: map<string, real>): (r: seq<real>)
    requires forall i :: 0 <= i < |valid| ==> HasValidTarget(valid[i])
    ensures |r| == |valid|
  {
    seq(|valid|, i requires 0 <= i < |valid| => CappedPercent(valid[i], values))
  }

  /** The mean of the capped percentages of the valid indicators (requires one to exist). */
  function MeanCapped(valid: seq<Indicator>, values: map<string, real>): real
    requires |valid| > 0
    requires forall i :: 0 <= i < |valid| ==> HasValidTarget(valid[i])
  {
    Sum(CappedPercents(valid, values)) / |valid| as real
  }

  /** The progress record of one configured output. */
  function OutputOf(indicators: seq<Indicator>, values: map<string, real>, config: OutputConfig): Output
  {
    var own := OutputIndicators(indicators, config.parentId);
    var valid := ValidIndicators(own);
    if |own| == 0 || |valid| == 0 then Output(config.id, config.name, 0, NotStarted)
    else
      var avg := MeanCapped(valid, values);
      Output(config.id, config.name, Round(avg), GetStatus(avg))
  }

  /** One output's roll-up as the hook computes it, with the `reduce` accumulator as a loop. */
  method ComputeOutput(indicators: seq<Indicator>, values: map<string, real>, config: OutputConfig)
    returns (out: Output)
    ensures out == OutputOf(indicators, values, config)
  {
    var own := OutputIndicators(indicators, config.parentId);
    if |own| == 0 {
      return Output(config.id, config.name, 0, NotStarted);
    }
    var valid := ValidIndicators(own);
    if |valid| == 0 {
      return Output(config.id, config.name, 0, NotStarted);
    }
    var total := SumCapped(valid, values);
    var avg := total / |valid| as real;
    out := Output(config.id, config.name, Round(avg), GetStatus(avg));
  }

  /** The `reduce` that adds up the capped percentages. */
  method SumCapped(valid: seq<Indicator>, values: map<string, real>) returns (total: real)
    requires forall i :: 0 <= i < |valid| ==> HasValidTarget(valid[i])
    ensures total == Sum(CappedPercents(valid, values))
  {
    ghost var pcts := CappedPercents(valid, values);
    total := 0.0;
    var k := 0;
    while k < |valid|
      invariant 0 <= k <= |valid|
      invariant total == Sum(pcts[..k])
    {
      var target := TotalTarget(valid[k]);
      var actual := ActualOf(values, valid[k].id);
      assert pcts[..k + 1][..k] == pcts[..k];
      total := total + Min(100.0, (actual / target) * 100.0);
      k := k + 1;
    }
    assert pcts[..k] == pcts;
  }

  /** Every configured output id, once each. */
  lemma ConfigIdsDistinct()
    ensures forall i, j :: 0 <= i < j < |OUTPUT_CONFIG| ==> OUTPUT_CONFIG[i].id != OUTPUT_CONFIG[j].id
  {
  }

  /** The `outputProgress` record: empty while indicators or actuals are missing, otherwise one
      entry per configured output, keyed by its id. */
  method OutputProgressMap(indicators: seq<Indicator>, actuals: Option<PerformanceActual>)
    returns (result: map<string, Output>)
    ensures |indicators| == 0 || actuals.None? ==> result == map[]
    ensures |indicators| > 0 && actuals.Some? ==>
      && result.Keys == (set c | c in OUTPUT_CONFIG :: c.id)
      && forall c :: c in OUTPUT_CONFIG ==> result[c.id] == OutputOf(indicators, actuals.value.values, c)
  {
    result := map[];
    if |indicators| == 0 || actuals.None? {
      return;
    }
    var values := actuals.value.values;
    ConfigIdsDistinct();
    var k := 0;
    while k < |OUTPUT_CONFIG|
      invariant 0 <= k <= |OUTPUT_CONFIG|
      invariant Entries(result, indicators, values, OUTPUT_CONFIG, k)
    {
      var out := ComputeOutput(indicators, values, OUTPUT_CONFIG[k]);
      EntriesStep(result, indicators, values, OUTPUT_CONFIG, k);
      result := result[OUTPUT_CONFIG[k].id := out];
      k := k + 1;
    }
    EntriesComplete(result, indicators, values, OUTPUT_CONFIG);
  }

  /** The record holds the first `k` configured outputs under their ids. */
  ghost predicate Entries(result: map<string, Output>, indicators: seq<Indicator>, values: map<string, real>,
                          configs: seq<OutputConfig>, k: int)
    requires 0 <= k <= |configs|
  {
    && result.Keys == (set c | c in configs[..k] :: c.id)
    && forall i :: 0 <= i < k ==> result[configs[i].id] == OutputOf(indicators, values, configs[i])
  }

  lemma EntriesStep(result: map<string, Output>, indicators: seq<Indicator>, values: map<string, real>,
                    configs: seq<OutputConfig>, k: int)
    requires 0 <= k < |configs| && Entries(result, indicators, values, configs, k)
    requires forall i, j :: 0 <= i < j < |configs| ==> configs[i].id != configs[j].id
    ensures Entries(result[configs[k].id := OutputOf(indicators, values, configs[k])], indicators, values, configs, k + 1)
  {
    assert configs[..k + 1] == configs[..k] + [configs[k]];
  }

  lemma EntriesComplete(result: map<string, Output>, indicators: seq<Indicator>, values: map<string, real>,
                        configs: seq<OutputConfig>)
    requires Entries(result, indicators, values, configs, |configs|)
    ensures result.Keys == (set c | c in configs :: c.id)
    ensures forall c :: c in configs ==> result[c.id] == OutputOf(indicators, values, c)
  {
    assert configs[..|configs|] == configs;
    forall c | c in configs
      ensures result[c.id] == OutputOf(indicators, values, c)
    {
      var i :| 0 <= i < |configs| && configs[i] == c;
    }
  }

  // ---------------------------------------------------------------- properties of one output

  /** An output with no indicators, or none with a positive total target, is 0 and Not Started. */
  lemma NoValidIndicatorMeansNotStarted(indicators: seq<Indicator>, values: map<string, real>, config: OutputConfig)
    requires forall ind :: ind in indicators && ind.parentId == config.parentId ==> !HasValidTarget(ind)
    ensures OutputOf(indicators, values, config).progress == 0
    ensures OutputOf(indicators, values, config).status == NotStarted
  {
    FilterNone(OutputIndicators(indicators, config.parentId), HasValidTarget);
  }

  lemma {:induction false} MeanCappedAtMost100(valid: seq<Indicator>, values: map<string, real>)
    requires |valid| > 0
    requires forall i :: 0 <= i < |valid| ==> HasValidTarget(valid[i])
    ensures MeanCapped(valid, values) <= 100.0
  {
    var pcts := CappedPercents(valid, values);
    SumAtMost(pcts, 100.0);
  }

  /** Capping happens before averaging, so output progress never exceeds 100. */
  lemma OutputProgressAtMost100(indicators: seq<Indicator>, values: map<string, real>, config: OutputConfig)
    ensures OutputOf(indicators, values, config).progress <= 100
  {
    var own := OutputIndicators(indicators, config.parentId);
    var valid := ValidIndicators(own);
    if |own| > 0 && |valid| > 0 {
      MeanCappedAtMost100(valid, values);
      RoundMonotone(MeanCapped(valid, values), 100.0);
      RoundOfInteger(100);
    }
  }

  /** With no negative actuals, output progress lies in [0, 100]. */
  lemma OutputProgressInRange(indicators: seq<Indicator>, values: map<string, real>, config: OutputConfig)
    requires forall id :: id in values ==> values[id] >= 0.0
    ensures 0 <= OutputOf(indicators, values, config).progress <= 100
  {
    OutputProgressAtMost100(indicators, values, config);
    var own := OutputIndicators(indicators, config.parentId);
    var valid := ValidIndicators(own);
    if |own| > 0 && |valid| > 0 {
      MeanCappedAtLeastZero(valid, values);
      RoundMonotone(0.0, MeanCapped(valid, values));
      RoundOfInteger(0);
    }
  }

  lemma MeanCappedAtLeastZero(valid: seq<Indicator>, values: map<string, real>)
    requires |valid| > 0
    requires forall i :: 0 <= i < |valid| ==> HasValidTarget(valid[i])
    requires forall id :: id in values ==> values[id] >= 0.0
    ensures MeanCapped(valid, values) >= 0.0
  {
    var pcts := CappedPercents(valid, values);
    forall i | 0 <= i < |pcts|
      ensures pcts[i] >= 0.0
    {
      assert ActualOf(values, valid[i].id) >= 0.0;
    }
    SumAtLeast(pcts, 0.0);
    assert Sum(pcts) >= 0.0;
  }

  /** An indicator without a positive total target is left out of the average: appending one
      changes nothing. */
  lemma InvalidIndicatorIsIgnored(indicators: seq<Indicator>, bad: Indicator, values: map<string, real>, config: OutputConfig)
    requires !HasValidTarget(bad)
    ensures OutputOf(indicators + [bad], values, config) == OutputOf(indicators, values, config)
  {
    var p := (ind: Indicator) => ind.parentId == config.parentId;
    FilterConcat(indicators, [bad], p);
    var own := OutputIndicators(indicators, config.parentId);
    var own' := OutputIndicators(indicators + [bad], config.parentId);
    assert own' == own + Filter([bad], p);
    FilterConcat(own, Filter([bad], p), HasValidTarget);
    assert Filter(Filter([bad], p), HasValidTarget) == [];
    assert ValidIndicators(own') == ValidIndicators(own) + [];
    assert ValidIndicators(own') == ValidIndicators(own);
  }

  /** The status is classified from the unrounded mean: a mean of 79.6 is stored as 80 but is
      On Track, while 80 itself would be Ahead. */
  lemma StatusUsesUnroundedMean()
    ensures var ind := Indicator("i", "Output 1.1", "", "", "", YearTargets(Num(0.0), Num(0.0), Num(0.0), Num(0.0), Num(1000.0)), "", "", "");
            var out := OutputOf([ind], map["i" := 796.0], OUTPUT_CONFIG[0]);
            out.progress == 80 && out.status == OnTrack && GetStatus(80.0) == Ahead
  {
    var ind := Indicator("i", "Output 1.1", "", "", "", YearTargets(Num(0.0), Num(0.0), Num(0.0), Num(0.0), Num(1000.0)), "", "", "");
    var values := map["i" := 796.0];
    FilterAll([ind], (i: Indicator) => i.parentId == "Output 1.1");
    assert HasValidTarget(ind);
    FilterAll([ind], HasValidTarget);
    assert CappedPercents([ind], values) == [79.6];
    assert Sum([79.6]) == 79.6 by { assert [79.6][..0] == []; }
  }

  /** Cap before average: indicators at 50% and 150% give 75, not 100; and a huge target does
      not outweigh a small one. */
  lemma CapBeforeAverage()
    ensures var t := YearTargets(Num(0.0), Num(0.0), Num(0.0), Num(0.0), Num(100.0));
            var u := YearTargets(Num(0.0), Num(0.0), Num(0.0), Num(0.0), Num(1000000.0));
            var a := Indicator("a", "Output 1.1", "", "", "", t, "", "", "");
            var b := Indicator("b", "Output 1.1", "", "", "", u, "", "", "");
            OutputOf([a, b], map["a" := 50.0, "b" := 1500000.0], OUTPUT_CONFIG[0]).progress == 75
  {
    var t := YearTargets(Num(0.0), Num(0.0), Num(0.0), Num(0.0), Num(100.0));
    var u := YearTargets(Num(0.0), Num(0.0), Num(0.0), Num(0.0), Num(1000000.0));
    var a := Indicator("a", "Output 1.1", "", "", "", t, "", "", "");
    var b := Indicator("b", "Output 1.1", "", "", "", u, "", "", "");
    var values := map["a" := 50.0, "b" := 1500000.0];
    assert HasValidTarget(a) && HasValidTarget(b);
    assert CappedPercent(a, values) == 50.0;
    assert CappedPercent(b, values) == 100.0;
    OutputOfTwo(a, b, values, OUTPUT_CONFIG[0]);
    RoundOfInteger(75);
  }

  /** Two valid indicators of one output average their capped percentages. */
  lemma OutputOfTwo(a: Indicator, b: Indicator, values: map<string, real>, config: OutputConfig)
    requires a.parentId == config.parentId && b.parentId == config.parentId
    requires HasValidTarget(a) && HasValidTarget(b)
    ensures OutputOf([a, b], values, config).progress == Round((CappedPercent(a, values) + CappedPercent(b, values)) / 2.0)
  {
    FilterAll([a, b], (ind: Indicator) => ind.parentId == config.parentId);
    FilterAll([a, b], HasValidTarget);
    var pcts := CappedPercents([a, b], values);
    assert pcts == [CappedPercent(a, values), CappedPercent(b, values)];
    assert Sum(pcts) == CappedPercent(a, values) + CappedPercent(b, values) by {
      assert pcts[..|pcts| - 1] == [pcts[0]];
      assert [pcts[0]][..0] == [];
      assert Sum([pcts[0]]) == pcts[0];
    }
  }

  // ---------------------------------------------------------------- components

  /** `outputProgress[outputId]?.progress || 0`: a missing output counts as 0. */
  function OutputPercentOf(outputs: map<string, Output>, id: string): int
  {
    if id in outputs then outputs[id].progress else 0
  }

  function OutputPercents(outputs: map<string, Output>, ids: seq<string>): (r: seq<real>)
    ensures |r| == |ids|
  {
    seq(|ids|, i requires 0 <= i < |ids| => OutputPercentOf(outputs, ids[i]) as real)
  }

  /** A component: the rounded mean of its outputs' already-rounded progress, coloured by band. */
  function ComponentOf(outputs: map<string, Output>, comp: ComponentConfig): Component
    requires |comp.outputs| > 0
  {
    var rounded := Round(Sum(OutputPercents(outputs, comp.outputs)) / |comp.outputs| as real);
    Component(comp.name, rounded, GetStatusColor(rounded as real), comp.outputs)
  }

  /** The `componentProgress` list: grey zeros while no output progress exists. */
  function ComponentProgress(outputs: map<string, Output>): (r: seq<Component>)
    ensures |r| == |COMPONENT_MAPPING|
  {
    if outputs == map[] then
      seq(|COMPONENT_MAPPING|, i requires 0 <= i < |COMPONENT_MAPPING| =>
        Component(COMPONENT_MAPPING[i].name, 0, GREY, COMPONENT_MAPPING[i].outputs))
    else
      seq(|COMPONENT_MAPPING|, i requires 0 <= i < |COMPONENT_MAPPING| => ComponentOf(outputs, COMPONENT_MAPPING[i]))
  }

  /** The progress of the given outputs added up, a missing output adding 0. */
  function ProgressTotal(outputs: map<string, Output>, ids: seq<string>): real
  {
    if ids == [] then 0.0
    else (if ids[0] in outputs then outputs[ids[0]].progress as real else 0.0) + ProgressTotal(outputs, ids[1..])
  }

  lemma {:induction false} PercentsAddUp(outputs: map<string, Output>, ids: seq<string>)
    ensures Sum(OutputPercents(outputs, ids)) == ProgressTotal(outputs, ids)
  {
    if ids != [] {
      assert OutputPercents(outputs, ids) == [OutputPercentOf(outputs, ids[0]) as real] + OutputPercents(outputs, ids[1..]);
      SumConcat([OutputPercentOf(outputs, ids[0]) as real], OutputPercents(outputs, ids[1..]));
      assert Sum([OutputPercentOf(outputs, ids[0]) as real]) == OutputPercentOf(outputs, ids[0]) as real
        by { assert [OutputPercentOf(outputs, ids[0]) as real][..0] == []; }
      PercentsAddUp(outputs, ids[1..]);
    }
  }

  /** Once output progress exists, a component's percentage is the mean of its outputs' progress,
      a missing output counting as 0, rounded to the nearest integer with halves up. */
  lemma ComponentIsRoundedMean(outputs: map<string, Output>)
    ensures outputs != map[] ==> forall i :: 0 <= i < |COMPONENT_MAPPING| ==>
      var ids := COMPONENT_MAPPING[i].outputs;
      var p := ComponentProgress(outputs)[i].percentage as real;
      p - 0.5 <= ProgressTotal(outputs, ids) / |ids| as real < p + 0.5
  {
    if outputs != map[] {
      forall i | 0 <= i < |COMPONENT_MAPPING|
        ensures var ids := COMPONENT_MAPPING[i].outputs;
          var p := ComponentProgress(outputs)[i].percentage as real;
          p - 0.5 <= ProgressTotal(outputs, ids) / |ids| as real < p + 0.5
      {
        ComponentMean(outputs, i);
      }
    }
  }

  lemma ComponentMean(outputs: map<string, Output>, i: int)
    requires outputs != map[] && 0 <= i < |COMPONENT_MAPPING|
    ensures var p := ComponentProgress(outputs)[i].percentage as real;
      p - 0.5 <= ProgressTotal(outputs, COMPONENT_MAPPING[i].outputs) / |COMPONENT_MAPPING[i].outputs| as real < p + 0.5
  {
    var comp := COMPONENT_MAPPING[i];
    assert ComponentProgress(outputs)[i] == ComponentOf(outputs, comp);
    PercentsAddUp(outputs, comp.outputs);
  }

  /** While no output progress exists every component is 0 and grey; otherwise each component
      carries the colour band of its own rounded percentage. */
  lemma ComponentColours(outputs: map<string, Output>)
    ensures forall i :: 0 <= i < |COMPONENT_MAPPING| ==>
      var c := ComponentProgress(outputs)[i];
      c.name == COMPONENT_MAPPING[i].name && c.outputs == COMPONENT_MAPPING[i].outputs &&
      if outputs == map[] then c.percentage == 0 && c.color == GREY
      else c.color == GetStatusColor(c.percentage as real) && c.color != GREY
  {
  }

  /** Outputs at 20 and 80 give a component of 50, however many indicators fed each output;
      a missing output counts as 0 in the mean. */
  lemma ComponentMeanOfRoundedOutputs()
    ensures var outs := map["2.1" := Output("2.1", "", 20, Behind), "2.2" := Output("2.2", "", 80, Ahead)];
            ComponentProgress(outs)[2].percentage == 50
    ensures var outs := map["2.1" := Output("2.1", "", 80, Ahead)];
            ComponentProgress(outs)[2].percentage == 40
  {
    var outs := map["2.1" := Output("2.1", "", 20, Behind), "2.2" := Output("2.2", "", 80, Ahead)];
    var comp := COMPONENT_MAPPING[2];
    assert OutputPercents(outs, comp.outputs) == [20.0, 80.0];
    assert Sum([20.0, 80.0]) == 100.0 by { assert [20.0, 80.0][..1] == [20.0]; assert [20.0][..0] == []; }
    var outs2 := map["2.1" := Output("2.1", "", 80, Ahead)];
    assert OutputPercents(outs2, comp.outputs) == [80.0, 0.0];
    assert Sum([80.0, 0.0]) == 80.0 by { assert [80.0, 0.0][..1] == [80.0]; assert [80.0][..0] == []; }
  }

  /** When every output's progress lies in [0, 100], so does every component percentage. */
  lemma ComponentPercentInRange(outputs: map<string, Output>)
    requires forall id :: id in outputs ==> 0 <= outputs[id].progress <= 100
    ensures forall i :: 0 <= i < |COMPONENT_MAPPING| ==> 0 <= ComponentProgress(outputs)[i].percentage <= 100
  {
    if outputs != map[] {
      forall i | 0 <= i < |COMPONENT_MAPPING|
        ensures 0 <= ComponentProgress(outputs)[i].percentage <= 100
      {
        var comp := COMPONENT_MAPPING[i];
        var pcts := OutputPercents(outputs, comp.outputs);
        SumAtMost(pcts, 100.0);
        SumAtLeast(pcts, 0.0);
        var mean := Sum(pcts) / |comp.outputs| as real;
        RoundMonotone(mean, 100.0);
        RoundMonotone(0.0, mean);
        RoundOfInteger(100);
        RoundOfInteger(0);
      }
    }
  }
}
