/** The monthly progress report (src/components/ReportGenerator.tsx and its dashboard copy
    src/components/dashboard/ReportGeneratorSection.tsx, whose computations are the same): project
    months elapsed, outcome progress as a ratio of sums, output progress, key narratives and
    activity highlights. */
module Report {
  import opened Wrappers
  import opened Numeric
  import opened Seqs
  import opened TargetTypes
  import OutputProgress

  // ---------------------------------------------------------------- timeline

  /** May 2024 to December 2027. */
  const TOTAL_MONTHS: int := 43

  /** Months of the project elapsed by the first day of the report month (`month0` counts from 0
      for January): the month difference to May 2024 plus one, clamped to [0, 43]. The formula
      reads year * 12 + month, which JavaScript's date normalisation leaves unchanged, so any
      integer month gives the same answer as its normalised form. */
  function ElapsedMonths(year: int, month0: int): (e: int)
    ensures 0 <= e <= TOTAL_MONTHS
    ensures var raw := (year - 2024) * 12 + (month0 - 4) + 1;
            && (0 <= raw <= TOTAL_MONTHS ==> e == raw)
            && (raw < 0 ==> e == 0)
            && (raw > TOTAL_MONTHS ==> e == TOTAL_MONTHS)
  {
    var raw := (year - 2024) * 12 + (month0 - 4) + 1;
    if raw < 0 then 0 else if raw > TOTAL_MONTHS then TOTAL_MONTHS else raw
  }

  /** May 2024 is month 1, January 2024 is month 0, and December 2027 is month 43 (44 before
      clamping); a later month never has fewer elapsed months. */
  lemma ElapsedMonthsExamples(y1: int, m1: int, y2: int, m2: int)
    requires y1 * 12 + m1 <= y2 * 12 + m2
    ensures ElapsedMonths(2024, 4) == 1
    ensures ElapsedMonths(2024, 0) == 0
    ensures ElapsedMonths(2027, 11) == 43
    ensures ElapsedMonths(y1, m1) <= ElapsedMonths(y2, m2)
  {
  }

  /** `Math.round(elapsed / 43 * 100)`, for elapsed months in range, lies in [0, 100]. */
  function TimelinePercent(elapsed: int): (p: int)
    requires 0 <= elapsed <= TOTAL_MONTHS
    ensures 0 <= p <= 100
    ensures elapsed == 0 ==> p == 0
    ensures elapsed == TOTAL_MONTHS ==> p == 100
  {
    var x := elapsed as real / TOTAL_MONTHS as real * 100.0;
    RoundMonotone(0.0, x);
    RoundMonotone(x, 100.0);
    RoundOfInteger(0);
    RoundOfInteger(100);
    Round(x)
  }

  // ---------------------------------------------------------------- statuses

  const ON_TRACK := "On Track"
  const MODERATE := "Moderate"
  const BEHIND := "Behind"
  const NOT_STARTED := "Not Started"

  /** `getStatus`: the 80 / 50 / 0 bands in this view's vocabulary. */
  function GetStatus(p: real): (s: string)
    ensures s in {ON_TRACK, MODERATE, BEHIND, NOT_STARTED}
    ensures s == ON_TRACK <==> p >= 80.0
    ensures s == MODERATE <==> 50.0 <= p < 80.0
    ensures s == BEHIND <==> 0.0 < p < 50.0
    ensures s == NOT_STARTED <==> p <= 0.0
  {
    if p >= 80.0 then ON_TRACK
    else if p >= 50.0 then MODERATE
    else if p > 0.0 then BEHIND
    else NOT_STARTED
  }

  /** The report and the output-progress hook use the same bands under different names: the
      report's On Track is the hook's Ahead and its Moderate is the hook's On Track. */
  lemma StatusVocabularies(p: real)
    ensures GetStatus(p) == ON_TRACK <==> OutputProgress.GetStatus(p) == Ahead
    ensures GetStatus(p) == MODERATE <==> OutputProgress.GetStatus(p) == OnTrack
    ensures GetStatus(p) == BEHIND <==> OutputProgress.GetStatus(p) == Behind
    ensures GetStatus(p) == NOT_STARTED <==> OutputProgress.GetStatus(p) == NotStarted
  {
  }

  datatype StatusColor = Green | Blue | Orange | Red | Gray

  /** `getStatusColor` (ReportGenerator.tsx only): any status text outside the listed ones is grey. */
  function GetStatusColor(status: string): (c: StatusColor)
    ensures c == Green <==> status in {"On Track", "Completed", "Exceeded"}
    ensures c == Blue <==> status == "Moderate"
    ensures c == Orange <==> status in {"Behind", "Delayed"}
    ensures c == Red <==> status == "Critical"
  {
    if status == "On Track" || status == "Completed" || status == "Exceeded" then Green
    else if status == "Moderate" then Blue
    else if status == "Behind" || status == "Delayed" then Orange
    else if status == "Critical" then Red
    else Gray
  }

  /** Every status `GetStatus` produces has its own colour; only Not Started is grey. */
  lemma StatusColoursOfOwnStatuses(p: real)
    ensures GetStatusColor(GetStatus(p)) == Gray <==> p <= 0.0
    ensures p >= 80.0 ==> GetStatusColor(GetStatus(p)) == Green
  {
  }

  // ---------------------------------------------------------------- outcomes

  datatype OutcomeConfig = OutcomeConfig(id: string, name: string, indicatorIds: seq<string>)

  const OUTCOME_CONFIG: seq<OutcomeConfig> := [
    OutcomeConfig("1", "Youth with ICT Skills", ["1.2.6.2", "1.3.4.1"]),
    OutcomeConfig("2", "Technology Start-ups Created", ["2.2.2.1"]),
    OutcomeConfig("2.1", "Green Jobs Created", ["2.1"]),
    OutcomeConfig("3", "Mobilized Investment (USD)", ["3.1.2"])
  ]

  datatype ReportOutcome = ReportOutcome(id: string, name: string, baseline: real, target: real, actual: real, status: string)

  /** The summed total targets of the listed ids that the logframe has. */
  function FoundTargetSum(indicators: seq<Indicator>, ids: seq<string>): real
  {
    if ids == [] then 0.0
    else
      var last := ids[|ids| - 1];
      FoundTargetSum(indicators, ids[..|ids| - 1]) +
        (match Find(indicators, last) case Some(ind) => TotalTarget(ind) case None => 0.0)
  }

  /** The summed snapshot actuals of the listed ids that the logframe has. */
  function FoundActualSum(indicators: seq<Indicator>, values: map<string, real>, ids: seq<string>): real
  {
    if ids == [] then 0.0
    else
      var last := ids[|ids| - 1];
      FoundActualSum(indicators, values, ids[..|ids| - 1]) +
        (if Find(indicators, last).Some? then ActualOf(values, last) else 0.0)
  }

  /** Outcome progress: summed actual over summed target, 0 when the summed target is not positive. */
  function OutcomeProgress(indicators: seq<Indicator>, values: map<string, real>, ids: seq<string>): real
  {
    var t := FoundTargetSum(indicators, ids);
    if t > 0.0 then FoundActualSum(indicators, values, ids) / t * 100.0 else 0.0
  }

  function OutcomeOf(indicators: seq<Indicator>, values: map<string, real>, config: OutcomeConfig): ReportOutcome
  {
    ReportOutcome(config.id, config.name, 0.0, FoundTargetSum(indicators, config.indicatorIds),
      FoundActualSum(indicators, values, config.indicatorIds),
      GetStatus(OutcomeProgress(indicators, values, config.indicatorIds)))
  }

  /** One outcome as the report builds it, with the `let` accumulators of its `forEach` as a loop. */
  method ComputeOutcome(indicators: seq<Indicator>, values: map<string, real>, config: OutcomeConfig)
    returns (o: ReportOutcome)
    ensures o == OutcomeOf(indicators, values, config)
  {
    var ids := config.indicatorIds;
    var totalTarget := 0.0;
    var totalActual := 0.0;
    var k := 0;
    while k < |ids|
      invariant 0 <= k <= |ids|
      invariant totalTarget == FoundTargetSum(indicators, ids[..k])
      invariant totalActual == FoundActualSum(indicators, values, ids[..k])
    {
      assert ids[..k + 1][..k] == ids[..k];
      var found := Find(indicators, ids[k]);
      if found.Some? {
        totalTarget := totalTarget + TotalTarget(found.value);
        totalActual := totalActual + ActualOf(values, ids[k]);
      }
      k := k + 1;
    }
    assert ids[..k] == ids;
    var progress := if totalTarget > 0.0 then (totalActual / totalTarget) * 100.0 else 0.0;
    o := ReportOutcome(config.id, config.name, 0.0, totalTarget, totalActual, GetStatus(progress));
  }

  /** Baseline is always 0, and a summed target of 0 gives Not Started. */
  lemma OutcomeZeroTarget(indicators: seq<Indicator>, values: map<string, real>, config: OutcomeConfig)
    ensures OutcomeOf(indicators, values, config).baseline == 0.0
    ensures OutcomeOf(indicators, values, config).target == 0.0 ==> OutcomeOf(indicators, values, config).status == NOT_STARTED
  {
  }

  /** Ids missing from the logframe add nothing to either sum. */
  lemma {:induction false} MissingIdsAddNothing(indicators: seq<Indicator>, values: map<string, real>, ids: seq<string>)
    requires forall i :: 0 <= i < |ids| ==> Find(indicators, ids[i]).None?
    ensures FoundTargetSum(indicators, ids) == 0.0
    ensures FoundActualSum(indicators, values, ids) == 0.0
  {
    if ids != [] {
      MissingIdsAddNothing(indicators, values, ids[..|ids| - 1]);
    }
  }

  /** A ratio of sums, not a mean of ratios: one indicator at 100 of 100 and one at 0 of 900
      give 10% (Behind), where the mean of the two ratios would be 50%. */
  lemma OutcomeIsRatioOfSums()
    ensures var t1 := YearTargets(Num(0.0), Num(0.0), Num(0.0), Num(0.0), Num(100.0));
            var t2 := YearTargets(Num(0.0), Num(0.0), Num(0.0), Num(0.0), Num(900.0));
            var a := Indicator("1.2.6.2", "", "", "", "", t1, "", "", "");
            var b := Indicator("1.3.4.1", "", "", "", "", t2, "", "", "");
            var values := map["1.2.6.2" := 100.0, "1.3.4.1" := 0.0];
            && OutcomeProgress([a, b], values, OUTCOME_CONFIG[0].indicatorIds) == 10.0
            && OutcomeOf([a, b], values, OUTCOME_CONFIG[0]).status == BEHIND
            && (100.0 / 100.0 * 100.0 + 0.0 / 900.0 * 100.0) / 2.0 == 50.0
  {
    var t1 := YearTargets(Num(0.0), Num(0.0), Num(0.0), Num(0.0), Num(100.0));
    var t2 := YearTargets(Num(0.0), Num(0.0), Num(0.0), Num(0.0), Num(900.0));
    var a := Indicator("1.2.6.2", "", "", "", "", t1, "", "", "");
    var b := Indicator("1.3.4.1", "", "", "", "", t2, "", "", "");
    var values := map["1.2.6.2" := 100.0, "1.3.4.1" := 0.0];
    var ids := OUTCOME_CONFIG[0].indicatorIds;
    assert Find([a, b], "1.2.6.2") == Some(a);
    assert Find([a, b], "1.3.4.1") == Some(b) by {
      assert [a, b][1..] == [b];
    }
    assert ids[..1] == ["1.2.6.2"];
    assert ids[..1][..0] == [];
    assert TotalTarget(a) == 100.0 && TotalTarget(b) == 900.0;
    assert FoundTargetSum([a, b], ["1.2.6.2"]) == 100.0;
    assert FoundTargetSum([a, b], ids) == FoundTargetSum([a, b], ["1.2.6.2"]) + 900.0;
    assert FoundActualSum([a, b], values, ["1.2.6.2"]) == 100.0;
    assert FoundActualSum([a, b], values, ids) == FoundActualSum([a, b], values, ["1.2.6.2"]) + 0.0;
  }

  // ---------------------------------------------------------------- outputs

  datatype ReportOutput = ReportOutput(id: string, name: string, progress: int, status: string)

  /** One output row: the same capped mean as the output-progress hook (the output configuration is
      identical), rounded, with the status taken from the ROUNDED value. */
  function OutputOf(indicators: seq<Indicator>, values: map<string, real>, config: OutputProgress.OutputConfig): ReportOutput
  {
    var own := OutputProgress.OutputIndicators(indicators, config.parentId);
    var valid := OutputProgress.ValidIndicators(own);
    if |own| == 0 || |valid| == 0 then ReportOutput(config.id, config.name, 0, NOT_STARTED)
    else
      var avgProgress := Round(OutputProgress.MeanCapped(valid, values));
      ReportOutput(config.id, config.name, avgProgress, GetStatus(avgProgress as real))
  }

  function Outputs(indicators: seq<Indicator>, values: map<string, real>): (r: seq<ReportOutput>)
    ensures |r| == |OutputProgress.OUTPUT_CONFIG|
  {
    seq(|OutputProgress.OUTPUT_CONFIG|, i requires 0 <= i < |OutputProgress.OUTPUT_CONFIG| =>
      OutputOf(indicators, values, OutputProgress.OUTPUT_CONFIG[i]))
  }

  /** The report's output progress is the hook's, its status is classified from that rounded
      number, and therefore it lies in [0, 100] whenever actuals are non-negative. */
  lemma OutputAgreesWithHook(indicators: seq<Indicator>, values: map<string, real>, config: OutputProgress.OutputConfig)
    ensures OutputOf(indicators, values, config).progress == OutputProgress.OutputOf(indicators, values, config).progress
    ensures OutputOf(indicators, values, config).status == GetStatus(OutputOf(indicators, values, config).progress as real)
    ensures OutputOf(indicators, values, config).progress <= 100
  {
    OutputProgress.OutputProgressAtMost100(indicators, values, config);
  }

  /** Status from the rounded value: a mean of 49.6 is stored as 50 and reads Moderate, while its
      unrounded band is Behind. */
  lemma OutputStatusUsesRoundedValue()
    ensures var ind := Indicator("i", "Output 1.1", "", "", "", YearTargets(Num(0.0), Num(0.0), Num(0.0), Num(0.0), Num(1000.0)), "", "", "");
            var out := OutputOf([ind], map["i" := 496.0], OutputProgress.OUTPUT_CONFIG[0]);
            out.progress == 50 && out.status == MODERATE && GetStatus(49.6) == BEHIND
  {
    var ind := Indicator("i", "Output 1.1", "", "", "", YearTargets(Num(0.0), Num(0.0), Num(0.0), Num(0.0), Num(1000.0)), "", "", "");
    var values := map["i" := 496.0];
    FilterAll([ind], (i: Indicator) => i.parentId == "Output 1.1");
    assert OutputProgress.HasValidTarget(ind);
    FilterAll([ind], OutputProgress.HasValidTarget);
    assert OutputProgress.CappedPercents([ind], values) == [49.6];
    assert Sum([49.6]) == 49.6 by { assert [49.6][..0] == []; }
  }

  // ---------------------------------------------------------------- narratives and activities

  /** A story; an empty status stands for a missing one. */
  datatype Story = Story(status: string, narrative: string)

  datatype NarrativeEntry = NarrativeEntry(date: string, source: string, stories: map<string, Story>)

  datatype NarrativeItem = NarrativeItem(id: string, status: string, narrative: string)

  const KEY_NARRATIVE_IDS: seq<string> := ["1", "1.1.4", "1.2.6.2", "2", "2.1", "2.2.2.1", "3", "OVERALL"]

  function HasStory(stories: map<string, Story>): string -> bool
  {
    (id: string) => id in stories
  }

  function NarrativeItemOf(stories: map<string, Story>, id: string): NarrativeItem
    requires id in stories
  {
    NarrativeItem(id, if stories[id].status == "" then "Unknown" else stories[id].status, stories[id].narrative)
  }

  /** The listed keys present in the stories, in list order, as narrative items. */
  function NarrativesOf(keys: seq<string>, stories: map<string, Story>): (r: seq<NarrativeItem>)
  {
    var ids := Filter(keys, HasStory(stories));
    seq(|ids|, i requires 0 <= i < |ids| => assert ids[i] in ids; NarrativeItemOf(stories, ids[i]))
  }

  /** The key narratives present in the latest entry. */
  function Narratives(stories: map<string, Story>): seq<NarrativeItem>
  {
    NarrativesOf(KEY_NARRATIVE_IDS, stories)
  }

  function ItemIds(items: seq<NarrativeItem>): seq<string>
  {
    seq(|items|, i requires 0 <= i < |items| => items[i].id)
  }

  /** The narrative ids are the key ids present in the stories, in key-list order; each item
      carries its story's text and its status, or Unknown when the story has none. */
  lemma NarrativesMeaning(stories: map<string, Story>)
    ensures var r := Narratives(stories);
      && Subsequence(ItemIds(r), KEY_NARRATIVE_IDS)
      && (forall id :: id in ItemIds(r) <==> id in KEY_NARRATIVE_IDS && id in stories)
      && (forall i :: 0 <= i < |r| ==>
            && r[i].id in stories
            && r[i].narrative == stories[r[i].id].narrative
            && r[i].status == (if stories[r[i].id].status == "" then "Unknown" else stories[r[i].id].status))
  {
    var ids := Filter(KEY_NARRATIVE_IDS, HasStory(stories));
    assert ItemIds(NarrativesOf(KEY_NARRATIVE_IDS, stories)) == ids;
    FilterIsSubsequence(KEY_NARRATIVE_IDS, HasStory(stories));
  }

  /** An activity row as the report reads it. */
  datatype ReportActivity = ReportActivity(id: string, name: string, output: string, status: string, progress: real, notes: string)

  datatype ActivityItem = ActivityItem(id: string, name: string, status: string, progress: real, notes: string)

  predicate IsHighlight(a: ReportActivity)
  {
    a.status == "Delayed" || a.status == "Completed" || a.status == "Critical"
  }

  function ItemOf(a: ReportActivity): ActivityItem
  {
    ActivityItem(a.id, a.name, a.status, a.progress, a.notes)
  }

  /** The first ten Delayed, Completed or Critical activities, in input order. */
  function Highlights(activities: seq<ReportActivity>): (r: seq<ActivityItem>)
  {
    var picked := Filter(activities, IsHighlight);
    var kept := picked[..if |picked| < 10 then |picked| else 10];
    seq(|kept|, i requires 0 <= i < |kept| => ItemOf(kept[i]))
  }

  /** At most ten highlights, each with one of the three statuses, in input order; when fewer than
      ten activities qualify, all of them are listed. */
  lemma HighlightsMeaning(activities: seq<ReportActivity>)
    ensures var r := Highlights(activities);
      && |r| <= 10
      && (forall i :: 0 <= i < |r| ==> r[i].status in {"Delayed", "Completed", "Critical"})
      && |r| == (if |Filter(activities, IsHighlight)| < 10 then |Filter(activities, IsHighlight)| else 10)
      && (forall i :: 0 <= i < |r| ==> r[i] == ItemOf(Filter(activities, IsHighlight)[i]))
      && Subsequence(Filter(activities, IsHighlight), activities)
  {
    var picked := Filter(activities, IsHighlight);
    FilterIsSubsequence(activities, IsHighlight);
    forall i | 0 <= i < |picked|
      ensures IsHighlight(picked[i])
    {
      assert picked[i] in picked;
    }
    var r := Highlights(activities);
    forall i | 0 <= i < |r|
      ensures r[i] == ItemOf(picked[i]) && r[i].status in {"Delayed", "Completed", "Critical"}
    {
      assert IsHighlight(picked[i]);
    }
  }

  // ---------------------------------------------------------------- the whole report

  const MONTHS: seq<string> := ["January", "February", "March", "April", "May", "June",
    "July", "August", "September", "October", "November", "December"]

  datatype ReportData = ReportData(
    month: string, year: int, elapsed: int, total: int, percentage: int,
    outcomes: seq<ReportOutcome>, outputs: seq<ReportOutput>, narratives: seq<NarrativeItem>,
    activities: seq<ActivityItem>)

  /** `generateReport` on already-loaded files. The source reads element 0 of the actuals and of
      the narrative lists, so both must be non-empty. */
  method GenerateReport(month0: int, year: int, indicators: seq<Indicator>, actualsData: seq<PerformanceActual>,
                        narrativesData: seq<NarrativeEntry>, activities: seq<ReportActivity>)
    returns (r: ReportData)
    requires 0 <= month0 < 12
    requires |actualsData| > 0 && |narrativesData| > 0
    ensures r.month == MONTHS[month0] && r.year == year && r.total == TOTAL_MONTHS
    ensures r.elapsed == ElapsedMonths(year, month0) && 0 <= r.percentage <= 100
    ensures r.percentage == TimelinePercent(r.elapsed)
    ensures |r.outcomes| == |OUTCOME_CONFIG|
    ensures forall i :: 0 <= i < |OUTCOME_CONFIG| ==> r.outcomes[i] == OutcomeOf(indicators, actualsData[0].values, OUTCOME_CONFIG[i])
    ensures r.outputs == Outputs(indicators, actualsData[0].values)
    ensures r.narratives == Narratives(narrativesData[0].stories)
    ensures r.activities == Highlights(activities) && |r.activities| <= 10
  {
    var values := actualsData[0].values;
    var elapsed := ElapsedMonths(year, month0);
    var outcomes: seq<ReportOutcome> := [];
    var k := 0;
    while k < |OUTCOME_CONFIG|
      invariant 0 <= k <= |OUTCOME_CONFIG|
      invariant |outcomes| == k
      invariant forall i :: 0 <= i < k ==> outcomes[i] == OutcomeOf(indicators, values, OUTCOME_CONFIG[i])
    {
      var o := ComputeOutcome(indicators, values, OUTCOME_CONFIG[k]);
      outcomes := outcomes + [o];
      k := k + 1;
    }
    HighlightsMeaning(activities);
    r := ReportData(MONTHS[month0], year, elapsed, TOTAL_MONTHS, TimelinePercent(elapsed), outcomes,
      Outputs(indicators, values), Narratives(narrativesData[0].stories), Highlights(activities));
  }
}
