/** The dashboard's targets summary (src/components/dashboard/TargetsSummarySection.tsx): six
    outcome cards rated On Track / Delayed / Off Track around an expected 45%, the component
    filter, the overall progress figure and the cumulative yearly targets of the detail modal. */
module TargetsSummary {
  import opened Wrappers
  import opened Numeric
  import opened Seqs
  import TargetTypes
  import TargetsMilestones

  /** The status vocabulary of this view; it has no Ahead. */
  datatype SummaryStatus = OnTrack | OffTrack | Delayed | NotStarted

  const EXPECTED_PERCENT: real := 45.0

  /** `calculateStatus`: first the 80%-110% band of the expected percentage, then below 50%,
      then below 80%, and everything else On Track. */
  function CalculateStatus(actual: real, target: real): SummaryStatus
  {
    if target == 0.0 || actual == 0.0 then NotStarted
    else
      var percentComplete := (actual / target) * 100.0;
      if percentComplete >= EXPECTED_PERCENT * 0.8 && percentComplete <= EXPECTED_PERCENT * 1.1 then OnTrack
      else if percentComplete < EXPECTED_PERCENT * 0.5 then OffTrack
      else if percentComplete < EXPECTED_PERCENT * 0.8 then Delayed
      else OnTrack
  }

  /** Not Started exactly at a zero target or actual; otherwise any percentage from 36 up is On
      Track (inside the band or above it), below 22.5 is Off Track, and in between is Delayed. */
  lemma CalculateStatusBands(actual: real, target: real)
    ensures CalculateStatus(actual, target) == NotStarted <==> target == 0.0 || actual == 0.0
    ensures target != 0.0 && actual != 0.0 ==>
      var p := actual / target * 100.0;
      && (CalculateStatus(actual, target) == OnTrack <==> p >= 36.0)
      && (CalculateStatus(actual, target) == Delayed <==> 22.5 <= p < 36.0)
      && (CalculateStatus(actual, target) == OffTrack <==> p < 22.5)
  {
  }

  /** The two status copies agree on which indicators are at or above 80% of the expected
      percentage: the page's Ahead and On Track are both this view's On Track, and the page's
      Behind is split here into Delayed and Off Track. */
  lemma AgreesWithMilestones(actual: real, target: real)
    ensures var page := TargetsMilestones.CalculateStatus(actual, target);
            var here := CalculateStatus(actual, target);
            && (here == NotStarted <==> page == TargetTypes.NotStarted)
            && (here == OnTrack <==> page == TargetTypes.Ahead || page == TargetTypes.OnTrack)
            && (here == OffTrack || here == Delayed <==> page == TargetTypes.Behind)
  {
  }

  // ---------------------------------------------------------------- outcome cards

  datatype CardConfig = CardConfig(id: string, name: string, unit: string, color: string, component: int)

  const CARD_CONFIG: seq<CardConfig> := [
    CardConfig("1.1.4", "DigiGreen Centers", "count", "dg-green", 1),
    CardConfig("1", "Youth with ICT Skills", "count", "dg-blue", 1),
    CardConfig("2", "Technology Start-ups", "count", "purple", 2),
    CardConfig("2.1", "Green Jobs Created", "count", "dg-amber", 2),
    CardConfig("3", "Mobilized Investment", "USD", "emerald", 3),
    CardConfig("3.1", "Green Publications", "count", "rose", 3)
  ]

  datatype Yearly = Yearly(y2024: real, y2025: real, y2026: real, y2027: real)

  /** An outcome card with the details its modal shows. */
  datatype Outcome = Outcome(
    id: string, name: string, baseline: real, target: real, actual: real, unit: string,
    status: SummaryStatus, color: string, component: int, labelText: string, yearly: Yearly,
    meansOfVerification: string, sourceOfData: string, frequency: string)

  /** `text || 'N/A'`: an empty field reads as N/A. */
  function OrNotAvailable(text: string): (r: string)
    ensures text == "" ==> r == "N/A"
    ensures text != "" ==> r == text
  {
    if text == "" then "N/A" else text
  }

  function OutcomeOf(indicators: seq<TargetTypes.Indicator>, values: map<string, real>, config: CardConfig): Outcome
  {
    match TargetTypes.Find(indicators, config.id)
    case None =>
      Outcome(config.id, config.name, 0.0, 0.0, 0.0, config.unit, NotStarted, config.color, config.component,
        config.name, Yearly(0.0, 0.0, 0.0, 0.0), "N/A", "N/A", "N/A")
    case Some(ind) =>
      var target := TargetTypes.TotalTarget(ind);
      var actual := TargetTypes.ActualOf(values, config.id);
      var t := ind.targets;
      Outcome(config.id, config.name, ParseNumber(Str(ind.baseline)), target, actual, config.unit,
        CalculateStatus(actual, target), config.color, config.component, ind.labelText,
        Yearly(ParseNumber(t.y2024), ParseNumber(t.y2025), ParseNumber(t.y2026), ParseNumber(t.y2027)),
        OrNotAvailable(ind.meansOfVerification), OrNotAvailable(ind.sourceOfData), OrNotAvailable(ind.frequency))
  }

  /** `outcomeIndicators`: empty until both the logframe and a snapshot are loaded. */
  function Outcomes(indicators: seq<TargetTypes.Indicator>, actuals: Option<TargetTypes.PerformanceActual>): (r: seq<Outcome>)
    ensures |indicators| == 0 || actuals.None? ==> r == []
    ensures |indicators| > 0 && actuals.Some? ==>
      |r| == |CARD_CONFIG| && forall i :: 0 <= i < |r| ==> r[i].id == CARD_CONFIG[i].id && r[i].component == CARD_CONFIG[i].component
  {
    if |indicators| == 0 || actuals.None? then []
    else seq(|CARD_CONFIG|, i requires 0 <= i < |CARD_CONFIG| => OutcomeOf(indicators, actuals.value.values, CARD_CONFIG[i]))
  }

  /** A card whose indicator is missing has zero numbers and yearly targets, is Not Started, and
      shows N/A for verification, source and frequency; a present one never shows an empty detail. */
  lemma OutcomeCard(indicators: seq<TargetTypes.Indicator>, values: map<string, real>, config: CardConfig)
    ensures var card := OutcomeOf(indicators, values, config);
      && ((forall j :: 0 <= j < |indicators| ==> indicators[j].id != config.id) ==>
            && card.baseline == 0.0 && card.target == 0.0 && card.actual == 0.0 && card.status == NotStarted
            && card.yearly == Yearly(0.0, 0.0, 0.0, 0.0)
            && card.meansOfVerification == "N/A" && card.sourceOfData == "N/A" && card.frequency == "N/A")
      && card.meansOfVerification != "" && card.sourceOfData != "" && card.frequency != ""
      && card.status == CalculateStatus(card.actual, card.target)
  {
  }

  // ---------------------------------------------------------------- filter and overall progress

  datatype ComponentChoice = All | Only(component: int)

  function InComponent(n: int): Outcome -> bool
  {
    (o: Outcome) => o.component == n
  }

  /** `filteredIndicators`. */
  function Filtered(outcomes: seq<Outcome>, choice: ComponentChoice): (r: seq<Outcome>)
    ensures choice.All? ==> r == outcomes
    ensures choice.Only? ==>
      && Subsequence(r, outcomes)
      && forall o :: o in r <==> o in outcomes && o.component == choice.component
  {
    match choice
    case All => outcomes
    case Only(n) =>
      FilterIsSubsequence(outcomes, InComponent(n));
      FilterMembers(outcomes, n);
      Filter(outcomes, InComponent(n))
  }

  lemma FilterMembers(outcomes: seq<Outcome>, n: int)
    ensures forall o :: o in Filter(outcomes, InComponent(n)) <==> o in outcomes && o.component == n
  {
    forall o | o in outcomes && o.component == n
      ensures o in Filter(outcomes, InComponent(n))
    {
      var j :| 0 <= j < |outcomes| && outcomes[j] == o;
    }
  }

  /** The numerator of the overall progress: each card with a positive target adds its uncapped
      percentage; the others add nothing. */
  function UncappedSum(outcomes: seq<Outcome>): real
  {
    if outcomes == [] then 0.0
    else
      var last := outcomes[|outcomes| - 1];
      UncappedSum(outcomes[..|outcomes| - 1]) + (if last.target > 0.0 then last.actual / last.target * 100.0 else 0.0)
  }

  /** `overallProgress`: the uncapped sum divided by the number of all cards, rounded. */
  function OverallProgress(outcomes: seq<Outcome>): int
  {
    if |outcomes| == 0 then 0
    else Round(UncappedSum(outcomes) / |outcomes| as real)
  }

  /** A card with no positive target adds nothing to the numerator but still counts in the
      divisor, so it pulls the figure down. */
  lemma {:induction false} ZeroTargetCardOnlyDilutes(outcomes: seq<Outcome>, o: Outcome)
    requires o.target <= 0.0
    ensures UncappedSum(outcomes + [o]) == UncappedSum(outcomes)
    ensures OverallProgress(outcomes + [o]) == Round(UncappedSum(outcomes) / (|outcomes| + 1) as real)
  {
    assert (outcomes + [o])[..|outcomes|] == outcomes;
  }

  /** Nothing is capped: one card at 300% and one without a target give 150. */
  lemma OverallProgressIsUncapped()
    ensures var a := Outcome("1", "", 0.0, 100.0, 300.0, "count", OnTrack, "", 1, "", Yearly(0.0, 0.0, 0.0, 0.0), "N/A", "N/A", "N/A");
            var b := Outcome("2", "", 0.0, 0.0, 0.0, "count", NotStarted, "", 2, "", Yearly(0.0, 0.0, 0.0, 0.0), "N/A", "N/A", "N/A");
            OverallProgress([a, b]) == 150
  {
    var a := Outcome("1", "", 0.0, 100.0, 300.0, "count", OnTrack, "", 1, "", Yearly(0.0, 0.0, 0.0, 0.0), "N/A", "N/A", "N/A");
    var b := Outcome("2", "", 0.0, 0.0, 0.0, "count", NotStarted, "", 2, "", Yearly(0.0, 0.0, 0.0, 0.0), "N/A", "N/A", "N/A");
    assert [a, b][..1] == [a];
    assert [a][..0] == [];
    assert UncappedSum([]) == 0.0;
    assert UncappedSum([a]) == 300.0;
    assert UncappedSum([a, b]) == UncappedSum([a]) + 0.0;
    RoundOfInteger(150);
  }

  /** With non-negative actuals and targets, the overall progress is never negative. */
  lemma {:induction false} UncappedSumNonNegative(outcomes: seq<Outcome>)
    requires forall i :: 0 <= i < |outcomes| ==> outcomes[i].actual >= 0.0
    ensures UncappedSum(outcomes) >= 0.0
  {
    if outcomes != [] {
      var last := outcomes[|outcomes| - 1];
      UncappedSumNonNegative(outcomes[..|outcomes| - 1]);
      if last.target > 0.0 {
        var q := last.actual / last.target;
        assert q * last.target == last.actual;
      }
    }
  }

  // ---------------------------------------------------------------- modal timeline

  datatype YearPoint = YearPoint(year: int, target: real, cumulative: real)

  /** The modal's yearly timeline: running sums through 2026, and the total target for 2027. */
  function YearlyData(card: Outcome): (r: seq<YearPoint>)
    ensures |r| == 4
    ensures forall i :: 0 <= i < 4 ==> r[i].year == 2024 + i
    ensures r[3].cumulative == card.target
  {
    var y := card.yearly;
    [ YearPoint(2024, y.y2024, y.y2024),
      YearPoint(2025, y.y2025, y.y2024 + y.y2025),
      YearPoint(2026, y.y2026, y.y2024 + y.y2025 + y.y2026),
      YearPoint(2027, y.y2027, card.target) ]
  }

  /** Through 2026 each cumulative value adds that year's target to the previous one; the 2027
      value is the total target, which differs from the four-year sum whenever the logframe's
      total does. */
  lemma YearlyDataRunningSum(card: Outcome)
    ensures var r := YearlyData(card);
            && r[0].cumulative == r[0].target
            && (forall i :: 1 <= i < 3 ==> r[i].cumulative == r[i - 1].cumulative + r[i].target)
            && (r[3].cumulative == r[2].cumulative + r[3].target <==>
                card.target == card.yearly.y2024 + card.yearly.y2025 + card.yearly.y2026 + card.yearly.y2027)
  {
  }
}
