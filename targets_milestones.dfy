/** The Targets & Milestones page (src/pages/TargetsMilestones.tsx): outcome cards, output
    groups with per-indicator status around an expected 45%, the component filter and the
    bucketing of outputs by component. */
module TargetsMilestones {
  import opened Wrappers
  import opened Numeric
  import opened Seqs
  import opened TargetTypes

  /** Expected progress to date, as a percentage of the total target. */
  const EXPECTED_PERCENT: real := 45.0

  /** `calculateStatus`: Not Started when the target or the actual is zero; otherwise the
      percentage complete against 110% and 80% of the expected percentage. */
  function CalculateStatus(actual: real, target: real): (s: TargetStatus)
    ensures s == NotStarted <==> target == 0.0 || actual == 0.0
    ensures target != 0.0 && actual != 0.0 ==>
      && (s == Ahead <==> actual / target * 100.0 >= EXPECTED_PERCENT * 1.1)
      && (s == OnTrack <==> EXPECTED_PERCENT * 0.8 <= actual / target * 100.0 < EXPECTED_PERCENT * 1.1)
      && (s == Behind <==> actual / target * 100.0 < EXPECTED_PERCENT * 0.8)
  {
    if target == 0.0 || actual == 0.0 then NotStarted
    else
      var percentComplete := (actual / target) * 100.0;
      if percentComplete >= EXPECTED_PERCENT * 1.1 then Ahead
      else if percentComplete >= EXPECTED_PERCENT * 0.8 then OnTrack
      else Behind
  }

  /** Behind < On Track < Ahead. */
  function Rank(s: TargetStatus): nat
  {
    match s
    case NotStarted => 0
    case Behind => 1
    case OnTrack => 2
    case Ahead => 3
  }

  /** For a fixed positive target, raising a positive actual never worsens the status. */
  lemma CalculateStatusMonotone(a: real, b: real, target: real)
    requires target > 0.0 && 0.0 < a <= b
    ensures Rank(CalculateStatus(a, target)) <= Rank(CalculateStatus(b, target))
  {
    DivideMonotone(a, b, target);
  }

  lemma DivideMonotone(a: real, b: real, t: real)
    requires t > 0.0 && a <= b
    ensures a / t * 100.0 <= b / t * 100.0
  {
    var qa, qb := a / t, b / t;
    assert qa * t == a && qb * t == b;
    assert (qb - qa) * t == b - a;
  }

  /** A negative target is not caught: with a positive actual it reads as Behind. */
  lemma NegativeTargetIsBehind(actual: real, target: real)
    requires actual > 0.0 && target < 0.0
    ensures CalculateStatus(actual, target) == Behind
  {
    var q := actual / target;
    assert q * target == actual;
  }

  // ---------------------------------------------------------------- outcome cards

  datatype OutcomeConfig = OutcomeConfig(id: string, name: string, icon: string, unit: string)

  const OUTCOME_CONFIG: seq<OutcomeConfig> := [
    OutcomeConfig("1", "Youth with ICT Skills", "🎓", "count"),
    OutcomeConfig("2", "Technology Start-ups", "🚀", "count"),
    OutcomeConfig("2.1", "Green Jobs Created", "💼", "count"),
    OutcomeConfig("3", "Mobilized Investment", "💰", "USD"),
    OutcomeConfig("3.1", "Green Publications", "📚", "count")
  ]

  /** One outcome card: zeros and Not Started when the logframe lacks the indicator. */
  function OutcomeOf(indicators: seq<Indicator>, values: map<string, real>, config: OutcomeConfig): OutcomeIndicator
  {
    match Find(indicators, config.id)
    case None => OutcomeIndicator(config.id, config.name, config.icon, 0.0, 0.0, 0.0, config.unit, NotStarted)
    case Some(ind) =>
      var target := TotalTarget(ind);
      var actual := ActualOf(values, config.id);
      OutcomeIndicator(config.id, config.name, config.icon, ParseNumber(Str(ind.baseline)), target, actual,
        config.unit, CalculateStatus(actual, target))
  }

  /** `outcomeIndicators`: empty until both the logframe and a snapshot are loaded. */
  function OutcomeIndicators(indicators: seq<Indicator>, actuals: Option<PerformanceActual>): (r: seq<OutcomeIndicator>)
    ensures |indicators| == 0 || actuals.None? ==> r == []
    ensures |indicators| > 0 && actuals.Some? ==>
      |r| == |OUTCOME_CONFIG| && forall i :: 0 <= i < |r| ==> r[i].id == OUTCOME_CONFIG[i].id
  {
    if |indicators| == 0 || actuals.None? then []
    else seq(|OUTCOME_CONFIG|, i requires 0 <= i < |OUTCOME_CONFIG| => OutcomeOf(indicators, actuals.value.values, OUTCOME_CONFIG[i]))
  }

  /** An outcome whose indicator is missing from the logframe has zero numbers and is Not
      Started; a present one takes its target from the logframe and its actual from the snapshot,
      0 when the snapshot lacks the id. */
  lemma OutcomeCard(indicators: seq<Indicator>, values: map<string, real>, config: OutcomeConfig)
    ensures var card := OutcomeOf(indicators, values, config);
      && card.id == config.id && card.name == config.name && card.unit == config.unit
      && ((forall j :: 0 <= j < |indicators| ==> indicators[j].id != config.id) ==>
            card.baseline == 0.0 && card.target == 0.0 && card.actual == 0.0 && card.status == NotStarted)
      && ((exists j :: 0 <= j < |indicators| && indicators[j].id == config.id) ==>
            && card.actual == ActualOf(values, config.id)
            && card.target == TotalTarget(Find(indicators, config.id).value)
            && card.status == CalculateStatus(card.actual, card.target))
  {
  }

  // ---------------------------------------------------------------- output groups

  datatype GroupConfig = GroupConfig(id: string, name: string, description: string, component: int)

  const GROUP_CONFIG: seq<GroupConfig> := [
    GroupConfig("Output 1.1", "DigiGreen Centers Infrastructure", "Establish and operationalize 35 DigiGreen centers", 1),
    GroupConfig("Output 1.2", "Basic ICT Skills Training", "Basic ICT and green practices for schools and universities", 1),
    GroupConfig("Output 1.3", "Higher-level ICT Training", "Advanced ICT and green business training for universities", 1),
    GroupConfig("Output 2.1", "Incubation Program Development", "Design and develop Greenpreneur incubation program", 2),
    GroupConfig("Output 2.2", "Incubation Program Implementation", "Implement Greenpreneur incubation with mentorship", 2),
    GroupConfig("Output 3.1", "Conducive Environment", "Create sustainable environment for Greenpreneur program", 3),
    GroupConfig("Output 3.2", "Government Capacity Building", "Enhance Ivorian government capacity in digital green markets", 3)
  ]

  function ChildOf(parentId: string): Indicator -> bool
  {
    (ind: Indicator) => ind.parentId == parentId
  }

  function ProgressOf(ind: Indicator, values: map<string, real>): IndicatorProgress
  {
    var target := TotalTarget(ind);
    var actual := ActualOf(values, ind.id);
    IndicatorProgress(ind.id, ind.labelText, target, actual, "count", CalculateStatus(actual, target))
  }

  function ProgressList(inds: seq<Indicator>, values: map<string, real>): (r: seq<IndicatorProgress>)
    ensures |r| == |inds|
    ensures forall i :: 0 <= i < |r| ==> r[i] == ProgressOf(inds[i], values)
  {
    seq(|inds|, i requires 0 <= i < |inds| => ProgressOf(inds[i], values))
  }

  function GroupOf(indicators: seq<Indicator>, values: map<string, real>, config: GroupConfig): OutputGroup
  {
    OutputGroup(config.id, config.name, config.description, config.component,
      ProgressList(Filter(indicators, ChildOf(config.id)), values))
  }

  /** `outputGroups`: one group per configured output, empty until data is loaded. */
  function OutputGroups(indicators: seq<Indicator>, actuals: Option<PerformanceActual>): (r: seq<OutputGroup>)
    ensures |indicators| == 0 || actuals.None? ==> r == []
    ensures |indicators| > 0 && actuals.Some? ==> |r| == |GROUP_CONFIG|
  {
    if |indicators| == 0 || actuals.None? then []
    else seq(|GROUP_CONFIG|, i requires 0 <= i < |GROUP_CONFIG| => GroupOf(indicators, actuals.value.values, GROUP_CONFIG[i]))
  }

  /** A group holds a progress entry for exactly the indicators whose parent is that output, in
      logframe order, each rated against its own parsed target and snapshot actual. */
  lemma GroupMembers(indicators: seq<Indicator>, values: map<string, real>, config: GroupConfig)
    ensures var own := Filter(indicators, ChildOf(config.id));
            && Subsequence(own, indicators)
            && (forall ind :: ind in own <==> ind in indicators && ind.parentId == config.id)
            && GroupOf(indicators, values, config).indicators == ProgressList(own, values)
  {
    var own := Filter(indicators, ChildOf(config.id));
    FilterIsSubsequence(indicators, ChildOf(config.id));
    forall ind | ind in indicators && ind.parentId == config.id
      ensures ind in own
    {
      var j :| 0 <= j < |indicators| && indicators[j] == ind;
    }
  }

  /** Every group carries the component of its configuration, which is 1, 2 or 3. */
  lemma GroupComponents(indicators: seq<Indicator>, actuals: Option<PerformanceActual>)
    ensures forall g :: g in OutputGroups(indicators, actuals) ==> 1 <= g.component <= 3
  {
    var r := OutputGroups(indicators, actuals);
    forall g | g in r
      ensures 1 <= g.component <= 3
    {
      var i :| 0 <= i < |r| && r[i] == g;
      assert g.component == GROUP_CONFIG[i].component;
      ConfigComponent(i);
    }
  }

  lemma ConfigComponent(i: int)
    requires 0 <= i < |GROUP_CONFIG|
    ensures 1 <= GROUP_CONFIG[i].component <= 3
  {
  }

  // ---------------------------------------------------------------- component filter and buckets

  function InComponent(n: int): OutputGroup -> bool
  {
    (g: OutputGroup) => g.component == n
  }

  /** `filteredOutputGroups`: 'all' keeps every group; any other value keeps the groups of the
      component `parseInt` reads from it (none when it reads NaN). */
  function ComponentFilter(groups: seq<OutputGroup>, filter: string): seq<OutputGroup>
  {
    if filter == "all" then groups
    else match ParseInt(filter)
      case None => []
      case Some(n) => Filter(groups, InComponent(n))
  }

  /** 'all' is the identity; a component number keeps exactly that component's groups, in order. */
  lemma ComponentFilterMeaning(groups: seq<OutputGroup>, n: nat)
    ensures ComponentFilter(groups, "all") == groups
    ensures var r := ComponentFilter(groups, NatToString(n));
            && Subsequence(r, groups)
            && (forall g :: g in r <==> g in groups && g.component == n)
  {
    ParseIntOfNatToString(n);
    assert NatToString(n) != "all" by {
      assert IsDigit(NatToString(n)[0]);
    }
    FilterIsSubsequence(groups, InComponent(n));
    forall g | g in groups && g.component == n
      ensures g in Filter(groups, InComponent(n))
    {
      var j :| 0 <= j < |groups| && groups[j] == g;
    }
  }

  /** `outputsByComponent`: each group is pushed into the bucket of its own component. The
      source indexes a record with keys 1, 2 and 3, so any other component would fail there. */
  method OutputsByComponent(groups: seq<OutputGroup>) returns (grouped: map<int, seq<OutputGroup>>)
    requires forall i :: 0 <= i < |groups| ==> 1 <= groups[i].component <= 3
    ensures grouped.Keys == {1, 2, 3}
    ensures forall k :: k in grouped ==> grouped[k] == Filter(groups, InComponent(k))
  {
    grouped := map[1 := [], 2 := [], 3 := []];
    var i := 0;
    while i < |groups|
      invariant 0 <= i <= |groups|
      invariant Buckets(grouped, groups[..i])
    {
      var output := groups[i];
      BucketStep(grouped, groups[..i], output);
      assert groups[..i + 1] == groups[..i] + [output];
      grouped := grouped[output.component := grouped[output.component] + [output]];
      i := i + 1;
    }
    assert groups[..i] == groups;
  }

  /** The three buckets of the groups `done`. */
  ghost predicate Buckets(grouped: map<int, seq<OutputGroup>>, done: seq<OutputGroup>)
  {
    grouped.Keys == {1, 2, 3} && forall k :: k in grouped ==> grouped[k] == Filter(done, InComponent(k))
  }

  /** Pushing a group into its component's bucket keeps the buckets those of the longer list. */
  lemma BucketStep(grouped: map<int, seq<OutputGroup>>, done: seq<OutputGroup>, output: OutputGroup)
    requires Buckets(grouped, done) && 1 <= output.component <= 3
    ensures Buckets(grouped[output.component := grouped[output.component] + [output]], done + [output])
  {
    var g' := grouped[output.component := grouped[output.component] + [output]];
    forall k | k in g'
      ensures g'[k] == Filter(done + [output], InComponent(k))
    {
      FilterConcat(done, [output], InComponent(k));
      FilterSingleton(output, InComponent(k));
    }
  }

  /** The three buckets together hold every group exactly once: no loss and no duplication. */
  lemma {:induction false} BucketsPartition(groups: seq<OutputGroup>)
    requires forall i :: 0 <= i < |groups| ==> 1 <= groups[i].component <= 3
    ensures multiset(Filter(groups, InComponent(1)) + Filter(groups, InComponent(2)) + Filter(groups, InComponent(3)))
            == multiset(groups)
  {
    if groups != [] {
      BucketsPartition(groups[1..]);
      assert groups == [groups[0]] + groups[1..];
    }
  }
}
