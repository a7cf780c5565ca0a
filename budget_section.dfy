/** The dashboard budget section (src/components/dashboard/BudgetSection.tsx): the spend-ratio
    status, the output summaries, the scale of the output bars, and the alert list. */
module BudgetSection {
  import opened Seqs
  import opened Numeric
  import opened BudgetData

  datatype BudgetStatus = OnBudget | NearLimit | OverBudget

  /** `getBudgetStatus`: nothing planned is On Budget; otherwise above 100% is Over and above
      80% is Near. */
  function GetBudgetStatus(spent: real, planned: real): (s: BudgetStatus)
    ensures planned == 0.0 ==> s == OnBudget
    ensures planned != 0.0 ==> (s == OverBudget <==> (spent / planned) * 100.0 > 100.0)
    ensures planned != 0.0 ==> (s == NearLimit <==> 80.0 < (spent / planned) * 100.0 <= 100.0)
  {
    if planned == 0.0 then OnBudget
    else
      var pct := (spent / planned) * 100.0;
      if pct > 100.0 then OverBudget
      else if pct > 80.0 then NearLimit
      else OnBudget
  }

  lemma BudgetStatusExamples()
    ensures GetBudgetStatus(120.0, 100.0) == OverBudget
    ensures GetBudgetStatus(85.0, 100.0) == NearLimit
    ensures GetBudgetStatus(50.0, 100.0) == OnBudget
    ensures GetBudgetStatus(100.0, 100.0) == NearLimit
    ensures GetBudgetStatus(80.0, 100.0) == OnBudget
    ensures GetBudgetStatus(5.0, 0.0) == OnBudget
  {
  }

  /** For a positive plan the status compares spent with the plan directly. */
  lemma BudgetStatusOfPositivePlan(spent: real, planned: real)
    requires planned > 0.0
    ensures GetBudgetStatus(spent, planned) == OverBudget <==> spent > planned
    ensures GetBudgetStatus(spent, planned) == NearLimit <==> 0.8 * planned < spent <= planned
  {
    PercentOfPositive(spent, planned);
  }

  /** `(spent / planned) * 100` against 100 and 80, for a positive plan. */
  lemma PercentOfPositive(spent: real, planned: real)
    requires planned > 0.0
    ensures (spent / planned) * 100.0 > 100.0 <==> spent > planned
    ensures (spent / planned) * 100.0 > 80.0 <==> spent > 0.8 * planned
  {
    PercentAbove(spent, planned, 1.0);
    PercentAbove(spent, planned, 0.8);
    assert 1.0 * planned == planned;
  }

  /** The ratio exceeds `t` exactly when spent exceeds `t` times the plan. */
  lemma PercentAbove(spent: real, planned: real, t: real)
    requires planned > 0.0
    ensures (spent / planned) * 100.0 > t * 100.0 <==> spent > t * planned
  {
    var q := spent / planned;
    assert q * planned == spent;
    assert (q - t) * planned == spent - t * planned;
    SignOfProduct(q - t, planned);
  }

  /** With `b` positive, `a * b` has the sign of `a`. */
  lemma SignOfProduct(a: real, b: real)
    requires b > 0.0
    ensures a * b > 0.0 <==> a > 0.0
    ensures a * b < 0.0 <==> a < 0.0
  {
    if a > 0.0 {
      assert a * b > 0.0;
    } else if a < 0.0 {
      assert (-a) * b > 0.0;
    }
  }

  datatype ActivitySummary = ActivitySummary(id: string, planned: real, spent: real, status: BudgetStatus)

  datatype OutputSummary = OutputSummary(outputId: string, planned: real, spent: real, percentage: real,
                                         status: BudgetStatus, activities: seq<ActivitySummary>)

  function ActivitySummaryOf(a: ActivityBudget): ActivitySummary
  {
    ActivitySummary(a.id, a.planned, a.spent, GetBudgetStatus(a.spent, a.planned))
  }

  /** One output's summary: percentage 0 unless the plan is positive. */
  function OutputSummaryOf(o: OutputBudget): (s: OutputSummary)
    ensures s.percentage == if o.totalPlanned > 0.0 then (o.totalSpent / o.totalPlanned) * 100.0 else 0.0
    ensures s.status == GetBudgetStatus(o.totalSpent, o.totalPlanned)
    ensures |s.activities| == |o.activities|
    ensures forall i :: 0 <= i < |o.activities| ==>
              (s.activities[i].id == o.activities[i].id
               && s.activities[i].status == GetBudgetStatus(o.activities[i].spent, o.activities[i].planned))
  {
    OutputSummary(o.outputId, o.totalPlanned, o.totalSpent,
      if o.totalPlanned > 0.0 then (o.totalSpent / o.totalPlanned) * 100.0 else 0.0,
      GetBudgetStatus(o.totalSpent, o.totalPlanned),
      seq(|o.activities|, i requires 0 <= i < |o.activities| => ActivitySummaryOf(o.activities[i])))
  }

  /** `outputSummaries`: one summary per output, in order. */
  function OutputSummaries(outputs: seq<OutputBudget>): (r: seq<OutputSummary>)
    ensures |r| == |outputs| && forall i :: 0 <= i < |outputs| ==> r[i] == OutputSummaryOf(outputs[i])
  {
    seq(|outputs|, i requires 0 <= i < |outputs| => OutputSummaryOf(outputs[i]))
  }

  /** An output with spending and no plan shows 0% but, being unplanned, On Budget. */
  lemma UnplannedOutput(o: OutputBudget)
    requires o.totalPlanned == 0.0 && o.totalSpent > 0.0
    ensures OutputSummaryOf(o).percentage == 0.0 && OutputSummaryOf(o).status == OnBudget
  {
  }

  /** `Math.max(...outputSummaries.map(o => o.planned), 1)`. */
  function MaxPlanned(summaries: seq<OutputSummary>): (m: real)
    ensures m >= 1.0
    ensures forall i :: 0 <= i < |summaries| ==> summaries[i].planned <= m
    ensures m == 1.0 || exists i :: 0 <= i < |summaries| && summaries[i].planned == m
  {
    if summaries == [] then 1.0
    else
      var rest := MaxPlanned(summaries[1..]);
      assert forall i :: 1 <= i < |summaries| ==> summaries[i] == summaries[1..][i - 1];
      Max(summaries[0].planned, rest)
  }

  /** Scaled by `maxPlanned`, no output's bar is wider than the track. */
  lemma OutputBarsFit(summaries: seq<OutputSummary>, i: int)
    requires 0 <= i < |summaries|
    ensures (summaries[i].planned / MaxPlanned(summaries)) * 100.0 <= 100.0
  {
    var m := MaxPlanned(summaries);
    var p := summaries[i].planned;
    assert p <= m;
    RatioAtMostHundred(p, m);
  }

  lemma RatioAtMostHundred(p: real, m: real)
    requires 0.0 < m && p <= m
    ensures (p / m) * 100.0 <= 100.0
  {
    PercentAbove(p, m, 1.0);
  }

  // ---------------------------------------------------------------- alerts

  datatype AlertKind = Danger | Warning | Success

  /** An alert; the message text, a formatted string naming the activity, is left out. */
  datatype Alert = Alert(kind: AlertKind, activityId: string)

  function ActivitiesOf(o: OutputSummary): seq<ActivitySummary> { o.activities }

  /** Every activity summary, output by output. */
  function AllActivities(summaries: seq<OutputSummary>): seq<ActivitySummary>
  {
    FlatMap(summaries, ActivitiesOf)
  }

  predicate IsOver(a: ActivitySummary) { a.spent > a.planned }

  /** The warning test: `pct` is 0 unless the plan is positive, and must lie in (80, 100]. */
  predicate IsNear(a: ActivitySummary)
  {
    var pct := if a.planned > 0.0 then (a.spent / a.planned) * 100.0 else 0.0;
    pct > 80.0 && pct <= 100.0
  }

  function DangerOf(a: ActivitySummary): (r: seq<Alert>)
    ensures |r| <= 1 && forall i :: 0 <= i < |r| ==> r[i] == Alert(Danger, a.id)
  {
    if IsOver(a) then [Alert(Danger, a.id)] else []
  }

  function WarningOf(a: ActivitySummary): (r: seq<Alert>)
    ensures |r| <= 1 && forall i :: 0 <= i < |r| ==> r[i] == Alert(Warning, a.id)
  {
    if IsNear(a) then [Alert(Warning, a.id)] else []
  }

  /** No activity is both over budget and near its limit, whatever its plan. */
  lemma OverAndNearDisjoint(a: ActivitySummary)
    ensures !(IsOver(a) && IsNear(a))
  {
    if a.planned > 0.0 {
      PercentOfPositive(a.spent, a.planned);
    }
  }

  /** The alert list's specification: the danger alerts, then the warnings, each in output and
      activity order; a single success alert when there are none; at most five kept. */
  function AlertList(summaries: seq<OutputSummary>): (r: seq<Alert>)
    ensures 1 <= |r| <= 5
    ensures r == [Alert(Success, "")] <==>
              FlatMap(AllActivities(summaries), DangerOf) == [] && FlatMap(AllActivities(summaries), WarningOf) == []
    ensures var all := FlatMap(AllActivities(summaries), DangerOf) + FlatMap(AllActivities(summaries), WarningOf);
            all != [] ==> |r| == (if |all| < 5 then |all| else 5) && r == all[..|r|]
  {
    var dangers := FlatMap(AllActivities(summaries), DangerOf);
    var warnings := FlatMap(AllActivities(summaries), WarningOf);
    var all := dangers + warnings;
    if all == [] then [Alert(Success, "")]
    else
      KindsOfPieces(AllActivities(summaries), dangers, warnings);
      assert all[0].kind != Success;
      if |all| <= 5 then all else all[..5]
  }

  /** The kinds of the alerts in the two lists. */
  lemma KindsOfPieces(acts: seq<ActivitySummary>, dangers: seq<Alert>, warnings: seq<Alert>)
    requires dangers == FlatMap(acts, DangerOf) && warnings == FlatMap(acts, WarningOf)
    ensures forall i :: 0 <= i < |dangers| ==> dangers[i].kind == Danger
    ensures forall i :: 0 <= i < |warnings| ==> warnings[i].kind == Warning
  {
    forall i | 0 <= i < |dangers|
      ensures dangers[i].kind == Danger
    {
      FlatMapMembers(acts, DangerOf, dangers[i]);
    }
    forall i | 0 <= i < |warnings|
      ensures warnings[i].kind == Warning
    {
      FlatMapMembers(acts, WarningOf, warnings[i]);
    }
  }

  /** All danger alerts come before all warnings. */
  lemma DangersFirst(summaries: seq<OutputSummary>)
    ensures var r := AlertList(summaries);
            forall i, j :: 0 <= i < j < |r| && r[j].kind == Danger ==> r[i].kind == Danger
  {
    var dangers := FlatMap(AllActivities(summaries), DangerOf);
    var warnings := FlatMap(AllActivities(summaries), WarningOf);
    KindsOfPieces(AllActivities(summaries), dangers, warnings);
  }

  /** The activities each alert names: an activity is named by a danger alert exactly when its
      spending exceeds its plan. */
  lemma DangerAlertsNameOverspent(summaries: seq<OutputSummary>, id: string)
    ensures Alert(Danger, id) in FlatMap(AllActivities(summaries), DangerOf)
            <==> exists a :: a in AllActivities(summaries) && a.id == id && IsOver(a)
  {
    var acts := AllActivities(summaries);
    FlatMapMembers(acts, DangerOf, Alert(Danger, id));
    if exists a :: a in acts && a.id == id && IsOver(a) {
      var a :| a in acts && a.id == id && IsOver(a);
      var i :| 0 <= i < |acts| && acts[i] == a;
      assert Alert(Danger, id) in DangerOf(acts[i]);
    }
  }

  /** `alerts`: the two nested `forEach` passes that push danger and warning alerts, the
      success alert, and `slice(0, 5)`. */
  method Alerts(summaries: seq<OutputSummary>) returns (alerts: seq<Alert>)
    ensures alerts == AlertList(summaries)
  {
    var dangers := PassOver([], summaries, DangerOf);
    assert dangers == FlatMap(AllActivities(summaries), DangerOf);
    var alertList := PassOver(dangers, summaries, WarningOf);
    assert alertList == FlatMap(AllActivities(summaries), DangerOf) + FlatMap(AllActivities(summaries), WarningOf);
    if |alertList| == 0 {
      alertList := alertList + [Alert(Success, "")];
    }
    if |alertList| <= 5 {
      alerts := alertList;
    } else {
      alerts := alertList[..5];
    }
  }

  /** One of the two nested passes: every output's activities, in order, pushing `f`'s alerts. */
  method PassOver(alertList: seq<Alert>, summaries: seq<OutputSummary>, f: ActivitySummary -> seq<Alert>)
      returns (r: seq<Alert>)
    ensures r == alertList + FlatMap(AllActivities(summaries), f)
  {
    r := alertList;
    var o := 0;
    while o < |summaries|
      invariant 0 <= o <= |summaries|
      invariant r == alertList + FlatMap(AllActivities(summaries[..o]), f)
    {
      r := PushEach(r, summaries[o].activities, f);
      OutputStep(summaries, o, f);
      o := o + 1;
    }
    assert summaries[..o] == summaries;
  }

  /** Entering one more output appends its activities' alerts. */
  lemma OutputStep(summaries: seq<OutputSummary>, o: int, f: ActivitySummary -> seq<Alert>)
    requires 0 <= o < |summaries|
    ensures FlatMap(AllActivities(summaries[..o + 1]), f)
            == FlatMap(AllActivities(summaries[..o]), f) + FlatMap(summaries[o].activities, f)
  {
    assert summaries[..o + 1] == summaries[..o] + [summaries[o]];
    FlatMapSnoc(summaries[..o], summaries[o], ActivitiesOf);
    FlatMapConcat(AllActivities(summaries[..o]), summaries[o].activities, f);
  }

  /** The inner `forEach`: each activity's alert, if any, pushed in order. */
  method PushEach(alertList: seq<Alert>, acts: seq<ActivitySummary>, f: ActivitySummary -> seq<Alert>)
      returns (r: seq<Alert>)
    ensures r == alertList + FlatMap(acts, f)
  {
    r := alertList;
    var a := 0;
    while a < |acts|
      invariant 0 <= a <= |acts|
      invariant r == alertList + FlatMap(acts[..a], f)
    {
      assert acts[..a + 1] == acts[..a] + [acts[a]];
      FlatMapSnoc(acts[..a], acts[a], f);
      r := r + f(acts[a]);
      a := a + 1;
    }
    assert acts[..a] == acts;
  }
}
