/** The budget tracking page (src/pages/BudgetTracking.tsx): the status colour and badge of a
    spend ratio, the width of its progress bars, the one expanded output, and the red, orange
    and green alerts computed from the loaded budget. */
module BudgetTracking {
  import opened Wrappers
  import opened Seqs
  import opened Numeric
  import opened BudgetData
  import BudgetSection

  datatype Colour = Red | Orange | Green

  /** The spend ratio as a percentage; 0 when nothing (or a negative amount) is planned. */
  function Percent(spent: real, planned: real): real
  {
    if planned > 0.0 then (spent / planned) * 100.0 else 0.0
  }

  /** `getStatusColor`: red above 100%, orange above 80%, green otherwise, where the ratio is 0
      unless the plan is positive. */
  function GetStatusColor(spent: real, planned: real): (c: Colour)
    ensures c == Red <==> planned > 0.0 && spent > planned
    ensures c == Orange <==> planned > 0.0 && 0.8 * planned < spent <= planned
    ensures c == Green <==> planned <= 0.0 || spent <= 0.8 * planned
  {
    var pct := Percent(spent, planned);
    assert planned > 0.0 ==> (pct > 100.0 <==> spent > planned) && (pct > 80.0 <==> spent > 0.8 * planned) by {
      if planned > 0.0 {
        BudgetSection.PercentOfPositive(spent, planned);
      }
    }
    if pct > 100.0 then Red
    else if pct > 80.0 then Orange
    else Green
  }

  /** The status badge of an activity row, computed from its own percentage. */
  function BadgeText(spent: real, planned: real): string
  {
    var actPct := Percent(spent, planned);
    if actPct > 100.0 then "Over Budget" else if actPct > 80.0 then "Near Limit" else "On Budget"
  }

  /** The badge always names the colour it is drawn in. */
  lemma BadgeMatchesColour(spent: real, planned: real)
    ensures BadgeText(spent, planned) == "Over Budget" <==> GetStatusColor(spent, planned) == Red
    ensures BadgeText(spent, planned) == "Near Limit" <==> GetStatusColor(spent, planned) == Orange
    ensures BadgeText(spent, planned) == "On Budget" <==> GetStatusColor(spent, planned) == Green
  {
    if planned > 0.0 {
      BudgetSection.PercentOfPositive(spent, planned);
    }
  }

  /** This page's colour and the dashboard section's status agree on every input with a
      non-negative plan; a negative plan is green here but is rated by its ratio there. */
  lemma ColourAgreesWithSectionStatus(spent: real, planned: real)
    requires planned >= 0.0
    ensures GetStatusColor(spent, planned) == Red <==> BudgetSection.GetBudgetStatus(spent, planned) == BudgetSection.OverBudget
    ensures GetStatusColor(spent, planned) == Orange <==> BudgetSection.GetBudgetStatus(spent, planned) == BudgetSection.NearLimit
    ensures GetStatusColor(spent, planned) == Green <==> BudgetSection.GetBudgetStatus(spent, planned) == BudgetSection.OnBudget
  {
    if planned > 0.0 {
      BudgetSection.BudgetStatusOfPositivePlan(spent, planned);
    }
  }

  /** With a negative plan the two copies part: spending -150 against -100 is green on this
      page and Over Budget in the dashboard section. */
  lemma NegativePlanRatedDifferently()
    ensures GetStatusColor(-90.0, -100.0) == Green
    ensures BudgetSection.GetBudgetStatus(-90.0, -100.0) == BudgetSection.NearLimit
    ensures GetStatusColor(-150.0, -100.0) == Green
    ensures BudgetSection.GetBudgetStatus(-150.0, -100.0) == BudgetSection.OverBudget
  {
  }

  /** `Math.min(pct, 100)`: the width of a progress fill, which never passes the track. */
  function FillWidth(pct: real): (w: real)
    ensures w <= 100.0
    ensures w == pct || (pct > 100.0 && w == 100.0)
  {
    Min(pct, 100.0)
  }

  /** The fill of an activity's bar lies in [0, 100] when spending is not negative. */
  lemma FillOfActivity(spent: real, planned: real)
    requires spent >= 0.0
    ensures 0.0 <= FillWidth(Percent(spent, planned)) <= 100.0
  {
    if planned > 0.0 {
      assert spent / planned >= 0.0;
    }
  }

  /** Clicking an output's header: it closes when it was the open one and otherwise opens,
      closing whichever other output was open. */
  function ToggleExpanded(expanded: Option<string>, id: string): (r: Option<string>)
    ensures r == None <==> expanded == Some(id)
    ensures r != None ==> r == Some(id)
  {
    if expanded == Some(id) then None else Some(id)
  }

  /** Two clicks on the same header leave that output closed unless it started open. */
  lemma ToggleTwice(expanded: Option<string>, id: string)
    ensures ToggleExpanded(ToggleExpanded(expanded, id), id) == (if expanded == Some(id) then Some(id) else None)
  {
  }

  /** The red test: spending above the plan. */
  predicate IsOverspent(a: ActivityBudget) { a.spent > a.planned }

  /** The orange test: spending above 80% of the plan but not above it. */
  predicate IsApproaching(a: ActivityBudget) { a.spent > a.planned * 0.8 && a.spent <= a.planned }

  /** The green test for one activity. */
  predicate WithinLimit(a: ActivityBudget) { a.spent <= a.planned * 0.8 }

  function OverspentOf(o: OutputBudget): seq<ActivityBudget> { Filter(o.activities, IsOverspent) }

  function ApproachingOf(o: OutputBudget): seq<ActivityBudget> { Filter(o.activities, IsApproaching) }

  /** The activities of the red alerts, output by output. */
  function RedAlerts(outputs: seq<OutputBudget>): seq<ActivityBudget>
  {
    FlatMap(outputs, OverspentOf)
  }

  /** The activities of the orange alerts, output by output. */
  function OrangeAlerts(outputs: seq<OutputBudget>): seq<ActivityBudget>
  {
    FlatMap(outputs, ApproachingOf)
  }

  /** The green banner: every activity of every output is within 80% of its plan. */
  predicate GreenBanner(outputs: seq<OutputBudget>)
  {
    forall i :: 0 <= i < |outputs| ==> forall a :: a in outputs[i].activities ==> WithinLimit(a)
  }

  /** An activity gets a red alert exactly when some output lists it and it spent above plan. */
  lemma RedAlertsNameOverspent(outputs: seq<OutputBudget>, a: ActivityBudget)
    ensures a in RedAlerts(outputs) <==>
              (exists i :: 0 <= i < |outputs| && a in outputs[i].activities) && a.spent > a.planned
  {
    FlatMapMembers(outputs, OverspentOf, a);
    if (exists i :: 0 <= i < |outputs| && a in outputs[i].activities) && a.spent > a.planned {
      var i :| 0 <= i < |outputs| && a in outputs[i].activities;
      var k :| 0 <= k < |outputs[i].activities| && outputs[i].activities[k] == a;
      assert a in OverspentOf(outputs[i]);
    }
  }

  /** An activity gets an orange alert exactly when some output lists it and it spent above 80%
      of its plan but not above the plan. */
  lemma OrangeAlertsNameApproaching(outputs: seq<OutputBudget>, a: ActivityBudget)
    ensures a in OrangeAlerts(outputs) <==>
              (exists i :: 0 <= i < |outputs| && a in outputs[i].activities) && a.planned * 0.8 < a.spent <= a.planned
  {
    FlatMapMembers(outputs, ApproachingOf, a);
    if (exists i :: 0 <= i < |outputs| && a in outputs[i].activities) && a.planned * 0.8 < a.spent <= a.planned {
      var i :| 0 <= i < |outputs| && a in outputs[i].activities;
      var k :| 0 <= k < |outputs[i].activities| && outputs[i].activities[k] == a;
      assert a in ApproachingOf(outputs[i]);
    }
  }

  /** No activity is both red and orange. */
  lemma RedAndOrangeDisjoint(outputs: seq<OutputBudget>, a: ActivityBudget)
    ensures !(a in RedAlerts(outputs) && a in OrangeAlerts(outputs))
  {
    RedAlertsNameOverspent(outputs, a);
    OrangeAlertsNameApproaching(outputs, a);
  }

  /** Every plan of every output is non-negative, as sums of planned amounts are. */
  predicate PlansNonNegative(outputs: seq<OutputBudget>)
  {
    forall i :: 0 <= i < |outputs| ==> forall a :: a in outputs[i].activities ==> a.planned >= 0.0
  }

  /** Without a red or an orange alert the green banner shows. */
  lemma NoAlertsGivesGreenBanner(outputs: seq<OutputBudget>)
    requires RedAlerts(outputs) == [] && OrangeAlerts(outputs) == []
    ensures GreenBanner(outputs)
  {
    if !GreenBanner(outputs) {
      var i :| 0 <= i < |outputs| && exists a :: a in outputs[i].activities && !WithinLimit(a);
      var a :| a in outputs[i].activities && !WithinLimit(a);
      RedAlertsNameOverspent(outputs, a);
      OrangeAlertsNameApproaching(outputs, a);
      assert false;
    }
  }

  /** With non-negative plans the green banner shows exactly when there is neither a red nor
      an orange alert. */
  lemma GreenBannerIffNoAlerts(outputs: seq<OutputBudget>)
    requires PlansNonNegative(outputs)
    ensures GreenBanner(outputs) <==> RedAlerts(outputs) == [] && OrangeAlerts(outputs) == []
  {
    if GreenBanner(outputs) {
      if RedAlerts(outputs) != [] {
        RedAlertsNameOverspent(outputs, RedAlerts(outputs)[0]);
        assert false;
      }
      if OrangeAlerts(outputs) != [] {
        OrangeAlertsNameApproaching(outputs, OrangeAlerts(outputs)[0]);
        assert false;
      }
    } else {
      var i :| 0 <= i < |outputs| && exists a :: a in outputs[i].activities && !WithinLimit(a);
      var a :| a in outputs[i].activities && !WithinLimit(a);
      RedAlertsNameOverspent(outputs, a);
      OrangeAlertsNameApproaching(outputs, a);
      assert a in RedAlerts(outputs) || a in OrangeAlerts(outputs);
    }
  }

  /** A negative plan breaks the link: spending -90 against -100 is over the plan, so it raises
      a red alert, and within 80% of it, so the green banner shows as well. */
  lemma NegativePlanRedAndGreen()
    ensures var a := ActivityBudget("1.1", -100.0, -90.0, [], []);
            var outputs := [OutputBudget("1", [a], -100.0, -90.0)];
            a in RedAlerts(outputs) && GreenBanner(outputs)
  {
    var a := ActivityBudget("1.1", -100.0, -90.0, [], []);
    var outputs := [OutputBudget("1", [a], -100.0, -90.0)];
    RedAlertsNameOverspent(outputs, a);
    assert a in outputs[0].activities;
  }

  /** An activity with nothing planned but something spent raises a red alert and keeps the
      green banner away, while its own bar is green and its badge reads On Budget. */
  lemma UnplannedSpendingShownGreen(outputs: seq<OutputBudget>, a: ActivityBudget)
    requires a.planned == 0.0 && a.spent > 0.0
    requires exists i :: 0 <= i < |outputs| && a in outputs[i].activities
    ensures a in RedAlerts(outputs) && !GreenBanner(outputs)
    ensures GetStatusColor(a.spent, a.planned) == Green && BadgeText(a.spent, a.planned) == "On Budget"
  {
    RedAlertsNameOverspent(outputs, a);
    var i :| 0 <= i < |outputs| && a in outputs[i].activities;
    assert !WithinLimit(a);
  }
}
