/** The budget hook (src/hooks/useBudgetData.ts): a lookup of spending records by activity id,
    the per-output roll-up of planned and spent amounts, and the project totals. Fields that
    the JSON files may lack are `Option`s; `x || 0` is `GetOr(0.0)`. */
module BudgetData {
  import opened Wrappers
  import opened Seqs

  /** An activity's record in budget_spent.json. */
  datatype SpentRecord = SpentRecord(
    id: string, totalSpent: Option<real>,
    spent2024: Option<real>, spent2025: Option<real>, spent2026: Option<real>, spent2027: Option<real>)

  datatype SpentOutput = SpentOutput(activities: Option<seq<SpentRecord>>)

  /** budget_spent.json: `output_expenditure_data` and `expenditure_summary.cumulative_spent_to_date`. */
  datatype SpentData = SpentData(outputs: Option<seq<SpentOutput>>, cumulativeSpent: Option<real>)

  /** An activity of budget_plan.json: its `total` and its per-year planned amounts. */
  datatype PlanActivity = PlanActivity(id: string, total: Option<real>, years: Option<seq<real>>)

  datatype PlanOutput = PlanOutput(outputId: string, activities: Option<seq<PlanActivity>>)

  /** budget_plan.json: `outputs` and `project_metadata.total_budget`. */
  datatype Plan = Plan(outputs: Option<seq<PlanOutput>>, totalBudget: Option<real>)

  datatype ActivityBudget = ActivityBudget(id: string, planned: real, spent: real, plannedByYear: seq<real>, spentByYear: seq<real>)

  datatype OutputBudget = OutputBudget(outputId: string, activities: seq<ActivityBudget>, totalPlanned: real, totalSpent: real)

  datatype BudgetSummary = BudgetSummary(totalBudget: real, totalSpent: real, remaining: real, burnRate: real, outputs: seq<OutputBudget>)

  const DEFAULT_TOTAL_BUDGET: real := 8250000.0

  /** The hook's state before the files arrive. */
  function InitialSummary(): BudgetSummary
  {
    BudgetSummary(DEFAULT_TOTAL_BUDGET, 0.0, DEFAULT_TOTAL_BUDGET, 0.0, [])
  }

  // ---------------------------------------------------------------- spent lookup

  function RecordsOf(o: SpentOutput): seq<SpentRecord> { o.activities.GetOr([]) }

  /** Every spending record, output by output. */
  function AllRecords(spent: SpentData): seq<SpentRecord>
  {
    FlatMap(spent.outputs.GetOr([]), RecordsOf)
  }

  /** Record `i` is the last one with id `k`. */
  predicate LastWithId(records: seq<SpentRecord>, k: string, i: int)
  {
    0 <= i < |records| && records[i].id == k && forall j :: i < j < |records| ==> records[j].id != k
  }

  /** `spentLookup[act.id] = act` over the records in order. */
  function LastById(records: seq<SpentRecord>): map<string, SpentRecord>
  {
    if records == [] then map[]
    else LastById(records[..|records| - 1])[records[|records| - 1].id := records[|records| - 1]]
  }

  /** The lookup has the ids of the records and no others. */
  lemma {:induction false} LastByIdKeys(records: seq<SpentRecord>)
    ensures forall k :: k in LastById(records) <==> exists i :: 0 <= i < |records| && records[i].id == k
  {
    if records != [] {
      var init := records[..|records| - 1];
      LastByIdKeys(init);
      forall k | k in LastById(records)
        ensures exists i :: 0 <= i < |records| && records[i].id == k
      {
        if k != records[|records| - 1].id {
          assert k in LastById(init);
          var i :| 0 <= i < |init| && init[i].id == k;
          assert records[i].id == k;
        }
      }
      forall k | exists i :: 0 <= i < |records| && records[i].id == k
        ensures k in LastById(records)
      {
        var i :| 0 <= i < |records| && records[i].id == k;
        if i < |records| - 1 {
          assert init[i].id == k;
        }
      }
    }
  }

  /** A later record with an id replaces an earlier one: each id maps to its last record. */
  lemma {:induction false} LastByIdValues(records: seq<SpentRecord>)
    ensures forall k :: k in LastById(records) ==> exists i :: LastWithId(records, k, i) && LastById(records)[k] == records[i]
  {
    if records != [] {
      var init := records[..|records| - 1];
      var last := records[|records| - 1];
      LastByIdValues(init);
      forall k | k in LastById(records)
        ensures exists i :: LastWithId(records, k, i) && LastById(records)[k] == records[i]
      {
        if k == last.id {
          assert LastWithId(records, k, |records| - 1);
        } else {
          assert k in LastById(init) && LastById(records)[k] == LastById(init)[k];
          var i :| LastWithId(init, k, i) && LastById(init)[k] == init[i];
          assert LastWithId(records, k, i);
        }
      }
    }
  }

  /** Of two records with one id, the later is the one looked up. */
  lemma LaterDuplicateWins(a: SpentRecord, b: SpentRecord)
    requires a.id == b.id
    ensures LastById([a, b])[a.id] == b
  {
    assert [a, b][..1] == [a];
  }

  /** The nested loops that fill `spentLookup`. */
  method BuildSpentLookup(spent: SpentData) returns (lookup: map<string, SpentRecord>)
    ensures lookup == LastById(AllRecords(spent))
  {
    var outputs := spent.outputs.GetOr([]);
    lookup := map[];
    var o := 0;
    while o < |outputs|
      invariant 0 <= o <= |outputs|
      invariant lookup == LastById(FlatMap(outputs[..o], RecordsOf))
    {
      assert outputs[..o + 1] == outputs[..o] + [outputs[o]];
      FlatMapSnoc(outputs[..o], outputs[o], RecordsOf);
      lookup := AddRecords(lookup, FlatMap(outputs[..o], RecordsOf), RecordsOf(outputs[o]));
      o := o + 1;
    }
    assert outputs[..o] == outputs;
  }

  /** The inner loop: one output's records entered in order. */
  method AddRecords(lookup: map<string, SpentRecord>, ghost before: seq<SpentRecord>, records: seq<SpentRecord>)
      returns (lookup': map<string, SpentRecord>)
    requires lookup == LastById(before)
    ensures lookup' == LastById(before + records)
  {
    lookup' := lookup;
    var a := 0;
    assert before + records[..0] == before;
    while a < |records|
      invariant 0 <= a <= |records|
      invariant lookup' == LastById(before + records[..a])
    {
      LookupStep(before + records[..a], records[a]);
      assert before + records[..a + 1] == (before + records[..a]) + [records[a]];
      lookup' := lookup'[records[a].id := records[a]];
      a := a + 1;
    }
    assert records[..a] == records;
  }

  lemma LookupStep(records: seq<SpentRecord>, r: SpentRecord)
    ensures LastById(records + [r]) == LastById(records)[r.id := r]
  {
    assert (records + [r])[..|records|] == records;
  }

  // ---------------------------------------------------------------- output roll-up

  /** `spentLookup[act.id] || {}`: a missing id reads as a record with every field missing. */
  function SpentFor(lookup: map<string, SpentRecord>, id: string): SpentRecord
  {
    if id in lookup then lookup[id] else SpentRecord(id, None, None, None, None, None)
  }

  /** One pushed `ActivityBudget`: planned is `act.total || 0`, spent `total_spent || 0`, and
      the years default to zeros. */
  function ActivityBudgetOf(act: PlanActivity, lookup: map<string, SpentRecord>): (b: ActivityBudget)
    ensures b.id == act.id
    ensures |b.spentByYear| == 4
    ensures act.total.Some? ==> b.planned == act.total.value
    ensures act.total.None? ==> b.planned == 0.0
    ensures act.years.Some? ==> b.plannedByYear == act.years.value
    ensures act.id in lookup ==>
              var rec := lookup[act.id];
              b.spent == rec.totalSpent.GetOr(0.0) &&
              b.spentByYear == [rec.spent2024.GetOr(0.0), rec.spent2025.GetOr(0.0), rec.spent2026.GetOr(0.0), rec.spent2027.GetOr(0.0)]
  {
    var s := SpentFor(lookup, act.id);
    ActivityBudget(act.id, act.total.GetOr(0.0), s.totalSpent.GetOr(0.0),
      act.years.GetOr([0.0, 0.0, 0.0, 0.0]),
      [s.spent2024.GetOr(0.0), s.spent2025.GetOr(0.0), s.spent2026.GetOr(0.0), s.spent2027.GetOr(0.0)])
  }

  /** An activity without a spending record has spent 0 in total and in every year. */
  lemma UnrecordedActivity(act: PlanActivity, lookup: map<string, SpentRecord>)
    requires act.id !in lookup
    ensures ActivityBudgetOf(act, lookup).spent == 0.0
    ensures ActivityBudgetOf(act, lookup).spentByYear == [0.0, 0.0, 0.0, 0.0]
    ensures act.years == None ==> ActivityBudgetOf(act, lookup).plannedByYear == [0.0, 0.0, 0.0, 0.0]
  {
  }

  function Planned(bs: seq<ActivityBudget>): (r: seq<real>)
    ensures |r| == |bs| && forall i :: 0 <= i < |bs| ==> r[i] == bs[i].planned
  {
    seq(|bs|, i requires 0 <= i < |bs| => bs[i].planned)
  }

  function Spent(bs: seq<ActivityBudget>): (r: seq<real>)
    ensures |r| == |bs| && forall i :: 0 <= i < |bs| ==> r[i] == bs[i].spent
  {
    seq(|bs|, i requires 0 <= i < |bs| => bs[i].spent)
  }

  /** The rows of an output, one per plan entry, in plan order. */
  function ActivityRows(acts: seq<PlanActivity>, lookup: map<string, SpentRecord>): (r: seq<ActivityBudget>)
    ensures |r| == |acts| && forall i :: 0 <= i < |acts| ==> r[i] == ActivityBudgetOf(acts[i], lookup)
  {
    seq(|acts|, i requires 0 <= i < |acts| => ActivityBudgetOf(acts[i], lookup))
  }

  /** An output's budget: its rows, with totals that are the sums of the rows' amounts. */
  function OutputBudgetOf(output: PlanOutput, lookup: map<string, SpentRecord>): (b: OutputBudget)
    ensures b.outputId == output.outputId
    ensures b.activities == ActivityRows(output.activities.GetOr([]), lookup)
    ensures b.totalPlanned == Sum(Planned(b.activities)) && b.totalSpent == Sum(Spent(b.activities))
  {
    var rows := ActivityRows(output.activities.GetOr([]), lookup);
    OutputBudget(output.outputId, rows, Sum(Planned(rows)), Sum(Spent(rows)))
  }

  /** The `for` loop over one output's activities, accumulating `outputPlanned` and
      `outputSpent` and pushing the rows. */
  method BuildOutput(output: PlanOutput, lookup: map<string, SpentRecord>) returns (b: OutputBudget)
    ensures b == OutputBudgetOf(output, lookup)
  {
    var acts := output.activities.GetOr([]);
    var activities: seq<ActivityBudget> := [];
    var outputPlanned := 0.0;
    var outputSpent := 0.0;
    var a := 0;
    while a < |acts|
      invariant 0 <= a <= |acts|
      invariant activities == ActivityRows(acts[..a], lookup)
      invariant outputPlanned == Sum(Planned(activities)) && outputSpent == Sum(Spent(activities))
    {
      var row := ActivityBudgetOf(acts[a], lookup);
      RowStep(acts, a, lookup);
      TotalsStep(activities, row);
      outputPlanned := outputPlanned + row.planned;
      outputSpent := outputSpent + row.spent;
      activities := activities + [row];
      a := a + 1;
    }
    assert acts[..a] == acts;
    b := OutputBudget(output.outputId, activities, outputPlanned, outputSpent);
  }

  lemma RowStep(acts: seq<PlanActivity>, a: int, lookup: map<string, SpentRecord>)
    requires 0 <= a < |acts|
    ensures ActivityRows(acts[..a + 1], lookup) == ActivityRows(acts[..a], lookup) + [ActivityBudgetOf(acts[a], lookup)]
  {
  }

  lemma TotalsStep(rows: seq<ActivityBudget>, row: ActivityBudget)
    ensures Sum(Planned(rows + [row])) == Sum(Planned(rows)) + row.planned
    ensures Sum(Spent(rows + [row])) == Sum(Spent(rows)) + row.spent
  {
    assert Planned(rows + [row]) == Planned(rows) + [row.planned];
    assert Spent(rows + [row]) == Spent(rows) + [row.spent];
    SumSnoc(Planned(rows), row.planned);
    SumSnoc(Spent(rows), row.spent);
  }

  /** The outer loop: one output budget per plan output, in plan order. */
  method BuildOutputs(plan: Plan, lookup: map<string, SpentRecord>) returns (outputs: seq<OutputBudget>)
    ensures |outputs| == |plan.outputs.GetOr([])|
    ensures forall i :: 0 <= i < |outputs| ==> outputs[i] == OutputBudgetOf(plan.outputs.GetOr([])[i], lookup)
  {
    var planOutputs := plan.outputs.GetOr([]);
    outputs := [];
    var o := 0;
    while o < |planOutputs|
      invariant 0 <= o <= |planOutputs|
      invariant |outputs| == o
      invariant forall i :: 0 <= i < o ==> outputs[i] == OutputBudgetOf(planOutputs[i], lookup)
    {
      var b := BuildOutput(planOutputs[o], lookup);
      outputs := outputs + [b];
      o := o + 1;
    }
  }

  // ---------------------------------------------------------------- totals

  /** `plan.project_metadata?.total_budget || 8250000`: a missing or zero budget is replaced. */
  function TotalBudgetOf(plan: Plan): (t: real)
    ensures t != 0.0
    ensures plan.totalBudget.Some? && plan.totalBudget.value != 0.0 ==> t == plan.totalBudget.value
    ensures plan.totalBudget == None || plan.totalBudget == Some(0.0) ==> t == DEFAULT_TOTAL_BUDGET
  {
    if plan.totalBudget.Some? && plan.totalBudget.value != 0.0 then plan.totalBudget.value else DEFAULT_TOTAL_BUDGET
  }

  /** `loadBudgetData` after both files are read: the lookup, the outputs, and the totals. The
      project's spent total is the file's cumulative figure, not a sum over the activities. */
  method LoadBudgetData(plan: Plan, spent: SpentData) returns (summary: BudgetSummary)
    ensures summary.totalBudget == TotalBudgetOf(plan)
    ensures summary.totalSpent == spent.cumulativeSpent.GetOr(0.0)
    ensures summary.remaining == summary.totalBudget - summary.totalSpent
    ensures summary.burnRate == (summary.totalSpent / summary.totalBudget) * 100.0
    ensures |summary.outputs| == |plan.outputs.GetOr([])|
    ensures forall i :: 0 <= i < |summary.outputs| ==>
              summary.outputs[i] == OutputBudgetOf(plan.outputs.GetOr([])[i], LastById(AllRecords(spent)))
  {
    var lookup := BuildSpentLookup(spent);
    var outputs := BuildOutputs(plan, lookup);
    var totalBudget := TotalBudgetOf(plan);
    var totalSpent := spent.cumulativeSpent.GetOr(0.0);
    var remaining := totalBudget - totalSpent;
    var burnRate := (totalSpent / totalBudget) * 100.0;
    summary := BudgetSummary(totalBudget, totalSpent, remaining, burnRate, outputs);
  }

  /** The burn rate is not capped: spending beyond a positive budget reads above 100%. */
  lemma BurnRateUncapped(totalSpent: real, totalBudget: real)
    requires 0.0 < totalBudget < totalSpent
    ensures (totalSpent / totalBudget) * 100.0 > 100.0
  {
    assert totalSpent / totalBudget > 1.0;
  }
}
