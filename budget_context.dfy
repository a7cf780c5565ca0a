/** The budget part of the backend's prompt context (backend/main.py, `load_budget_context`):
    the planned total and the spending read per activity id, and one status row per planned
    activity in sorted id order. The text formatting of the rows is left out. */
module BudgetContext {
  import opened Wrappers
  import opened Seqs
  import opened Text
  import opened Sorting
  import BudgetSection
  import BudgetTracking

  /** An activity entry as read: its `id` and its amount (`total` in the plan, `total_spent` in
      the spending file), `None` when the key is missing. */
  datatype Row = Row(id: Option<string>, amount: Option<real>)

  datatype RowOutput = RowOutput(activities: seq<Row>)

  /** The reading loops from output `o`, activity `k` onward. A missing `id`, or a missing
      amount where it is `required`, raises; the handler swallows it, so reading stops there
      and what was read is kept. A missing optional amount reads as 0. */
  function ReadFrom(outputs: seq<RowOutput>, required: bool, o: nat, k: nat,
                    acc: map<string, real>, ids: seq<string>): (r: (map<string, real>, seq<string>))
    requires forall id :: id in acc <==> id in ids
    ensures forall id :: id in r.0 <==> id in r.1
    ensures forall id :: id in acc ==> id in r.0
    decreases |outputs| - o, if o < |outputs| then |outputs[o].activities| - k else 0
  {
    if o >= |outputs| then (acc, ids)
    else if k >= |outputs[o].activities| then ReadFrom(outputs, required, o + 1, 0, acc, ids)
    else
      var row := outputs[o].activities[k];
      if row.id.None? || (required && row.amount.None?) then (acc, ids)
      else ReadFrom(outputs, required, o, k + 1, acc[row.id.value := row.amount.GetOr(0.0)], ids + [row.id.value])
  }

  /** The table read from a file; an absent or undecodable file gives the empty table. */
  function ReadTable(file: Option<seq<RowOutput>>, required: bool): (r: (map<string, real>, seq<string>))
    ensures forall id :: id in r.0 <==> id in r.1
  {
    if file.None? then (map[], []) else ReadFrom(file.value, required, 0, 0, map[], [])
  }

  /** The reading loops, which stop at the first entry that raises. */
  method ReadTableLoops(file: Option<seq<RowOutput>>, required: bool) returns (table: map<string, real>, ids: seq<string>)
    ensures (table, ids) == ReadTable(file, required)
  {
    table, ids := map[], [];
    if file.None? {
      return;
    }
    var outputs := file.value;
    var o := 0;
    var failed := false;
    while o < |outputs| && !failed
      invariant o <= |outputs|
      invariant forall id :: id in table <==> id in ids
      invariant failed ==> (table, ids) == ReadTable(file, required)
      invariant !failed ==> ReadFrom(outputs, required, o, 0, table, ids) == ReadTable(file, required)
      decreases |outputs| - o, if failed then 0 else 1
    {
      var acts := outputs[o].activities;
      var k := 0;
      while k < |acts| && !failed
        invariant k <= |acts|
        invariant forall id :: id in table <==> id in ids
        invariant failed ==> (table, ids) == ReadTable(file, required)
        invariant !failed ==> ReadFrom(outputs, required, o, k, table, ids) == ReadTable(file, required)
        decreases |acts| - k, if failed then 0 else 1
      {
        var act := acts[k];
        if act.id.None? || (required && act.amount.None?) {
          failed := true;
        } else {
          table := table[act.id.value := act.amount.GetOr(0.0)];
          ids := ids + [act.id.value];
          k := k + 1;
        }
      }
      if !failed {
        o := o + 1;
      }
    }
  }

  /** The `cumulative_spent_to_date` entry of `expenditure_summary`: missing, a number, or
      anything the `:,.2f` format refuses (`null`, a string). */
  datatype Figure = FigureMissing | FigureNumber(value: real) | FigureUnformattable

  /** The `expenditure_summary` entry: missing, a dictionary, or a value without `.get` (`null`,
      a list, a number). */
  datatype Summary = SummaryMissing | SummaryDict(figure: Figure) | SummaryNotDict

  /** The spending file as decoded: its summary and its `output_expenditure_data`. */
  datatype SpentFile = SpentFile(summary: Summary, outputs: seq<RowOutput>)

  /** The cumulative figure printed before the spending loop: 0 for a missing summary or entry,
      and `None` when there is no file or the lookup or the format raises. */
  function CumulativeFigure(file: Option<SpentFile>): (r: Option<real>)
    ensures r.None? <==> file.None? || file.value.summary.SummaryNotDict?
                          || file.value.summary == SummaryDict(FigureUnformattable)
    ensures file.Some? && file.value.summary.SummaryDict? && file.value.summary.figure.FigureNumber?
            ==> r == Some(file.value.summary.figure.value)
  {
    if file.None? then None
    else match file.value.summary
      case SummaryMissing => Some(0.0)
      case SummaryNotDict => None
      case SummaryDict(FigureMissing) => Some(0.0)
      case SummaryDict(FigureNumber(x)) => Some(x)
      case SummaryDict(FigureUnformattable) => None
  }

  /** The spending table. The cumulative line is formatted inside the same `try` and before the
      loop, so when it raises nothing is read. */
  function ReadSpending(file: Option<SpentFile>): (r: (map<string, real>, seq<string>))
    ensures forall id :: id in r.0 <==> id in r.1
    ensures CumulativeFigure(file).None? ==> r.0 == map[] && r.1 == []
    ensures CumulativeFigure(file).Some? ==> r == ReadTable(Some(file.value.outputs), false)
  {
    if CumulativeFigure(file).None? then (map[], [])
    else ReadTable(Some(file.value.outputs), false)
  }

  /** A status row: the activity, its plan, its spending, the percentage and the status text. */
  datatype StatusRow = StatusRow(id: string, planned: real, spent: real, pct: real, status: string)

  /** `spent / planned * 100` for a positive plan, 0 otherwise; Over Budget above 100%. */
  function StatusRowOf(id: string, planned: real, spent: real): (r: StatusRow)
    ensures r.id == id && r.planned == planned && r.spent == spent
    ensures planned > 0.0 ==> r.pct * planned == spent * 100.0
    ensures planned <= 0.0 ==> r.pct == 0.0
    ensures r.status == "Over Budget" <==> planned > 0.0 && spent > planned
    ensures r.status == "On Budget" <==> !(planned > 0.0 && spent > planned)
  {
    var pct := if planned > 0.0 then (spent / planned) * 100.0 else 0.0;
    assert planned > 0.0 ==> (pct > 100.0 <==> spent > planned) by {
      if planned > 0.0 {
        BudgetSection.PercentOfPositive(spent, planned);
      }
    }
    StatusRow(id, planned, spent, pct, if pct <= 100.0 then "On Budget" else "Over Budget")
  }

  function GetOrZero(m: map<string, real>, id: string): real
  {
    if id in m then m[id] else 0.0
  }

  /** The row loop over the sorted ids of the plan. */
  method StatusRows(plan: map<string, real>, ids: seq<string>, spent: map<string, real>)
    returns (rows: seq<StatusRow>)
    ensures |rows| == |ids|
    ensures forall i :: 0 <= i < |rows| ==> rows[i] == StatusRowOf(ids[i], GetOrZero(plan, ids[i]), GetOrZero(spent, ids[i]))
  {
    rows := [];
    for i := 0 to |ids|
      invariant |rows| == i
      invariant forall j :: 0 <= j < i ==> rows[j] == StatusRowOf(ids[j], GetOrZero(plan, ids[j]), GetOrZero(spent, ids[j]))
    {
      var actId := ids[i];
      var planned := GetOrZero(plan, actId);
      var actSpent := GetOrZero(spent, actId);
      rows := rows + [StatusRowOf(actId, planned, actSpent)];
    }
  }

  /** The rows of the context, from the two files. */
  method LoadBudgetContext(planFile: Option<seq<RowOutput>>, spentFile: Option<SpentFile>)
    returns (cumulative: Option<real>, rows: seq<StatusRow>)
    ensures cumulative == CumulativeFigure(spentFile)
    ensures var (plan, planIds) := ReadTable(planFile, true);
            var (spent, _) := ReadSpending(spentFile);
            |rows| == |plan.Keys| &&
            (forall id :: id in plan <==> exists i :: 0 <= i < |rows| && rows[i].id == id) &&
            (forall i, j :: 0 <= i < j < |rows| ==> Below(rows[i].id, rows[j].id) && rows[i].id != rows[j].id) &&
            (forall i :: 0 <= i < |rows| ==>
               rows[i].planned == plan[rows[i].id] && rows[i].spent == GetOrZero(spent, rows[i].id) &&
               (rows[i].pct == if rows[i].planned > 0.0 then rows[i].spent / rows[i].planned * 100.0 else 0.0) &&
               (rows[i].status == "Over Budget" <==> rows[i].planned > 0.0 && rows[i].spent > rows[i].planned))
  {
    var plan, planIds := ReadTableLoops(planFile, true);
    cumulative := CumulativeFigure(spentFile);
    var spent: map<string, real> := map[];
    var spentIds: seq<string> := [];
    if cumulative.Some? {
      spent, spentIds := ReadTableLoops(Some(spentFile.value.outputs), false);
    }
    var ids := SortedUnique(planIds);
    rows := StatusRows(plan, ids, spent);
    RowsOfSortedIds(plan, planIds, spent, ids, rows);
  }

  /** Rows built over the sorted distinct ids of the plan cover the plan once each, in order. */
  lemma RowsOfSortedIds(plan: map<string, real>, planIds: seq<string>, spent: map<string, real>,
                        ids: seq<string>, rows: seq<StatusRow>)
    requires forall id :: id in plan <==> id in planIds
    requires forall x :: x in ids <==> x in planIds
    requires Distinct(ids)
    requires forall i, j :: 0 <= i < j < |ids| ==> Below(ids[i], ids[j]) && ids[i] != ids[j]
    requires |rows| == |ids|
    requires forall i :: 0 <= i < |rows| ==> rows[i] == StatusRowOf(ids[i], GetOrZero(plan, ids[i]), GetOrZero(spent, ids[i]))
    ensures |rows| == |plan.Keys|
    ensures forall id :: id in plan <==> exists i :: 0 <= i < |rows| && rows[i].id == id
    ensures forall i, j :: 0 <= i < j < |rows| ==> Below(rows[i].id, rows[j].id) && rows[i].id != rows[j].id
    ensures forall i :: 0 <= i < |rows| ==>
              rows[i].planned == plan[rows[i].id] && rows[i].spent == GetOrZero(spent, rows[i].id) &&
              (rows[i].pct == if rows[i].planned > 0.0 then rows[i].spent / rows[i].planned * 100.0 else 0.0) &&
              (rows[i].status == "Over Budget" <==> rows[i].planned > 0.0 && rows[i].spent > rows[i].planned)
  {
    assert forall i :: 0 <= i < |rows| ==> rows[i].id == ids[i];
    forall id | id in plan
      ensures exists i :: 0 <= i < |rows| && rows[i].id == id
    {
      var i :| 0 <= i < |ids| && ids[i] == id;
      assert rows[i].id == id;
    }
    forall i | 0 <= i < |rows|
      ensures rows[i].planned == plan[rows[i].id]
    {
      assert ids[i] in ids;
    }
    DistinctKeysCount(ids, plan);
  }

  /** Distinct ids that are exactly a map's keys are as many as its keys. */
  lemma {:induction false} DistinctKeysCount(ids: seq<string>, m: map<string, real>)
    requires Distinct(ids) && forall id :: id in m <==> id in ids
    ensures |ids| == |m.Keys|
    decreases |ids|
  {
    if ids == [] {
      assert m.Keys == {};
    } else {
      var last := ids[|ids| - 1];
      var init := ids[..|ids| - 1];
      assert Distinct(init) by {
        forall i, j | 0 <= i < j < |init|
          ensures init[i] != init[j]
        {
          assert init[i] == ids[i] && init[j] == ids[j];
        }
      }
      assert last !in init by {
        forall i | 0 <= i < |init|
          ensures init[i] != last
        {
          assert init[i] == ids[i];
        }
      }
      var m' := m - {last};
      forall id
        ensures id in m' <==> id in init
      {
        if id in init {
          assert id in ids;
        }
        if id in ids && id != last {
          var i :| 0 <= i < |ids| && ids[i] == id;
          assert init[i] == id;
        }
      }
      DistinctKeysCount(init, m');
      assert m.Keys == m'.Keys + {last};
    }
  }

  /** For a non-negative plan the context row is Over Budget exactly when the dashboard section
      rates the activity Over Budget and the tracking page colours it red. */
  lemma StatusAgreesWithDashboard(id: string, planned: real, spent: real)
    requires planned >= 0.0
    ensures StatusRowOf(id, planned, spent).status == "Over Budget"
            <==> BudgetSection.GetBudgetStatus(spent, planned) == BudgetSection.OverBudget
    ensures StatusRowOf(id, planned, spent).status == "Over Budget"
            <==> BudgetTracking.GetStatusColor(spent, planned) == BudgetTracking.Red
  {
    BudgetTracking.ColourAgreesWithSectionStatus(spent, planned);
  }

  /** Reading stops at the first planned activity without a total: a later activity is never
      read, even in a later output. */
  lemma MissingTotalStopsReading()
    ensures var file := Some([RowOutput([Row(Some("1.1"), Some(100.0)), Row(Some("1.2"), None)]),
                              RowOutput([Row(Some("2.1"), Some(50.0))])]);
            ReadTable(file, true).0 == map["1.1" := 100.0]
  {
  }

  /** A spending file whose summary cannot be printed yields no spending at all: every planned
      activity then shows spent 0 and On Budget, whatever its records say. */
  lemma UnformattableSummaryReadsNothing(file: Option<SpentFile>, id: string, planned: real)
    requires file.Some? && (file.value.summary.SummaryNotDict? || file.value.summary == SummaryDict(FigureUnformattable))
    ensures ReadSpending(file).0 == map[]
    ensures StatusRowOf(id, planned, GetOrZero(ReadSpending(file).0, id)).spent == 0.0
    ensures StatusRowOf(id, planned, GetOrZero(ReadSpending(file).0, id)).status == "On Budget"
  {
  }

  /** A `null` cumulative figure hides an overspent activity: with the figure missing instead,
      the same records make it Over Budget. */
  lemma NullFigureHidesOverspending()
    ensures var outputs := [RowOutput([Row(Some("1.1"), Some(150.0))])];
            GetOrZero(ReadSpending(Some(SpentFile(SummaryDict(FigureUnformattable), outputs))).0, "1.1") == 0.0 &&
            GetOrZero(ReadSpending(Some(SpentFile(SummaryDict(FigureMissing), outputs))).0, "1.1") == 150.0 &&
            StatusRowOf("1.1", 100.0, 150.0).status == "Over Budget"
  {
    var outputs := [RowOutput([Row(Some("1.1"), Some(150.0))])];
    assert ReadTable(Some(outputs), false).0 == map["1.1" := 150.0];
  }

  /** In the spending file a missing `total_spent` reads as 0 and a later duplicate id wins. */
  lemma SpendingDefaultsAndDuplicates()
    ensures var file := Some([RowOutput([Row(Some("1.1"), Some(10.0)), Row(Some("1.2"), None)]),
                              RowOutput([Row(Some("1.1"), Some(30.0))])]);
            ReadTable(file, false).0 == map["1.1" := 30.0, "1.2" := 0.0]
  {
  }
}
