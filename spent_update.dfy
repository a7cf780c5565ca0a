/** The backend's expenditure update (backend/main.py, `update_budget_spent`): budget_spent.json
    is read, each update adds its amount to one year of one activity, the activity's total is
    recomputed, and the cumulative spending is recomputed over every activity and support cost.

    The source keeps a dictionary from activity id to the activity's dict object and mutates
    that object; the model records the object's position in the document instead, so an update
    reaches the last activity listed with its id, as in the source. */
module SpentUpdate {
  import opened Wrappers
  import opened Seqs

  /** An activity of `output_expenditure_data`: its id, the `spent_<year>` keys present, and
      `total_spent` when present. */
  datatype SpentActivity = SpentActivity(id: string, spent: map<int, real>, totalSpent: Option<real>)

  /** An output; a missing `activities` key behaves as the empty list. */
  datatype SpentOutput = SpentOutput(activities: seq<SpentActivity>)

  /** The file: the outputs (a missing key is the empty list), the `total` of each support cost
      (`None` when the key is missing), and `expenditure_summary`, absent or holding the
      cumulative spending. */
  datatype SpentDoc = SpentDoc(outputs: seq<SpentOutput>, supportCosts: seq<Option<real>>,
                               summary: Option<Option<real>>)

  /** An expenditure update; `None` for a missing key. */
  datatype BudgetUpdate = BudgetUpdate(activityId: Option<string>, amount: Option<real>, year: Option<int>)

  const DEFAULT_YEAR: int := 2026

  /** Where an activity sits: the output's index and the activity's index in it. */
  datatype Pos = Pos(output: nat, index: nat)

  predicate ValidPos(outputs: seq<SpentOutput>, p: Pos)
  {
    p.output < |outputs| && p.index < |outputs[p.output].activities|
  }

  function IdAt(outputs: seq<SpentOutput>, p: Pos): string
    requires ValidPos(outputs, p)
  {
    outputs[p.output].activities[p.index].id
  }

  /** `p` comes before `q` in the order the loops visit the activities. */
  predicate Earlier(p: Pos, q: Pos)
  {
    p.output < q.output || (p.output == q.output && p.index < q.index)
  }

  /** The lookup the nested loops build, visiting from output `o`, activity `k` onward. */
  function LookupFrom(outputs: seq<SpentOutput>, o: nat, k: nat, acc: map<string, Pos>): map<string, Pos>
    decreases |outputs| - o, if o < |outputs| then |outputs[o].activities| - k else 0
  {
    if o >= |outputs| then acc
    else if k >= |outputs[o].activities| then LookupFrom(outputs, o + 1, 0, acc)
    else LookupFrom(outputs, o, k + 1, acc[outputs[o].activities[k].id := Pos(o, k)])
  }

  /** `activity_lookup`: each id mapped to where it was last seen. */
  function ActivityLookup(outputs: seq<SpentOutput>): (lookup: map<string, Pos>)
    ensures LookupValid(outputs, lookup)
  {
    LookupFromInvariant(outputs, 0, 0, map[]);
    LookupFrom(outputs, 0, 0, map[])
  }

  /** The lookup's loops. */
  method BuildActivityLookup(outputs: seq<SpentOutput>) returns (lookup: map<string, Pos>)
    ensures lookup == ActivityLookup(outputs)
  {
    lookup := map[];
    var o := 0;
    while o < |outputs|
      invariant o <= |outputs|
      invariant LookupFrom(outputs, o, 0, lookup) == ActivityLookup(outputs)
    {
      var acts := outputs[o].activities;
      var k := 0;
      while k < |acts|
        invariant k <= |acts|
        invariant LookupFrom(outputs, o, k, lookup) == ActivityLookup(outputs)
      {
        lookup := lookup[acts[k].id := Pos(o, k)];
        k := k + 1;
      }
      o := o + 1;
    }
  }

  /** The positions visited before output `o`, activity `k`. */
  predicate Visited(outputs: seq<SpentOutput>, q: Pos, o: nat, k: nat)
  {
    ValidPos(outputs, q) && (q.output < o || (q.output == o && q.index < k))
  }

  /** What the lookup satisfies part-way: every visited id is in it, at a visited position with
      that id, and no visited position after it has the same id. */
  ghost predicate LookupInvariant(outputs: seq<SpentOutput>, o: nat, k: nat, acc: map<string, Pos>)
  {
    (forall q :: Visited(outputs, q, o, k) ==> IdAt(outputs, q) in acc) &&
    (forall id :: id in acc ==>
       Visited(outputs, acc[id], o, k) && IdAt(outputs, acc[id]) == id &&
       forall q :: Visited(outputs, q, o, k) && Earlier(acc[id], q) ==> IdAt(outputs, q) != id)
  }

  lemma LookupStep(outputs: seq<SpentOutput>, o: nat, k: nat, acc: map<string, Pos>)
    requires o < |outputs| && k < |outputs[o].activities|
    requires LookupInvariant(outputs, o, k, acc)
    ensures LookupInvariant(outputs, o, k + 1, acc[outputs[o].activities[k].id := Pos(o, k)])
  {
    var p := Pos(o, k);
    var acc' := acc[IdAt(outputs, p) := p];
    forall q | Visited(outputs, q, o, k + 1)
      ensures IdAt(outputs, q) in acc'
    {
      if q != p {
        assert Visited(outputs, q, o, k);
      }
    }
    forall id | id in acc'
      ensures Visited(outputs, acc'[id], o, k + 1) && IdAt(outputs, acc'[id]) == id
      ensures forall q :: Visited(outputs, q, o, k + 1) && Earlier(acc'[id], q) ==> IdAt(outputs, q) != id
    {
      if id != IdAt(outputs, p) {
        forall q | Visited(outputs, q, o, k + 1) && Earlier(acc'[id], q)
          ensures IdAt(outputs, q) != id
        {
          if q != p {
            assert Visited(outputs, q, o, k);
          }
        }
      }
    }
  }

  lemma NextOutput(outputs: seq<SpentOutput>, o: nat, k: nat, acc: map<string, Pos>)
    requires o < |outputs| && k >= |outputs[o].activities|
    requires LookupInvariant(outputs, o, k, acc)
    ensures LookupInvariant(outputs, o + 1, 0, acc)
  {
    assert forall q :: Visited(outputs, q, o, k) <==> Visited(outputs, q, o + 1, 0);
  }

  lemma {:induction false} LookupFromInvariant(outputs: seq<SpentOutput>, o: nat, k: nat, acc: map<string, Pos>)
    requires LookupInvariant(outputs, o, k, acc)
    ensures LookupInvariant(outputs, |outputs|, 0, LookupFrom(outputs, o, k, acc))
    decreases |outputs| - o, if o < |outputs| then |outputs[o].activities| - k else 0
  {
    if o >= |outputs| {
      assert forall q :: Visited(outputs, q, o, k) <==> Visited(outputs, q, |outputs|, 0);
    } else if k >= |outputs[o].activities| {
      NextOutput(outputs, o, k, acc);
      LookupFromInvariant(outputs, o + 1, 0, acc);
    } else {
      LookupStep(outputs, o, k, acc);
      LookupFromInvariant(outputs, o, k + 1, acc[outputs[o].activities[k].id := Pos(o, k)]);
    }
  }

  /** The lookup holds exactly the ids of the file, each at the last activity listed with it. */
  lemma LookupIsLastPosition(outputs: seq<SpentOutput>)
    ensures var lookup := ActivityLookup(outputs);
            (forall q :: ValidPos(outputs, q) ==> IdAt(outputs, q) in lookup) &&
            forall id :: id in lookup ==>
              ValidPos(outputs, lookup[id]) && IdAt(outputs, lookup[id]) == id &&
              forall q :: ValidPos(outputs, q) && Earlier(lookup[id], q) ==> IdAt(outputs, q) != id
  {
    LookupFromInvariant(outputs, 0, 0, map[]);
    assert forall q :: Visited(outputs, q, |outputs|, 0) <==> ValidPos(outputs, q);
  }

  /** Every entry of a lookup points at an activity with that id. */
  ghost predicate LookupValid(outputs: seq<SpentOutput>, lookup: map<string, Pos>)
  {
    forall id :: id in lookup ==> ValidPos(outputs, lookup[id]) && IdAt(outputs, lookup[id]) == id
  }

  /** Two documents with the same outputs, activity counts and ids. */
  ghost predicate SameShape(a: seq<SpentOutput>, b: seq<SpentOutput>)
  {
    |a| == |b| &&
    (forall o :: 0 <= o < |a| ==> |a[o].activities| == |b[o].activities|) &&
    (forall q :: ValidPos(a, q) ==> IdAt(a, q) == IdAt(b, q))
  }

  function At(outputs: seq<SpentOutput>, p: Pos): SpentActivity
    requires ValidPos(outputs, p)
  {
    outputs[p.output].activities[p.index]
  }

  /** The outputs with the activity at `p` replaced. */
  function SetAt(outputs: seq<SpentOutput>, p: Pos, act: SpentActivity): (r: seq<SpentOutput>)
    requires ValidPos(outputs, p) && act.id == IdAt(outputs, p)
    ensures SameShape(outputs, r)
    ensures At(r, p) == act
    ensures forall q :: ValidPos(outputs, q) && q != p ==> At(r, q) == At(outputs, q)
  {
    var acts := outputs[p.output].activities;
    outputs[p.output := SpentOutput(acts[p.index := act])]
  }

  /** `act.get(f"spent_{y}", 0)`. */
  function SpentIn(spent: map<int, real>, year: int): real
  {
    if year in spent then spent[year] else 0.0
  }

  /** The recomputed `total_spent`: the spending of 2024 to 2027. */
  function YearTotal(spent: map<int, real>): real
  {
    SpentIn(spent, 2024) + SpentIn(spent, 2025) + SpentIn(spent, 2026) + SpentIn(spent, 2027)
  }

  /** One update applied to the activity it names: the amount is added to that year and the
      total recomputed. */
  function Credit(act: SpentActivity, u: BudgetUpdate): (r: SpentActivity)
    ensures r.id == act.id
    ensures var year := u.year.GetOr(DEFAULT_YEAR);
            r.spent.Keys == act.spent.Keys + {year} &&
            r.spent[year] == SpentIn(act.spent, year) + u.amount.GetOr(0.0) &&
            (forall y :: y in act.spent && y != year ==> r.spent[y] == act.spent[y])
    ensures r.totalSpent == Some(YearTotal(r.spent))
  {
    var yearKey := u.year.GetOr(DEFAULT_YEAR);
    var current := SpentIn(act.spent, yearKey);
    var spent := act.spent[yearKey := current + u.amount.GetOr(0.0)];
    act.(spent := spent, totalSpent := Some(YearTotal(spent)))
  }

  /** An update with a known id credits the activity the lookup names; any other is ignored. */
  function ApplyUpdate(outputs: seq<SpentOutput>, lookup: map<string, Pos>, u: BudgetUpdate): (r: seq<SpentOutput>)
    requires LookupValid(outputs, lookup)
    ensures SameShape(outputs, r) && LookupValid(r, lookup)
  {
    if u.activityId.Some? && u.activityId.value in lookup then
      var p := lookup[u.activityId.value];
      SetAt(outputs, p, Credit(At(outputs, p), u))
    else outputs
  }

  /** The updates applied in order. */
  function ApplyUpdates(outputs: seq<SpentOutput>, lookup: map<string, Pos>, updates: seq<BudgetUpdate>): (r: seq<SpentOutput>)
    requires LookupValid(outputs, lookup)
    ensures SameShape(outputs, r) && LookupValid(r, lookup)
  {
    if updates == [] then outputs
    else ApplyUpdate(ApplyUpdates(outputs, lookup, updates[..|updates| - 1]), lookup, updates[|updates| - 1])
  }

  /** The update loop. */
  method ApplyAll(outputs: seq<SpentOutput>, lookup: map<string, Pos>, updates: seq<BudgetUpdate>)
    returns (r: seq<SpentOutput>)
    requires LookupValid(outputs, lookup)
    ensures r == ApplyUpdates(outputs, lookup, updates)
  {
    r := outputs;
    for i := 0 to |updates|
      invariant LookupValid(r, lookup)
      invariant r == ApplyUpdates(outputs, lookup, updates[..i])
    {
      assert updates[..i + 1][..i] == updates[..i];
      var update := updates[i];
      var actId := update.activityId;
      if actId.Some? && actId.value in lookup {
        var p := lookup[actId.value];
        r := SetAt(r, p, Credit(At(r, p), update));
      }
    }
    assert updates[..|updates|] == updates;
  }

  /** The update names the activity at `p` through the lookup. */
  predicate Targets(lookup: map<string, Pos>, u: BudgetUpdate, p: Pos)
  {
    u.activityId.Some? && u.activityId.value in lookup && lookup[u.activityId.value] == p
  }

  /** An update elsewhere leaves the activity at `p` alone. */
  lemma UpdateElsewhere(outputs: seq<SpentOutput>, lookup: map<string, Pos>, u: BudgetUpdate, p: Pos)
    requires LookupValid(outputs, lookup) && ValidPos(outputs, p) && !Targets(lookup, u, p)
    ensures ValidPos(ApplyUpdate(outputs, lookup, u), p) && At(ApplyUpdate(outputs, lookup, u), p) == At(outputs, p)
  {
  }

  /** After an update of the activity at `p`, its total is the spending of 2024 to 2027. */
  lemma UpdateHere(outputs: seq<SpentOutput>, lookup: map<string, Pos>, u: BudgetUpdate, p: Pos)
    requires LookupValid(outputs, lookup) && ValidPos(outputs, p) && Targets(lookup, u, p)
    ensures var r := ApplyUpdate(outputs, lookup, u);
            ValidPos(r, p) && At(r, p) == Credit(At(outputs, p), u) && At(r, p).totalSpent == Some(YearTotal(At(r, p).spent))
  {
  }

  /** An activity no update reaches is as it was. */
  lemma {:induction false} UntouchedUnchanged(outputs: seq<SpentOutput>, lookup: map<string, Pos>, updates: seq<BudgetUpdate>, p: Pos)
    requires LookupValid(outputs, lookup) && ValidPos(outputs, p)
    requires forall j :: 0 <= j < |updates| ==> !Targets(lookup, updates[j], p)
    ensures ValidPos(ApplyUpdates(outputs, lookup, updates), p)
    ensures At(ApplyUpdates(outputs, lookup, updates), p) == At(outputs, p)
  {
    if updates != [] {
      var init := updates[..|updates| - 1];
      assert forall j :: 0 <= j < |init| ==> init[j] == updates[j];
      UntouchedUnchanged(outputs, lookup, init, p);
      UpdateElsewhere(ApplyUpdates(outputs, lookup, init), lookup, updates[|updates| - 1], p);
    }
  }

  /** An activity some update reaches ends with its total equal to its spending of 2024 to
      2027, whatever the later updates do. */
  lemma {:induction false} TouchedTotalRecomputed(outputs: seq<SpentOutput>, lookup: map<string, Pos>, updates: seq<BudgetUpdate>, p: Pos, j: int)
    requires LookupValid(outputs, lookup) && ValidPos(outputs, p)
    requires 0 <= j < |updates| && Targets(lookup, updates[j], p)
    ensures var r := ApplyUpdates(outputs, lookup, updates);
            ValidPos(r, p) && At(r, p).totalSpent == Some(YearTotal(At(r, p).spent))
  {
    var init := updates[..|updates| - 1];
    var last := updates[|updates| - 1];
    var prev := ApplyUpdates(outputs, lookup, init);
    if Targets(lookup, last, p) {
      UpdateHere(prev, lookup, last, p);
    } else {
      assert j < |init| && init[j] == updates[j];
      TouchedTotalRecomputed(outputs, lookup, init, p, j);
      UpdateElsewhere(prev, lookup, last, p);
    }
  }

  /** An update whose id is not in the file, or that has no id, changes nothing. */
  lemma UnknownUpdateIgnored(outputs: seq<SpentOutput>, lookup: map<string, Pos>, updates: seq<BudgetUpdate>, u: BudgetUpdate)
    requires LookupValid(outputs, lookup)
    requires u.activityId.None? || u.activityId.value !in lookup
    ensures ApplyUpdates(outputs, lookup, updates + [u]) == ApplyUpdates(outputs, lookup, updates)
  {
    assert (updates + [u])[..|updates|] == updates;
  }

  /** Without a year an update goes to 2026, and without an amount it adds 0, which still
      creates the year's key and recomputes the total. */
  lemma DefaultsOfUpdate(act: SpentActivity, id: string)
    ensures Credit(act, BudgetUpdate(Some(id), None, None)) == Credit(act, BudgetUpdate(Some(id), Some(0.0), Some(2026)))
    ensures 2026 in Credit(act, BudgetUpdate(Some(id), None, None)).spent
  {
  }

  /** A year outside 2024 to 2027 is recorded but not counted in the total. */
  lemma YearOutsideTotalIgnored(act: SpentActivity, u: BudgetUpdate)
    requires u.year.Some? && (u.year.value < 2024 || u.year.value > 2027)
    ensures YearTotal(Credit(act, u).spent) == YearTotal(act.spent)
    ensures u.year.value in Credit(act, u).spent
  {
  }

  /** Two updates of the same year add up: they credit as much as one update of their sum. */
  lemma CreditsAccumulate(act: SpentActivity, u: BudgetUpdate, v: BudgetUpdate)
    requires u.year.GetOr(DEFAULT_YEAR) == v.year.GetOr(DEFAULT_YEAR)
    ensures Credit(Credit(act, u), v) == Credit(act, u.(amount := Some(u.amount.GetOr(0.0) + v.amount.GetOr(0.0))))
  {
    var year := u.year.GetOr(DEFAULT_YEAR);
    var once := Credit(act, u.(amount := Some(u.amount.GetOr(0.0) + v.amount.GetOr(0.0))));
    var twice := Credit(Credit(act, u), v);
    assert twice.spent == once.spent;
  }

  /** The `total_spent` of each activity of an output, 0 when missing. */
  function TotalsOf(o: SpentOutput): seq<real>
  {
    seq(|o.activities|, i requires 0 <= i < |o.activities| => o.activities[i].totalSpent.GetOr(0.0))
  }

  /** The generator sum over every activity of every output. */
  function ActivitiesTotal(outputs: seq<SpentOutput>): real
  {
    Sum(FlatMap(outputs, TotalsOf))
  }

  function CostTotal(cost: Option<real>): real { cost.GetOr(0.0) }

  /** The support costs' totals, 0 for a cost without one. */
  function CostTotals(costs: seq<Option<real>>): (r: seq<real>)
    ensures |r| == |costs| && forall i :: 0 <= i < |r| ==> r[i] == costs[i].GetOr(0.0)
  {
    seq(|costs|, i requires 0 <= i < |costs| => CostTotal(costs[i]))
  }

  /** The cumulative recomputation: the activities' totals, then each support cost added. */
  method Cumulative(outputs: seq<SpentOutput>, supportCosts: seq<Option<real>>) returns (total: real)
    ensures total == ActivitiesTotal(outputs) + Sum(CostTotals(supportCosts))
  {
    total := ActivitiesTotal(outputs);
    for i := 0 to |supportCosts|
      invariant total == ActivitiesTotal(outputs) + Sum(CostTotals(supportCosts[..i]))
    {
      assert CostTotals(supportCosts[..i + 1]) == CostTotals(supportCosts[..i]) + [supportCosts[i].GetOr(0.0)];
      SumSnoc(CostTotals(supportCosts[..i]), supportCosts[i].GetOr(0.0));
      total := total + supportCosts[i].GetOr(0.0);
    }
    assert supportCosts[..|supportCosts|] == supportCosts;
  }

  /** `update_budget_spent` on the file's contents: `None` when `expenditure_summary` is missing,
      where the source raises before writing; otherwise the updated document. */
  method UpdateBudgetSpent(doc: SpentDoc, updates: seq<BudgetUpdate>) returns (r: Option<SpentDoc>)
    ensures r.None? <==> doc.summary.None?
    ensures r.Some? ==>
              var outputs := ApplyUpdates(doc.outputs, ActivityLookup(doc.outputs), updates);
              r.value == SpentDoc(outputs, doc.supportCosts,
                                  Some(Some(ActivitiesTotal(outputs) + Sum(CostTotals(doc.supportCosts)))))
  {
    var lookup := BuildActivityLookup(doc.outputs);
    var outputs := ApplyAll(doc.outputs, lookup, updates);
    var totalSpent := Cumulative(outputs, doc.supportCosts);
    if doc.summary.None? {
      return None;
    }
    return Some(SpentDoc(outputs, doc.supportCosts, Some(Some(totalSpent))));
  }
}
