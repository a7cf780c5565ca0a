/** The risk register data hook (src/hooks/useRiskData.ts): the plan lookup, activities linked to
    each risk, the join of risks with both, the summary tallies, the 5x5 likelihood-by-impact
    matrix, and the score bands. */
module RiskData {
  import opened Wrappers
  import opened Seqs

  /** A register entry; rating, direction and status are the raw strings of the file. */
  datatype Risk = Risk(
    riskId: string, title: string, category: string, description: string,
    likelihood: int, impact: int, riskScore: int, rating: string, direction: string, status: string)

  /** The mitigation and contingency plans of a risk, passed through unread. */
  datatype Plans = Plans(mitigationPlan: string, contingencyPlan: string)

  datatype PlanRecord = PlanRecord(riskId: string, plans: Plans)

  datatype ActivityRiskMapping = ActivityRiskMapping(
    indicator: string, activity: string, challenge: string, counterplan: string, linkedRiskIds: seq<string>)

  /** `{...risk, mitigation_plan, contingency_plan, linked_activities}`: the risk's own fields
      are kept as they are. */
  datatype RiskWithPlans = RiskWithPlans(risk: Risk, plans: Option<Plans>, linkedActivities: Option<seq<ActivityRiskMapping>>)

  // ---------------------------------------------------------------- lookups

  /** The plan lookup: a later record for the same risk replaces an earlier one. */
  method BuildPlanMap(records: seq<PlanRecord>) returns (planMap: map<string, Plans>)
    ensures forall id :: id in planMap <==> exists i :: 0 <= i < |records| && records[i].riskId == id
    ensures forall i :: 0 <= i < |records| && (forall j :: i < j < |records| ==> records[j].riskId != records[i].riskId) ==>
      planMap[records[i].riskId] == records[i].plans
  {
    planMap := map[];
    var k := 0;
    while k < |records|
      invariant 0 <= k <= |records|
      invariant forall id :: id in planMap <==> exists i :: 0 <= i < k && records[i].riskId == id
      invariant forall i :: 0 <= i < k && (forall j :: i < j < k ==> records[j].riskId != records[i].riskId) ==>
        planMap[records[i].riskId] == records[i].plans
    {
      planMap := planMap[records[k].riskId := records[k].plans];
      k := k + 1;
    }
  }

  /** `n` copies of `x`. */
  function Repeat<T>(x: T, n: nat): (r: seq<T>)
    ensures |r| == n
  {
    if n == 0 then [] else Repeat(x, n - 1) + [x]
  }

  /** The mappings linked to a risk: each mapping once per occurrence of the risk id in its
      linked ids, in mapping order. */
  function LinkedTo(mappings: seq<ActivityRiskMapping>, id: string): seq<ActivityRiskMapping>
  {
    if mappings == [] then []
    else
      var last := mappings[|mappings| - 1];
      LinkedTo(mappings[..|mappings| - 1], id) + Repeat(last, Occurrences(last.linkedRiskIds, id))
  }

  lemma {:induction false} LinkedToUnlisted(mappings: seq<ActivityRiskMapping>, id: string)
    requires forall k :: 0 <= k < |mappings| ==> id !in mappings[k].linkedRiskIds
    ensures LinkedTo(mappings, id) == []
  {
    if mappings != [] {
      LinkedToUnlisted(mappings[..|mappings| - 1], id);
      OccurrencesPositive(mappings[|mappings| - 1].linkedRiskIds, id);
    }
  }

  /** `activityByRisk`: a key for every risk id some mapping lists, holding its linked mappings. */
  method ActivityByRisk(mappings: seq<ActivityRiskMapping>) returns (byRisk: map<string, seq<ActivityRiskMapping>>)
    ensures forall id :: id in byRisk <==> exists k :: 0 <= k < |mappings| && id in mappings[k].linkedRiskIds
    ensures forall id :: id in byRisk ==> byRisk[id] == LinkedTo(mappings, id)
  {
    byRisk := map[];
    var i := 0;
    while i < |mappings|
      invariant 0 <= i <= |mappings|
      invariant LinksOf(byRisk, mappings[..i])
    {
      ghost var before := byRisk;
      byRisk := AddLinks(byRisk, mappings[i]);
      LinksStep(mappings[..i], mappings[i], before, byRisk);
      PrefixStep(mappings, i);
      i := i + 1;
    }
    assert mappings[..i] == mappings;
  }

  /** The lists of the mappings `done`: a key for each id they link, holding its linked mappings. */
  ghost predicate LinksOf(byRisk: map<string, seq<ActivityRiskMapping>>, done: seq<ActivityRiskMapping>)
  {
    && (forall id :: id in byRisk <==> exists k :: 0 <= k < |done| && id in done[k].linkedRiskIds)
    && (forall id :: id in byRisk ==> byRisk[id] == LinkedTo(done, id))
  }

  /** `before` with `mapping` pushed once per occurrence of each id in `ids`. */
  ghost predicate Pushed(after: map<string, seq<ActivityRiskMapping>>, before: map<string, seq<ActivityRiskMapping>>,
                         mapping: ActivityRiskMapping, ids: seq<string>)
  {
    && (forall id :: id in after <==> id in before || id in ids)
    && (forall id :: id in after ==>
          after[id] == (if id in before then before[id] else []) + Repeat(mapping, Occurrences(ids, id)))
  }

  lemma PrefixStep<T>(s: seq<T>, i: int)
    requires 0 <= i < |s|
    ensures s[..i + 1] == s[..i] + [s[i]]
  {
  }

  /** One mapping's pass over its linked ids: an id seen for the first time gets an empty list,
      then the mapping is pushed onto the id's list, once per occurrence. */
  method AddLinks(before: map<string, seq<ActivityRiskMapping>>, mapping: ActivityRiskMapping)
    returns (after: map<string, seq<ActivityRiskMapping>>)
    ensures forall id :: id in after <==> id in before || id in mapping.linkedRiskIds
    ensures forall id :: id in after ==>
              after[id] == (if id in before then before[id] else []) + Repeat(mapping, Occurrences(mapping.linkedRiskIds, id))
  {
    var ids := mapping.linkedRiskIds;
    after := before;
    for j := 0 to |ids|
      invariant Pushed(after, before, mapping, ids[..j])
    {
      var riskId := ids[j];
      PushStep(after, before, mapping, ids[..j], riskId);
      PrefixStep(ids, j);
      if riskId !in after {
        after := after[riskId := []];
      }
      after := after[riskId := after[riskId] + [mapping]];
    }
    assert ids[..|ids|] == ids;
  }

  /** Pushing for one more id keeps the lists those of the longer id list. */
  lemma PushStep(after: map<string, seq<ActivityRiskMapping>>, before: map<string, seq<ActivityRiskMapping>>,
                 mapping: ActivityRiskMapping, ids: seq<string>, riskId: string)
    requires Pushed(after, before, mapping, ids)
    ensures var a := if riskId in after then after else after[riskId := []];
            Pushed(a[riskId := a[riskId] + [mapping]], before, mapping, ids + [riskId])
  {
    var a := if riskId in after then after else after[riskId := []];
    var a' := a[riskId := a[riskId] + [mapping]];
    var ids' := ids + [riskId];
    forall id | id in a'
      ensures a'[id] == (if id in before then before[id] else []) + Repeat(mapping, Occurrences(ids', id))
    {
      OccurrencesSnoc(ids, riskId, id);
      if id == riskId {
        if riskId !in after {
          OccurrencesPositive(ids, riskId);
          assert Repeat(mapping, Occurrences(ids, id)) == [];
        }
        assert a[riskId] == (if id in before then before[id] else []) + Repeat(mapping, Occurrences(ids, id));
      } else {
        assert a'[id] == after[id];
      }
    }
    assert forall id :: id in a' <==> id in before || id in ids' by {
      assert forall id :: id in ids' <==> id in ids || id == riskId;
    }
  }

  /** The lists after one more mapping are the linked mappings of the longer prefix. */
  lemma LinksStep(done: seq<ActivityRiskMapping>, mapping: ActivityRiskMapping, before: map<string, seq<ActivityRiskMapping>>,
                  after: map<string, seq<ActivityRiskMapping>>)
    requires LinksOf(before, done)
    requires Pushed(after, before, mapping, mapping.linkedRiskIds)
    ensures LinksOf(after, done + [mapping])
  {
    var done' := done + [mapping];
    assert done'[..|done|] == done;
    forall id | id in after
      ensures after[id] == LinkedTo(done', id)
    {
      if id !in before {
        LinkedToUnlisted(done, id);
      }
    }
    forall id | id in after
      ensures exists k :: 0 <= k < |done'| && id in done'[k].linkedRiskIds
    {
      if id !in before {
        assert id in done'[|done|].linkedRiskIds;
      } else {
        var k :| 0 <= k < |done| && id in done[k].linkedRiskIds;
        assert done'[k] == done[k];
      }
    }
  }

  /** A mapping appears under a risk once per occurrence of that risk in its linked ids, times
      the number of times the mapping itself appears: nothing is invented or dropped. */
  lemma {:induction false} LinkedToCounts(mappings: seq<ActivityRiskMapping>, id: string, m: ActivityRiskMapping)
    ensures Occurrences(LinkedTo(mappings, id), m) == Occurrences(mappings, m) * Occurrences(m.linkedRiskIds, id)
  {
    if mappings != [] {
      var init, last := mappings[..|mappings| - 1], mappings[|mappings| - 1];
      var n := Occurrences(last.linkedRiskIds, id);
      var a, c := Occurrences(init, m), Occurrences(m.linkedRiskIds, id);
      LinkedToCounts(init, id, m);
      assert LinkedTo(mappings, id) == LinkedTo(init, id) + Repeat(last, n);
      OccurrencesConcat(LinkedTo(init, id), Repeat(last, n), m);
      RepeatOccurrences(last, n, m);
      assert mappings == init + [last];
      OccurrencesSnoc(init, last, m);
      if last == m {
        assert Occurrences(mappings, m) == a + 1;
        assert Occurrences(LinkedTo(mappings, id), m) == a * c + c;
        SuccTimes(a, c);
      } else {
        assert Occurrences(mappings, m) == a;
        assert Occurrences(LinkedTo(mappings, id), m) == a * c;
      }
    }
  }

  lemma SuccTimes(a: nat, c: nat)
    ensures (a + 1) * c == a * c + c
  {
  }

  lemma {:induction false} RepeatOccurrences<T>(x: T, n: nat, y: T)
    ensures Occurrences(Repeat(x, n), y) == if x == y then n else 0
  {
    if n > 0 {
      RepeatOccurrences(x, n - 1, y);
      OccurrencesSnoc(Repeat(x, n - 1), x, y);
    }
  }

  /** `risksWithPlans`: the risks in their own order, each joined with its plans and its linked
      mappings by risk id, and absent where the lookup has no entry. */
  function RisksWithPlans(risks: seq<Risk>, planMap: map<string, Plans>, byRisk: map<string, seq<ActivityRiskMapping>>)
    : (r: seq<RiskWithPlans>)
    ensures |r| == |risks|
    ensures forall i :: 0 <= i < |r| ==>
      && r[i].risk == risks[i]
      && (r[i].plans.Some? <==> risks[i].riskId in planMap)
      && (r[i].plans.Some? ==> r[i].plans.value == planMap[risks[i].riskId])
      && (r[i].linkedActivities.Some? <==> risks[i].riskId in byRisk)
      && (r[i].linkedActivities.Some? ==> r[i].linkedActivities.value == byRisk[risks[i].riskId])
  {
    seq(|risks|, i requires 0 <= i < |risks| =>
      var id := risks[i].riskId;
      RiskWithPlans(risks[i],
        if id in planMap then Some(planMap[id]) else None,
        if id in byRisk then Some(byRisk[id]) else None))
  }

  // ---------------------------------------------------------------- summary

  function RatingOf(r: Risk): string { r.rating }
  function StatusOf(r: Risk): string { r.status }
  function DirectionOf(r: Risk): string { r.direction }

  const RATINGS: seq<string> := ["Extreme", "High", "Medium", "Low"]
  const STATUSES: seq<string> := ["Escalated", "Open", "Mitigating", "Closed"]
  const DIRECTIONS: seq<string> := ["Increasing", "Stable", "Decreasing"]

  datatype RatingTally = RatingTally(extreme: nat, high: nat, medium: nat, low: nat)
  datatype StatusTally = StatusTally(escalated: nat, open: nat, mitigating: nat, closed: nat)
  datatype DirectionTally = DirectionTally(increasing: nat, stable: nat, decreasing: nat)

  datatype RiskSummary = RiskSummary(total: nat, byRating: RatingTally, byStatus: StatusTally, byDirection: DirectionTally)

  /** The rating tallies of a list of risks, each the number of risks with exactly that rating. */
  function RatingCounts(risks: seq<Risk>): RatingTally
  {
    RatingTally(CountOf(risks, RatingOf, "Extreme"), CountOf(risks, RatingOf, "High"),
      CountOf(risks, RatingOf, "Medium"), CountOf(risks, RatingOf, "Low"))
  }

  function StatusCounts(risks: seq<Risk>): StatusTally
  {
    StatusTally(CountOf(risks, StatusOf, "Escalated"), CountOf(risks, StatusOf, "Open"),
      CountOf(risks, StatusOf, "Mitigating"), CountOf(risks, StatusOf, "Closed"))
  }

  function DirectionCounts(risks: seq<Risk>): DirectionTally
  {
    DirectionTally(CountOf(risks, DirectionOf, "Increasing"), CountOf(risks, DirectionOf, "Stable"),
      CountOf(risks, DirectionOf, "Decreasing"))
  }

  /** One `switch (r.rating)`: the matching case is incremented, and none when nothing matches. */
  function CountRating(t: RatingTally, rating: string): RatingTally
  {
    match rating
    case "Extreme" => t.(extreme := t.extreme + 1)
    case "High" => t.(high := t.high + 1)
    case "Medium" => t.(medium := t.medium + 1)
    case "Low" => t.(low := t.low + 1)
    case _ => t
  }

  function CountStatus(t: StatusTally, status: string): StatusTally
  {
    match status
    case "Escalated" => t.(escalated := t.escalated + 1)
    case "Open" => t.(open := t.open + 1)
    case "Mitigating" => t.(mitigating := t.mitigating + 1)
    case "Closed" => t.(closed := t.closed + 1)
    case _ => t
  }

  function CountDirection(t: DirectionTally, direction: string): DirectionTally
  {
    match direction
    case "Increasing" => t.(increasing := t.increasing + 1)
    case "Stable" => t.(stable := t.stable + 1)
    case "Decreasing" => t.(decreasing := t.decreasing + 1)
    case _ => t
  }

  lemma RatingStep(risks: seq<Risk>, r: Risk)
    ensures CountRating(RatingCounts(risks), r.rating) == RatingCounts(risks + [r])
  {
    CountOfSnoc(risks, r, RatingOf, "Extreme");
    CountOfSnoc(risks, r, RatingOf, "High");
    CountOfSnoc(risks, r, RatingOf, "Medium");
    CountOfSnoc(risks, r, RatingOf, "Low");
  }

  lemma StatusStep(risks: seq<Risk>, r: Risk)
    ensures CountStatus(StatusCounts(risks), r.status) == StatusCounts(risks + [r])
  {
    CountOfSnoc(risks, r, StatusOf, "Escalated");
    CountOfSnoc(risks, r, StatusOf, "Open");
    CountOfSnoc(risks, r, StatusOf, "Mitigating");
    CountOfSnoc(risks, r, StatusOf, "Closed");
  }

  lemma DirectionStep(risks: seq<Risk>, r: Risk)
    ensures CountDirection(DirectionCounts(risks), r.direction) == DirectionCounts(risks + [r])
  {
    CountOfSnoc(risks, r, DirectionOf, "Increasing");
    CountOfSnoc(risks, r, DirectionOf, "Stable");
    CountOfSnoc(risks, r, DirectionOf, "Decreasing");
  }

  /** `summary`: the three `switch` tallies over the risks, and their number. */
  method Summarize(risks: seq<Risk>) returns (s: RiskSummary)
    ensures s.total == |risks|
    ensures s.byRating == RatingCounts(risks)
    ensures s.byStatus == StatusCounts(risks)
    ensures s.byDirection == DirectionCounts(risks)
  {
    var byRating := RatingTally(0, 0, 0, 0);
    var byStatus := StatusTally(0, 0, 0, 0);
    var byDirection := DirectionTally(0, 0, 0);
    var i := 0;
    while i < |risks|
      invariant 0 <= i <= |risks|
      invariant byRating == RatingCounts(risks[..i])
      invariant byStatus == StatusCounts(risks[..i])
      invariant byDirection == DirectionCounts(risks[..i])
    {
      var r := risks[i];
      assert risks[..i + 1] == risks[..i] + [r];
      RatingStep(risks[..i], r);
      StatusStep(risks[..i], r);
      DirectionStep(risks[..i], r);
      byRating := CountRating(byRating, r.rating);
      byStatus := CountStatus(byStatus, r.status);
      byDirection := CountDirection(byDirection, r.direction);
      i := i + 1;
    }
    assert risks[..i] == risks;
    s := RiskSummary(|risks|, byRating, byStatus, byDirection);
  }

  lemma SumCountsOfFour<T>(s: seq<T>, key: T -> string, a: string, b: string, c: string, d: string)
    ensures SumCounts(s, key, [a, b, c, d]) == CountOf(s, key, a) + CountOf(s, key, b) + CountOf(s, key, c) + CountOf(s, key, d)
  {
    assert [a, b, c, d][1..] == [b, c, d];
    assert [b, c, d][1..] == [c, d];
    assert [c, d][1..] == [d];
    assert [d][1..] == [];
    assert SumCounts(s, key, [d]) == CountOf(s, key, d) + SumCounts(s, key, []);
    assert SumCounts(s, key, [c, d]) == CountOf(s, key, c) + SumCounts(s, key, [d]);
    assert SumCounts(s, key, [b, c, d]) == CountOf(s, key, b) + SumCounts(s, key, [c, d]);
  }

  /** The rating tallies and the risks whose rating is outside the union account for every
      risk once, so the tallies sum to the total exactly when every rating is in the union;
      values outside it are counted nowhere. */
  lemma RatingTallyPartition(risks: seq<Risk>)
    ensures var t := RatingCounts(risks);
            t.extreme + t.high + t.medium + t.low + |Filter(risks, Outside(RatingOf, RATINGS))| == |risks|
  {
    CountsPartition(risks, RatingOf, RATINGS);
    SumCountsOfFour(risks, RatingOf, "Extreme", "High", "Medium", "Low");
  }

  lemma StatusTallyPartition(risks: seq<Risk>)
    ensures var t := StatusCounts(risks);
            t.escalated + t.open + t.mitigating + t.closed + |Filter(risks, Outside(StatusOf, STATUSES))| == |risks|
  {
    CountsPartition(risks, StatusOf, STATUSES);
    SumCountsOfFour(risks, StatusOf, "Escalated", "Open", "Mitigating", "Closed");
  }

  lemma DirectionTallyPartition(risks: seq<Risk>)
    ensures var t := DirectionCounts(risks);
            t.increasing + t.stable + t.decreasing + |Filter(risks, Outside(DirectionOf, DIRECTIONS))| == |risks|
  {
    CountsPartition(risks, DirectionOf, DIRECTIONS);
    var ds := DIRECTIONS;
    assert ds[1..] == ["Stable", "Decreasing"];
    assert ds[1..][1..] == ["Decreasing"];
    assert ds[1..][1..][1..] == [];
  }

  // ---------------------------------------------------------------- matrix

  function CellOf(r: Risk): (int, int) { (r.likelihood, r.impact) }

  predicate InGrid(r: Risk)
  {
    1 <= r.likelihood <= 5 && 1 <= r.impact <= 5
  }

  /** `matrix`: `cells[5 - likelihood][impact - 1]` counts the risks at each pair, and `risksAt`
      lists them under their (likelihood, impact) key in input order. The source indexes row
      `5 - likelihood` of a five-row array, so likelihood and impact must lie in 1..5. */
  method BuildMatrix(risks: seq<Risk>) returns (cells: array2<int>, risksAt: map<(int, int), seq<Risk>>)
    requires forall i :: 0 <= i < |risks| ==> InGrid(risks[i])
    ensures fresh(cells) && cells.Length0 == 5 && cells.Length1 == 5
    ensures forall l, m :: 1 <= l <= 5 && 1 <= m <= 5 ==> cells[5 - l, m - 1] == CountOf(risks, CellOf, (l, m))
    ensures forall k :: k in risksAt <==> exists i :: 0 <= i < |risks| && CellOf(risks[i]) == k
    ensures forall k :: k in risksAt ==> risksAt[k] == Filter(risks, Is(CellOf, k))
    ensures forall k :: k in risksAt ==> 1 <= k.0 <= 5 && 1 <= k.1 <= 5 && |risksAt[k]| == cells[5 - k.0, k.1 - 1]
  {
    cells := new int[5, 5]((_, _) => 0);
    risksAt := map[];
    var i := 0;
    while i < |risks|
      invariant 0 <= i <= |risks|
      invariant Counted(cells, risks[..i])
      invariant Grouped(risksAt, risks[..i])
    {
      var r := risks[i];
      assert risks[..i + 1] == risks[..i] + [r];
      AddToCell(cells, risks[..i], r);
      risksAt := AddToGroup(risksAt, risks[..i], r);
      i := i + 1;
    }
    assert risks[..i] == risks;
    GroupSizesAreCounts(cells, risksAt, risks);
  }

  /** Each listed cell lies in the grid and holds as many risks as its count. */
  lemma GroupSizesAreCounts(cells: array2<int>, risksAt: map<(int, int), seq<Risk>>, risks: seq<Risk>)
    requires forall i :: 0 <= i < |risks| ==> InGrid(risks[i])
    requires Counted(cells, risks) && Grouped(risksAt, risks)
    ensures forall k :: k in risksAt ==> 1 <= k.0 <= 5 && 1 <= k.1 <= 5 && |risksAt[k]| == cells[5 - k.0, k.1 - 1]
  {
    forall k | k in risksAt
      ensures 1 <= k.0 <= 5 && 1 <= k.1 <= 5 && |risksAt[k]| == cells[5 - k.0, k.1 - 1]
    {
      KeyInGrid(risksAt, risks, k);
      GroupSizeAt(cells, risksAt, risks, k);
    }
  }

  lemma KeyInGrid(risksAt: map<(int, int), seq<Risk>>, risks: seq<Risk>, k: (int, int))
    requires forall i :: 0 <= i < |risks| ==> InGrid(risks[i])
    requires Grouped(risksAt, risks) && k in risksAt
    ensures 1 <= k.0 <= 5 && 1 <= k.1 <= 5
  {
    var j :| 0 <= j < |risks| && CellOf(risks[j]) == k;
    assert InGrid(risks[j]);
  }

  lemma GroupSizeAt(cells: array2<int>, risksAt: map<(int, int), seq<Risk>>, risks: seq<Risk>, k: (int, int))
    requires Counted(cells, risks) && Grouped(risksAt, risks)
    requires k in risksAt && 1 <= k.0 <= 5 && 1 <= k.1 <= 5
    ensures |risksAt[k]| == cells[5 - k.0, k.1 - 1]
  {
    assert k == (k.0, k.1);
    assert cells[5 - k.0, k.1 - 1] == CountOf(risks, CellOf, (k.0, k.1));
  }

  /** Cell `[5 - likelihood, impact - 1]` of the 5x5 `cells` counts the risks of `done` at that
      likelihood and impact. */
  ghost predicate Counted(cells: array2<int>, done: seq<Risk>)
    reads cells
  {
    cells.Length0 == 5 && cells.Length1 == 5
    && forall l, m :: 1 <= l <= 5 && 1 <= m <= 5 ==> cells[5 - l, m - 1] == CountOf(done, CellOf, (l, m))
  }

  /** `risksAt` holds exactly the cells some risk of `done` occupies, each with its risks in order. */
  ghost predicate Grouped(risksAt: map<(int, int), seq<Risk>>, done: seq<Risk>)
  {
    (forall k :: k in risksAt <==> exists j :: 0 <= j < |done| && CellOf(done[j]) == k)
    && (forall k :: k in risksAt ==> risksAt[k] == Filter(done, Is(CellOf, k)))
  }

  /** `risksAt[key] = [...(risksAt[key] || []), r]` for one risk. */
  method AddToGroup(risksAt: map<(int, int), seq<Risk>>, ghost done: seq<Risk>, r: Risk)
      returns (m: map<(int, int), seq<Risk>>)
    requires Grouped(risksAt, done)
    ensures Grouped(m, done + [r])
  {
    var key := (r.likelihood, r.impact);
    GroupStep(risksAt, done, r);
    m := risksAt;
    if key !in m {
      m := m[key := []];
    }
    m := m[key := m[key] + [r]];
  }

  /** Adding one risk under its cell keeps the lists those of the longer list of risks. */
  lemma GroupStep(risksAt: map<(int, int), seq<Risk>>, done: seq<Risk>, r: Risk)
    requires Grouped(risksAt, done)
    ensures var key := (r.likelihood, r.impact);
            var a := if key in risksAt then risksAt else risksAt[key := []];
            Grouped(a[key := a[key] + [r]], done + [r])
  {
    CellStep(done, r);
    var key := (r.likelihood, r.impact);
    var a := if key in risksAt then risksAt else risksAt[key := []];
    var m := a[key := a[key] + [r]];
    var done' := done + [r];
    if key !in risksAt {
      FilterNone(done, Is(CellOf, key));
    }
    forall k | k in m
      ensures m[k] == Filter(done', Is(CellOf, k))
    {
      if k != key {
        assert m[k] == risksAt[k];
      }
    }
    forall k | k in m
      ensures exists j :: 0 <= j < |done'| && CellOf(done'[j]) == k
    {
      if k == key {
        assert CellOf(done'[|done|]) == k;
      } else {
        var j :| 0 <= j < |done| && CellOf(done[j]) == k;
        assert done'[j] == done[j];
      }
    }
    forall k | exists j :: 0 <= j < |done'| && CellOf(done'[j]) == k
      ensures k in m
    {
      var j :| 0 <= j < |done'| && CellOf(done'[j]) == k;
      if j < |done| {
        assert done'[j] == done[j];
      }
    }
  }

  /** `matrix[5 - likelihood][impact - 1]++` for one risk: the counts of `prefix` become the
      counts of `prefix + [r]`. */
  method AddToCell(cells: array2<int>, ghost prefix: seq<Risk>, r: Risk)
    requires cells.Length0 == 5 && cells.Length1 == 5 && InGrid(r)
    requires Counted(cells, prefix)
    modifies cells
    ensures Counted(cells, prefix + [r])
  {
    var row := 5 - r.likelihood;
    var col := r.impact - 1;
    CellStep(prefix, r);
    cells[row, col] := cells[row, col] + 1;
    forall l, m | 1 <= l <= 5 && 1 <= m <= 5
      ensures cells[5 - l, m - 1] == CountOf(prefix + [r], CellOf, (l, m))
    {
      assert (l, m) == CellOf(r) <==> 5 - l == row && m - 1 == col;
    }
  }

  lemma CellStep(prefix: seq<Risk>, r: Risk)
    ensures forall k :: Filter(prefix + [r], Is(CellOf, k)) == Filter(prefix, Is(CellOf, k)) + (if CellOf(r) == k then [r] else [])
    ensures forall k :: CountOf(prefix + [r], CellOf, k) == CountOf(prefix, CellOf, k) + (if CellOf(r) == k then 1 else 0)
  {
    forall k
      ensures Filter(prefix + [r], Is(CellOf, k)) == Filter(prefix, Is(CellOf, k)) + (if CellOf(r) == k then [r] else [])
    {
      FilterConcat(prefix, [r], Is(CellOf, k));
    }
  }

  /** The 25 cells in row-major order of the matrix: row 0 is likelihood 5. */
  function AllCells(): (r: seq<(int, int)>)
    ensures |r| == 25
  {
    seq(25, k requires 0 <= k < 25 => (5 - k / 5, k % 5 + 1))
  }

  lemma AllCellsDistinctAndComplete()
    ensures Distinct(AllCells())
    ensures forall l, m :: 1 <= l <= 5 && 1 <= m <= 5 ==> (l, m) in AllCells()
  {
    forall l, m | 1 <= l <= 5 && 1 <= m <= 5
      ensures (l, m) in AllCells()
    {
      var k := (5 - l) * 5 + (m - 1);
      assert AllCells()[k] == (l, m);
    }
  }

  /** With every likelihood and impact in 1..5, the 25 cell counts add up to the number of risks. */
  lemma MatrixCountsSumToTotal(risks: seq<Risk>)
    requires forall i :: 0 <= i < |risks| ==> InGrid(risks[i])
    ensures SumCounts(risks, CellOf, AllCells()) == |risks|
  {
    AllCellsDistinctAndComplete();
    CountsSumToTotal(risks, CellOf, AllCells());
  }

  /** The corners of the built matrix: the top-left cell counts the risks at likelihood 5 and
      impact 1, the bottom-right cell those at likelihood 1 and impact 5; the row-major cell
      order starts and ends with the same pairs. */
  method MatrixCorners(risks: seq<Risk>) returns (topLeft: int, bottomRight: int)
    requires forall i :: 0 <= i < |risks| ==> InGrid(risks[i])
    ensures topLeft == CountOf(risks, CellOf, (5, 1))
    ensures bottomRight == CountOf(risks, CellOf, (1, 5))
    ensures AllCells()[0] == (5, 1) && AllCells()[24] == (1, 5)
  {
    var cells, _ := BuildMatrix(risks);
    topLeft := cells[0, 0];
    bottomRight := cells[4, 4];
  }

  // ---------------------------------------------------------------- bands

  datatype Rating = Extreme | High | Medium | Low

  /** `getRatingFromScore`: 15, 10 and 5 are inclusive lower bounds. */
  function GetRatingFromScore(score: int): (r: Rating)
    ensures r == Extreme <==> score >= 15
    ensures r == High <==> 10 <= score < 15
    ensures r == Medium <==> 5 <= score < 10
    ensures r == Low <==> score < 5
  {
    if score >= 15 then Extreme
    else if score >= 10 then High
    else if score >= 5 then Medium
    else Low
  }

  /** `getRiskColor`: the cell colour of a likelihood and impact. */
  function GetRiskColor(likelihood: int, impact: int): string
  {
    var score := likelihood * impact;
    if score >= 15 then "#dc2626"
    else if score >= 10 then "#f97316"
    else if score >= 5 then "#eab308"
    else "#22c55e"
  }

  /** The colour is red, orange, yellow or green exactly when the rating of the product is
      Extreme, High, Medium or Low. */
  lemma ColourMatchesRating(likelihood: int, impact: int)
    ensures GetRiskColor(likelihood, impact) == "#dc2626" <==> GetRatingFromScore(likelihood * impact) == Extreme
    ensures GetRiskColor(likelihood, impact) == "#f97316" <==> GetRatingFromScore(likelihood * impact) == High
    ensures GetRiskColor(likelihood, impact) == "#eab308" <==> GetRatingFromScore(likelihood * impact) == Medium
    ensures GetRiskColor(likelihood, impact) == "#22c55e" <==> GetRatingFromScore(likelihood * impact) == Low
  {
  }

  lemma RatingExamples()
    ensures GetRatingFromScore(25) == Extreme && GetRatingFromScore(15) == Extreme
    ensures GetRatingFromScore(12) == High && GetRatingFromScore(10) == High
    ensures GetRatingFromScore(6) == Medium && GetRatingFromScore(5) == Medium
    ensures GetRatingFromScore(4) == Low
  {
  }
}
