/** The risk register page (src/pages/RiskRegister.tsx): the category list, the filter and sort
    pipeline over the joined risks, and the sort, matrix-cell and clear-filter transitions. */
module RiskRegister {
  import opened Wrappers
  import opened Seqs
  import opened Text
  import opened Sorting
  import opened RiskData

  // ---------------------------------------------------------------- categories

  function CategoryOf(r: RiskWithPlans): string { r.risk.category }

  /** `categories`: every category is added to a `Set` in a `forEach`, and the set is sorted. */
  method Categories(risks: seq<RiskWithPlans>) returns (cats: seq<string>)
    ensures forall c :: c in cats <==> exists i :: 0 <= i < |risks| && risks[i].risk.category == c
    ensures Distinct(cats)
    ensures forall i, j :: 0 <= i < j < |cats| ==> Below(cats[i], cats[j]) && cats[i] != cats[j]
  {
    var seen := CategorySet(risks);
    cats := SortedUnique(seen);
    CategoryNamesMembers(risks);
    DedupMembers(CategoryNames(risks));
  }

  /** The `forEach` that adds each category to the `Set`, kept in insertion order. */
  method CategorySet(risks: seq<RiskWithPlans>) returns (seen: seq<string>)
    ensures seen == Dedup(CategoryNames(risks))
  {
    seen := [];
    ghost var names: seq<string> := [];
    var i := 0;
    while i < |risks|
      invariant 0 <= i <= |risks|
      invariant names == CategoryNames(risks[..i])
      invariant seen == Dedup(names)
    {
      var category := risks[i].risk.category;
      DedupOfPrefix(names, category);
      if category !in seen {
        seen := seen + [category];
      }
      CategoryNamesSnoc(risks, i);
      names := names + [category];
      i := i + 1;
    }
    assert risks[..i] == risks;
  }

  /** The category of each risk, in order. */
  function CategoryNames(risks: seq<RiskWithPlans>): (names: seq<string>)
  {
    if risks == [] then [] else CategoryNames(risks[..|risks| - 1]) + [risks[|risks| - 1].risk.category]
  }

  lemma CategoryNamesSnoc(risks: seq<RiskWithPlans>, i: int)
    requires 0 <= i < |risks|
    ensures CategoryNames(risks[..i + 1]) == CategoryNames(risks[..i]) + [risks[i].risk.category]
  {
    assert risks[..i + 1][..i] == risks[..i];
  }

  lemma {:induction false} CategoryNamesMembers(risks: seq<RiskWithPlans>)
    ensures forall c :: c in CategoryNames(risks) <==> exists i :: 0 <= i < |risks| && risks[i].risk.category == c
  {
    if risks != [] {
      var init := risks[..|risks| - 1];
      CategoryNamesMembers(init);
      forall c | c in CategoryNames(risks)
        ensures exists i :: 0 <= i < |risks| && risks[i].risk.category == c
      {
        if c in CategoryNames(init) {
          var i :| 0 <= i < |init| && init[i].risk.category == c;
          assert risks[i] == init[i];
        } else {
          assert risks[|risks| - 1].risk.category == c;
        }
      }
      forall i | 0 <= i < |risks|
        ensures risks[i].risk.category in CategoryNames(risks)
      {
        if i < |init| {
          assert init[i] == risks[i];
        }
      }
    }
  }

  // ---------------------------------------------------------------- filters

  /** The five filter controls; an empty string and `None` mean "no filter". */
  datatype Filters = Filters(category: string, rating: string, status: string, search: string, matrix: Option<(int, int)>)

  /** The matrix-cell filter is applied only when both coordinates are positive. */
  predicate CellFilterApplies(f: Filters)
  {
    f.matrix.Some? && f.matrix.value.0 > 0 && f.matrix.value.1 > 0
  }

  /** Case-insensitive search: the lower-cased query occurs in the lower-cased title,
      description or risk id. */
  predicate MatchesSearch(r: Risk, query: string)
  {
    var q := Lower(query);
    Contains(Lower(r.title), q) || Contains(Lower(r.description), q) || Contains(Lower(r.riskId), q)
  }

  /** `r` passes the first `stage` filters of the pipeline, in the page's order: category,
      rating, status, matrix cell, search. */
  predicate PassesUpTo(f: Filters, stage: nat, r: RiskWithPlans)
  {
    (stage >= 1 && f.category != "" ==> r.risk.category == f.category)
    && (stage >= 2 && f.rating != "" ==> r.risk.rating == f.rating)
    && (stage >= 3 && f.status != "" ==> r.risk.status == f.status)
    && (stage >= 4 && CellFilterApplies(f) ==> CellOf(r.risk) == f.matrix.value)
    && (stage >= 5 && f.search != "" ==> MatchesSearch(r.risk, f.search))
  }

  function Stage(f: Filters, stage: nat): RiskWithPlans -> bool
  {
    (r: RiskWithPlans) => PassesUpTo(f, stage, r)
  }

  /** Every filter of `f` holds for `r`. */
  predicate Keeps(f: Filters, r: RiskWithPlans)
  {
    PassesUpTo(f, 5, r)
  }

  function WithCategory(c: string): RiskWithPlans -> bool { (r: RiskWithPlans) => r.risk.category == c }
  function WithRating(v: string): RiskWithPlans -> bool { (r: RiskWithPlans) => r.risk.rating == v }
  function WithStatus(v: string): RiskWithPlans -> bool { (r: RiskWithPlans) => r.risk.status == v }
  function AtCell(cell: (int, int)): RiskWithPlans -> bool { (r: RiskWithPlans) => CellOf(r.risk) == cell }
  function Searched(query: string): RiskWithPlans -> bool { (r: RiskWithPlans) => MatchesSearch(r.risk, query) }

  /** Whether stage `stage` of the pipeline filters at all, and its test. */
  predicate Active(f: Filters, stage: nat)
  {
    match stage
    case 1 => f.category != ""
    case 2 => f.rating != ""
    case 3 => f.status != ""
    case 4 => CellFilterApplies(f)
    case _ => f.search != ""
  }

  function Test(f: Filters, stage: nat): RiskWithPlans -> bool
  {
    match stage
    case 1 => WithCategory(f.category)
    case 2 => WithRating(f.rating)
    case 3 => WithStatus(f.status)
    case 4 => AtCell(f.matrix.GetOr((0, 0)))
    case _ => Searched(f.search)
  }

  /** One `if (filter) result = result.filter(test)` step: what passes the earlier stages and
      then this one is what passes all stages so far. */
  lemma StageStep(s: seq<RiskWithPlans>, f: Filters, stage: nat)
    requires 1 <= stage <= 5
    ensures Filter(s, Stage(f, stage))
      == if Active(f, stage) then Filter(Filter(s, Stage(f, stage - 1)), Test(f, stage)) else Filter(s, Stage(f, stage - 1))
  {
    if Active(f, stage) {
      forall x
        ensures Stage(f, stage)(x) == (Stage(f, stage - 1)(x) && Test(f, stage)(x))
      {
      }
      FilterFusion(s, Stage(f, stage - 1), Test(f, stage), Stage(f, stage));
    } else {
      forall x
        ensures Stage(f, stage)(x) == Stage(f, stage - 1)(x)
      {
      }
      FilterCongruent(s, Stage(f, stage - 1), Stage(f, stage));
    }
  }

  // ---------------------------------------------------------------- sorting

  /** `a[sortColumn]` as the comparator sees it: numbers for the numeric columns, strings
      for the others, and `''` for a name that is not a column (`String(undefined || '')`). */
  function ColumnValue(r: Risk, column: string): SortKey
  {
    match column
    case "likelihood" => Number(r.likelihood)
    case "impact" => Number(r.impact)
    case "risk_score" => Number(r.riskScore)
    case "risk_id" => Words(r.riskId)
    case "title" => Words(r.title)
    case "category" => Words(r.category)
    case "description" => Words(r.description)
    case "rating" => Words(r.rating)
    case "direction" => Words(r.direction)
    case "status" => Words(r.status)
    case _ => Words("")
  }

  function ColumnKey(column: string): RiskWithPlans -> SortKey
  {
    (r: RiskWithPlans) => ColumnValue(r.risk, column)
  }

  datatype Direction = Asc | Desc

  /** The filtering half of `filteredRisks`: each active control filters a copy of the risks
      in turn. */
  method ApplyFilters(risks: seq<RiskWithPlans>, f: Filters) returns (result: seq<RiskWithPlans>)
    ensures result == Filter(risks, Stage(f, 5))
    ensures forall x :: x in result <==> x in risks && Keeps(f, x)
  {
    result := risks;
    FilterAll(risks, Stage(f, 0));
    result := Narrow(result, risks, f, 1);
    result := Narrow(result, risks, f, 2);
    result := Narrow(result, risks, f, 3);
    result := Narrow(result, risks, f, 4);
    result := Narrow(result, risks, f, 5);
    KeptMeaning(risks, f);
  }

  /** `if (active) result = result.filter(test)` for stage `stage`. */
  method Narrow(result: seq<RiskWithPlans>, ghost risks: seq<RiskWithPlans>, f: Filters, stage: nat)
      returns (r: seq<RiskWithPlans>)
    requires 1 <= stage <= 5 && result == Filter(risks, Stage(f, stage - 1))
    ensures r == Filter(risks, Stage(f, stage))
  {
    StageStep(risks, f, stage);
    if Active(f, stage) {
      r := Filter(result, Test(f, stage));
    } else {
      r := result;
    }
  }

  lemma KeptMeaning(risks: seq<RiskWithPlans>, f: Filters)
    ensures forall x :: x in Filter(risks, Stage(f, 5)) <==> x in risks && Keeps(f, x)
  {
    forall x | x in risks && Keeps(f, x)
      ensures x in Filter(risks, Stage(f, 5))
    {
      var i :| 0 <= i < |risks| && risks[i] == x;
    }
  }

  /** `filteredRisks`: the filtered copy, sorted in place by the chosen column and direction
      with the library's stable sort. */
  method FilterAndSort(risks: seq<RiskWithPlans>, f: Filters, column: string, dir: Direction)
      returns (result: seq<RiskWithPlans>)
    ensures forall x :: x in result <==> x in risks && Keeps(f, x)
    ensures multiset(result) == multiset(Filter(risks, Stage(f, 5)))
    ensures SortedBy(result, ColumnKey(column), dir == Desc)
    ensures forall k :: Filter(result, Is(ColumnKey(column), k)) == Filter(Filter(risks, Stage(f, 5)), Is(ColumnKey(column), k))
  {
    var filtered := ApplyFilters(risks, f);
    result := SortBy(filtered, ColumnKey(column), dir == Desc);
    SortBySorted(filtered, ColumnKey(column), dir == Desc);
    forall k
      ensures Filter(result, Is(ColumnKey(column), k)) == Filter(filtered, Is(ColumnKey(column), k))
    {
      SortByStable(filtered, ColumnKey(column), dir == Desc, k);
    }
    forall x
      ensures x in result <==> x in filtered
    {
      assert x in result <==> x in multiset(filtered);
    }
  }

  /** A numeric column sorted `desc` is non-increasing and sorted `asc` non-decreasing. */
  lemma NumericColumnOrder(result: seq<RiskWithPlans>, column: string, dir: Direction)
    requires column in {"likelihood", "impact", "risk_score"}
    requires SortedBy(result, ColumnKey(column), dir == Desc)
    ensures forall i, j :: 0 <= i < j < |result| ==>
      if dir == Desc then ColumnValue(result[j].risk, column).n <= ColumnValue(result[i].risk, column).n
      else ColumnValue(result[i].risk, column).n <= ColumnValue(result[j].risk, column).n
  {
    forall i, j | 0 <= i < j < |result|
      ensures if dir == Desc then ColumnValue(result[j].risk, column).n <= ColumnValue(result[i].risk, column).n
              else ColumnValue(result[i].risk, column).n <= ColumnValue(result[j].risk, column).n
    {
      assert Precedes(ColumnKey(column), dir == Desc, result[i], result[j]);
    }
  }

  function NoFilters(): Filters { Filters("", "", "", "", None) }

  /** With no filter set, the pipeline only reorders: the result is a permutation. */
  lemma UnfilteredIsPermutation(risks: seq<RiskWithPlans>)
    ensures multiset(Filter(risks, Stage(NoFilters(), 5))) == multiset(risks)
  {
    FilterAll(risks, Stage(NoFilters(), 5));
  }

  /** A selected cell with a zero coordinate filters nothing. */
  lemma ZeroCellIsNoFilter(f: Filters, r: RiskWithPlans)
    requires f.matrix.Some? && (f.matrix.value.0 <= 0 || f.matrix.value.1 <= 0)
    ensures Keeps(f, r) == Keeps(f.(matrix := None), r)
  {
  }

  /** Searching is insensitive to the case of the query. */
  lemma SearchIgnoresQueryCase(r: Risk, query: string)
    ensures MatchesSearch(r, query) == MatchesSearch(r, Lower(query))
  {
    LowerIdempotent(query);
  }

  lemma SearchExample()
    ensures MatchesSearch(Risk("R01", "Funding Delay", "Financial", "", 3, 4, 12, "High", "Stable", "Open"), "DELAY")
  {
    var t := Lower("Funding Delay");
    var q := Lower("DELAY");
    assert q == "delay";
    assert t == "funding delay";
    assert t[8..13] == "delay";
    ContainsMeaning(t, q);
    assert OccursAt(t, q, 8);
  }

  // ---------------------------------------------------------------- transitions

  datatype SortState = SortState(column: string, direction: Direction)

  /** The initial sort: `risk_score`, descending. */
  const INITIAL_SORT := SortState("risk_score", Desc)

  /** `handleSort`: the current column flips direction; another column is selected descending. */
  function HandleSort(s: SortState, column: string): (r: SortState)
    ensures r.column == column
    ensures column == s.column ==> r.direction != s.direction
    ensures column != s.column ==> r.direction == Desc
  {
    if s.column == column then SortState(column, if s.direction == Asc then Desc else Asc)
    else SortState(column, Desc)
  }

  /** Sorting twice by the current column restores the state. */
  lemma HandleSortTwice(s: SortState)
    ensures HandleSort(HandleSort(s, s.column), s.column) == s
  {
  }

  /** `handleMatrixCellClick`: (0, 0) clears; the selected cell toggles off; any other cell is
      selected. */
  function HandleMatrixCellClick(selected: Option<(int, int)>, likelihood: int, impact: int): (r: Option<(int, int)>)
    ensures likelihood == 0 && impact == 0 ==> r == None
    ensures selected == Some((likelihood, impact)) ==> r == None
    ensures r == None || r == Some((likelihood, impact))
    ensures r == None <==> (likelihood == 0 && impact == 0) || selected == Some((likelihood, impact))
  {
    if likelihood == 0 && impact == 0 then None
    else if selected.Some? && selected.value == (likelihood, impact) then None
    else Some((likelihood, impact))
  }

  /** Two clicks on the same non-origin cell return to no selection. */
  lemma CellClickTwice(selected: Option<(int, int)>, likelihood: int, impact: int)
    requires selected == None
    requires likelihood != 0 || impact != 0
    ensures HandleMatrixCellClick(HandleMatrixCellClick(selected, likelihood, impact), likelihood, impact) == None
  {
  }

  /** `clearAllFilters`. */
  function ClearAllFilters(): Filters { NoFilters() }

  /** `hasActiveFilters`: any non-empty control, or any selected cell (even one the filter
      ignores). */
  predicate HasActiveFilters(f: Filters)
  {
    f.category != "" || f.rating != "" || f.status != "" || f.search != "" || f.matrix.Some?
  }

  lemma ClearedHasNoActiveFilters()
    ensures !HasActiveFilters(ClearAllFilters())
  {
  }

  /** A filter that is not active keeps every risk. */
  lemma InactiveFiltersKeepAll(f: Filters, r: RiskWithPlans)
    requires !HasActiveFilters(f)
    ensures Keeps(f, r)
  {
  }
}
