/** The dashboard risk section (src/components/dashboard/RiskSection.tsx): its own copy of the
    filter pipeline (rating first, an `'all'` sentinel, no positivity test on the cell), the
    score-descending sort, the cell toggle, the filter reset, and the mini matrix's grid
    coordinates. The category list is the register page's (RiskRegister.Categories). */
module RiskSection {
  import opened Wrappers
  import opened Seqs
  import opened Text
  import opened Sorting
  import opened RiskData
  import RiskRegister

  /** The section's filter controls: rating `"all"` and empty strings mean "no filter". */
  datatype SectionFilters = SectionFilters(rating: string, category: string, status: string, search: string, matrix: Option<(int, int)>)

  /** `r` passes the first `stage` filters, in the section's order: rating, category, status,
      matrix cell, search. */
  predicate PassesUpTo(f: SectionFilters, stage: nat, r: RiskWithPlans)
  {
    (stage >= 1 && f.rating != "all" ==> r.risk.rating == f.rating)
    && (stage >= 2 && f.category != "" ==> r.risk.category == f.category)
    && (stage >= 3 && f.status != "" ==> r.risk.status == f.status)
    && (stage >= 4 && f.matrix.Some? ==> CellOf(r.risk) == f.matrix.value)
    && (stage >= 5 && f.search != "" ==> RiskRegister.MatchesSearch(r.risk, f.search))
  }

  function Stage(f: SectionFilters, stage: nat): RiskWithPlans -> bool
  {
    (r: RiskWithPlans) => PassesUpTo(f, stage, r)
  }

  predicate Keeps(f: SectionFilters, r: RiskWithPlans)
  {
    PassesUpTo(f, 5, r)
  }

  predicate Active(f: SectionFilters, stage: nat)
  {
    match stage
    case 1 => f.rating != "all"
    case 2 => f.category != ""
    case 3 => f.status != ""
    case 4 => f.matrix.Some?
    case _ => f.search != ""
  }

  function Test(f: SectionFilters, stage: nat): RiskWithPlans -> bool
  {
    match stage
    case 1 => RiskRegister.WithRating(f.rating)
    case 2 => RiskRegister.WithCategory(f.category)
    case 3 => RiskRegister.WithStatus(f.status)
    case 4 => RiskRegister.AtCell(f.matrix.GetOr((0, 0)))
    case _ => RiskRegister.Searched(f.search)
  }

  lemma StageStep(s: seq<RiskWithPlans>, f: SectionFilters, stage: nat)
    requires 1 <= stage <= 5
    ensures Filter(s, Stage(f, stage))
      == if Active(f, stage) then Filter(Filter(s, Stage(f, stage - 1)), Test(f, stage)) else Filter(s, Stage(f, stage - 1))
  {
    if Active(f, stage) {
      forall x
        ensures Stage(f, stage)(x) == (Stage(f, stage - 1)(x) && Test(f, stage)(x))
      {
      }
      FilterFusion(s, Stage(f, stage - 1), Test(f, stage), Stage(f, stage));
    } else {
      forall x
        ensures Stage(f, stage)(x) == Stage(f, stage - 1)(x)
      {
      }
      FilterCongruent(s, Stage(f, stage - 1), Stage(f, stage));
    }
  }

  /** `filteredRisks`: each active control filters a copy of the risks in turn. */
  method FilteredRisks(risks: seq<RiskWithPlans>, f: SectionFilters) returns (result: seq<RiskWithPlans>)
    ensures result == Filter(risks, Stage(f, 5))
    ensures forall x :: x in result <==> x in risks && Keeps(f, x)
  {
    result := risks;
    FilterAll(risks, Stage(f, 0));
    result := Narrow(result, risks, f, 1);
    result := Narrow(result, risks, f, 2);
    result := Narrow(result, risks, f, 3);
    result := Narrow(result, risks, f, 4);
    result := Narrow(result, risks, f, 5);
    KeptMeaning(risks, f);
  }

  /** `if (active) result = result.filter(test)` for stage `stage`. */
  method Narrow(result: seq<RiskWithPlans>, ghost risks: seq<RiskWithPlans>, f: SectionFilters, stage: nat)
      returns (r: seq<RiskWithPlans>)
    requires 1 <= stage <= 5 && result == Filter(risks, Stage(f, stage - 1))
    ensures r == Filter(risks, Stage(f, stage))
  {
    StageStep(risks, f, stage);
    if Active(f, stage) {
      r := Filter(result, Test(f, stage));
    } else {
      r := result;
    }
  }

  lemma KeptMeaning(risks: seq<RiskWithPlans>, f: SectionFilters)
    ensures forall x :: x in Filter(risks, Stage(f, 5)) <==> x in risks && Keeps(f, x)
  {
    forall x | x in risks && Keeps(f, x)
      ensures x in Filter(risks, Stage(f, 5))
    {
      var i :| 0 <= i < |risks| && risks[i] == x;
    }
  }

  /** Rating `'all'`, empty strings and no selected cell restrict nothing. */
  lemma ResetFiltersKeepAll(risks: seq<RiskWithPlans>)
    ensures Filter(risks, Stage(ClearAllFilters(), 5)) == risks
  {
    FilterAll(risks, Stage(ClearAllFilters(), 5));
  }

  // ---------------------------------------------------------------- sorting

  function ScoreKey(r: RiskWithPlans): SortKey { Number(r.risk.riskScore) }

  /** `sortedRisks`: `[...filteredRisks].sort((a, b) => b.risk_score - a.risk_score)`. */
  function SortedRisks(filtered: seq<RiskWithPlans>): (r: seq<RiskWithPlans>)
    ensures multiset(r) == multiset(filtered)
    ensures forall i, j :: 0 <= i < j < |r| ==> r[j].risk.riskScore <= r[i].risk.riskScore
    ensures forall k :: Filter(r, Is(ScoreKey, k)) == Filter(filtered, Is(ScoreKey, k))
  {
    var r := SortBy(filtered, ScoreKey, true);
    SortBySorted(filtered, ScoreKey, true);
    assert forall i, j :: 0 <= i < j < |r| ==> Precedes(ScoreKey, true, r[i], r[j]);
    forall k
      ensures Filter(r, Is(ScoreKey, k)) == Filter(filtered, Is(ScoreKey, k))
    {
      SortByStable(filtered, ScoreKey, true, k);
    }
    r
  }

  lemma SortedRisksExample()
    ensures var a := RiskWithPlans(Risk("R1", "", "", "", 2, 3, 6, "Medium", "Stable", "Open"), None, None);
            var b := RiskWithPlans(Risk("R2", "", "", "", 4, 4, 16, "Extreme", "Stable", "Open"), None, None);
            var c := RiskWithPlans(Risk("R3", "", "", "", 3, 2, 6, "Medium", "Stable", "Open"), None, None);
            SortedRisks([a, b, c]) == [b, a, c]
  {
    var a := RiskWithPlans(Risk("R1", "", "", "", 2, 3, 6, "Medium", "Stable", "Open"), None, None);
    var b := RiskWithPlans(Risk("R2", "", "", "", 4, 4, 16, "Extreme", "Stable", "Open"), None, None);
    var c := RiskWithPlans(Risk("R3", "", "", "", 3, 2, 6, "Medium", "Stable", "Open"), None, None);
    SortThreeByScore(a, b, c);
  }

  /** The higher score moves to the front; equal scores keep their order. */
  lemma SortThreeByScore(a: RiskWithPlans, b: RiskWithPlans, c: RiskWithPlans)
    requires c.risk.riskScore == a.risk.riskScore < b.risk.riskScore
    ensures SortedRisks([a, b, c]) == [b, a, c]
  {
    assert Precedes(ScoreKey, true, b, c);
    assert !Precedes(ScoreKey, true, a, b);
    assert Precedes(ScoreKey, true, a, c);
    SortThree(a, b, c, ScoreKey, true);
  }

  // ---------------------------------------------------------------- transitions

  function ClearAllFilters(): SectionFilters { SectionFilters("all", "", "", "", None) }

  predicate HasActiveFilters(f: SectionFilters)
  {
    f.rating != "all" || f.category != "" || f.status != "" || f.search != "" || f.matrix.Some?
  }

  lemma ClearedHasNoActiveFilters()
    ensures !HasActiveFilters(ClearAllFilters())
  {
  }

  /** `handleMatrixCellClick`: the selected cell toggles off, any other becomes selected; unlike
      the register page there is no (0, 0) case. */
  function HandleMatrixCellClick(selected: Option<(int, int)>, likelihood: int, impact: int): (r: Option<(int, int)>)
    ensures r == None <==> selected == Some((likelihood, impact))
    ensures r != None ==> r == Some((likelihood, impact))
  {
    if selected.Some? && selected.value == (likelihood, impact) then None else Some((likelihood, impact))
  }

  lemma CellClickTwice(likelihood: int, impact: int)
    ensures HandleMatrixCellClick(HandleMatrixCellClick(None, likelihood, impact), likelihood, impact) == None
  {
  }

  /** The two pages differ on the origin: the register clears, the section selects (0, 0). */
  lemma OriginClickDiverges()
    ensures RiskRegister.HandleMatrixCellClick(None, 0, 0) == None
    ensures HandleMatrixCellClick(None, 0, 0) == Some((0, 0))
  {
  }

  // ---------------------------------------------------------------- mini matrix

  /** The mini matrix draws `cells[row][col]` at likelihood `5 - row` and impact `col + 1`. */
  function GridCell(row: int, col: int): (int, int) { (5 - row, col + 1) }

  /** The grid coordinates invert the hook's `cells[5 - likelihood][impact - 1]`. */
  lemma GridInvertsMatrix(row: int, col: int, likelihood: int, impact: int)
    ensures GridCell(row, col) == (likelihood, impact) <==> (row == 5 - likelihood && col == impact - 1)
    ensures 0 <= row < 5 && 0 <= col < 5 ==> 1 <= GridCell(row, col).0 <= 5 && 1 <= GridCell(row, col).1 <= 5
  {
  }

  // ---------------------------------------------------------------- the two pipelines

  /** The register page's filters that mean the same as the section's: `'all'` becomes `''`. */
  function AsRegisterFilters(f: SectionFilters): RiskRegister.Filters
  {
    RiskRegister.Filters(f.category, if f.rating == "all" then "" else f.rating, f.status, f.search, f.matrix)
  }

  /** With no cell selected, or one with positive coordinates, the two pages keep the same risks. */
  lemma PipelinesAgree(f: SectionFilters, r: RiskWithPlans)
    requires f.rating != ""
    requires f.matrix.Some? ==> f.matrix.value.0 > 0 && f.matrix.value.1 > 0
    ensures Keeps(f, r) == RiskRegister.Keeps(AsRegisterFilters(f), r)
  {
  }

  /** With a cell such as (0, 3) selected, the register ignores it and the section keeps only
      risks at that impossible cell. */
  lemma ZeroCellDiverges(r: RiskWithPlans)
    requires InGrid(r.risk)
    ensures var f := SectionFilters("all", "", "", "", Some((0, 3)));
            !Keeps(f, r) && RiskRegister.Keeps(AsRegisterFilters(f), r)
  {
  }
}
