/** The report uploader (src/components/SmartUploader.tsx): the figures extracted from a report,
    the check for an empty extraction, the user's edits to the extracted lists, the count of
    corrected indicator values, and the commit report shown after saving. */
module Uploader {
  import opened Wrappers
  import JsonStore
  import SpentUpdate

  datatype IndicatorUpdate = IndicatorUpdate(id: string, value: real, narrative: string)

  datatype ActivityUpdate = ActivityUpdate(id: string, status: string, progress: real, notes: string)

  datatype BudgetUpdate = BudgetUpdate(activityId: string, amount: real, year: real, category: string, description: string)

  /** What the analysis endpoint returns: the report's date and source and the three lists;
      the budget list may be missing. */
  datatype PreviewData = PreviewData(date: string, source: string, indicators: seq<IndicatorUpdate>,
                                     activities: seq<ActivityUpdate>, budgets: Option<seq<BudgetUpdate>>)

  function BudgetsOf(p: PreviewData): seq<BudgetUpdate> { p.budgets.GetOr([]) }

  /** The result of analysing a report: either an empty extraction, or the preview to edit
      together with the untouched copy kept to detect corrections. */
  datatype Analysis = EmptyExtraction | Extracted(preview: PreviewData, original: PreviewData)

  /** `handleAnalyze` after the response: the budget list defaults to `[]`, and the extraction
      is empty when all three lists are. */
  function Analyze(data: PreviewData): (r: Analysis)
    ensures r == EmptyExtraction <==> |data.indicators| == 0 && |data.activities| == 0 && |BudgetsOf(data)| == 0
    ensures r.Extracted? ==> r.preview == r.original && r.preview.budgets == Some(BudgetsOf(data)) &&
                             r.preview == data.(budgets := r.preview.budgets)
  {
    var data := data.(budgets := Some(BudgetsOf(data)));
    var hasIndicators := |data.indicators| > 0;
    var hasActivities := |data.activities| > 0;
    var hasBudgets := |BudgetsOf(data)| > 0;
    if !hasIndicators && !hasActivities && !hasBudgets then EmptyExtraction
    else Extracted(data, data)
  }

  /** The indices whose value the user changed. An index beyond the copy has nothing to compare
      with; its callback throws, `Promise.allSettled` absorbs the rejection, and it is not
      counted. */
  predicate Corrected(current: seq<IndicatorUpdate>, original: seq<IndicatorUpdate>, i: int)
  {
    0 <= i < |current| && i < |original| && current[i].value != original[i].value
  }

  /** The number of corrected indices among the first `n`. */
  function CorrectionsAmong(current: seq<IndicatorUpdate>, original: seq<IndicatorUpdate>, n: nat): (c: nat)
    requires n <= |current|
    ensures c <= n
  {
    if n == 0 then 0
    else CorrectionsAmong(current, original, n - 1) + (if Corrected(current, original, n - 1) then 1 else 0)
  }

  function Corrections(current: seq<IndicatorUpdate>, original: seq<IndicatorUpdate>): nat
  {
    CorrectionsAmong(current, original, |current|)
  }

  /** The callback of `indicator_updates.map` that increments `correctionsCount`. */
  method CountCorrections(current: seq<IndicatorUpdate>, original: seq<IndicatorUpdate>) returns (correctionsCount: nat)
    ensures correctionsCount == Corrections(current, original)
  {
    correctionsCount := 0;
    for idx := 0 to |current|
      invariant correctionsCount == CorrectionsAmong(current, original, idx)
    {
      if idx < |original| {
        var curr := current[idx];
        var orig := original[idx];
        if curr.value != orig.value {
          correctionsCount := correctionsCount + 1;
        }
      }
    }
  }

  /** No corrected index among the first `n` means a count of 0, and conversely. */
  lemma {:induction false} NoCorrections(current: seq<IndicatorUpdate>, original: seq<IndicatorUpdate>, n: nat)
    requires n <= |current|
    ensures CorrectionsAmong(current, original, n) == 0 <==> forall i :: 0 <= i < n ==> !Corrected(current, original, i)
  {
    if n > 0 {
      NoCorrections(current, original, n - 1);
    }
  }

  /** An unedited preview has no corrections. */
  lemma UneditedHasNoCorrections(indicators: seq<IndicatorUpdate>)
    ensures Corrections(indicators, indicators) == 0
  {
    NoCorrections(indicators, indicators, |indicators|);
  }

  /** Every index counts once at most: the count is at most the number of indicators, and it is
      the number of indicators exactly when every value was changed. */
  lemma {:induction false} AllCorrected(current: seq<IndicatorUpdate>, original: seq<IndicatorUpdate>, n: nat)
    requires n <= |current|
    ensures CorrectionsAmong(current, original, n) == n <==> forall i :: 0 <= i < n ==> Corrected(current, original, i)
  {
    if n > 0 {
      AllCorrected(current, original, n - 1);
    }
  }

  /** Changing one indicator's value changes the count by at most one: up when it now differs
      from the copy and did not before, down when it is set back. */
  lemma {:induction false} OneEditCounts(current: seq<IndicatorUpdate>, original: seq<IndicatorUpdate>, n: nat, k: int, v: real)
    requires n <= |current| && 0 <= k < |current|
    ensures var edited := current[k := current[k].(value := v)];
            var before := CorrectionsAmong(current, original, n);
            var after := CorrectionsAmong(edited, original, n);
            (k >= n ==> after == before) &&
            (k < n ==> after == before
                         - (if Corrected(current, original, k) then 1 else 0)
                         + (if Corrected(edited, original, k) then 1 else 0))
  {
    if n > 0 {
      OneEditCounts(current, original, n - 1, k, v);
    }
  }

  /** `filesModified`, pushed in this order. */
  function FilesModified(p: PreviewData): (files: seq<string>)
    ensures "performance_actuals.json" in files <==> |p.indicators| > 0
    ensures "narratives.json" in files <==> |p.indicators| > 0
    ensures "activities.json" in files <==> |p.activities| > 0
    ensures "budget_spent.json" in files <==> |BudgetsOf(p)| > 0
    ensures forall i, j :: 0 <= i < j < |files| ==> files[i] != files[j]
  {
    var files := [];
    var files := if |p.indicators| > 0 then files + ["performance_actuals.json", "narratives.json"] else files;
    var files := if |p.activities| > 0 then files + ["activities.json"] else files;
    if p.budgets.Some? && |p.budgets.value| > 0 then files + ["budget_spent.json"] else files
  }

  /** The pre-commit summary's "Files affected": four candidates, the false ones dropped. */
  function FilesAffected(p: PreviewData): seq<string>
  {
    var candidates := [
      (|p.indicators| > 0, "performance_actuals.json"),
      (|p.indicators| > 0, "narratives.json"),
      (|p.activities| > 0, "activities.json"),
      (p.budgets.Some? && |p.budgets.value| > 0, "budget_spent.json")];
    KeepTrue(candidates)
  }

  /** `filter(Boolean)` on `cond && name` entries. */
  function KeepTrue(s: seq<(bool, string)>): (r: seq<string>)
    ensures |r| <= |s|
  {
    if s == [] then [] else (if s[0].0 then [s[0].1] else []) + KeepTrue(s[1..])
  }

  /** The summary shown before saving names the files the report names afterwards, in order. */
  lemma FilesAffectedAreModified(p: PreviewData)
    ensures FilesAffected(p) == FilesModified(p)
  {
    var hasInd := |p.indicators| > 0;
    var hasAct := |p.activities| > 0;
    var hasBud := p.budgets.Some? && |p.budgets.value| > 0;
    var c := [(hasInd, "performance_actuals.json"), (hasInd, "narratives.json"),
              (hasAct, "activities.json"), (hasBud, "budget_spent.json")];
    KeepTrueOfFour(c);
    FilesModifiedInPieces(p);
    var x: seq<string> := if hasInd then ["performance_actuals.json"] else [];
    var y: seq<string> := if hasInd then ["narratives.json"] else [];
    assert x + y == if hasInd then ["performance_actuals.json", "narratives.json"] else [];
  }

  lemma KeepTrueOfFour(c: seq<(bool, string)>)
    requires |c| == 4
    ensures KeepTrue(c) == (if c[0].0 then [c[0].1] else []) + (if c[1].0 then [c[1].1] else [])
                           + (if c[2].0 then [c[2].1] else []) + (if c[3].0 then [c[3].1] else [])
  {
    var p0, p1 := (if c[0].0 then [c[0].1] else []), (if c[1].0 then [c[1].1] else []);
    var p2, p3 := (if c[2].0 then [c[2].1] else []), (if c[3].0 then [c[3].1] else []);
    assert c[3..][1..] == [];
    assert KeepTrue(c[3..]) == p3;
    assert c[2..][1..] == c[3..];
    assert KeepTrue(c[2..]) == p2 + p3;
    assert c[1..][1..] == c[2..];
    assert KeepTrue(c[1..]) == p1 + (p2 + p3);
    assert KeepTrue(c) == p0 + (p1 + (p2 + p3));
  }

  /** The pushes of the report's file list, as three concatenated pieces. */
  lemma FilesModifiedInPieces(p: PreviewData)
    ensures FilesModified(p) == (if |p.indicators| > 0 then ["performance_actuals.json", "narratives.json"] else [])
                                + (if |p.activities| > 0 then ["activities.json"] else [])
                                + (if p.budgets.Some? && |p.budgets.value| > 0 then ["budget_spent.json"] else [])
  {
    var x: seq<string> := if |p.indicators| > 0 then ["performance_actuals.json", "narratives.json"] else [];
    assert [] + x == x;
  }

  /** The files the report names are the files the backend writes on success, in the order it
      writes them, except that budget_spent.json is named whenever there are budget updates, also
      when the backend skips it (no file) or fails on it (no `expenditure_summary`). */
  lemma FilesModifiedAreWritten(p: PreviewData, spentFile: Option<SpentUpdate.SpentDoc>)
    ensures var written := JsonStore.CommittedFiles(|p.indicators|, |p.activities|, |BudgetsOf(p)|, spentFile);
            var unwritten := |BudgetsOf(p)| > 0 && !(spentFile.Some? && spentFile.value.summary.Some?);
            FilesModified(p) == written + (if unwritten then ["budget_spent.json"] else [])
  {
    FilesModifiedInPieces(p);
  }

  /** The report label: the narrative when it has at most 50 characters, otherwise its first 50
      followed by "...". */
  function Label(narrative: string): (text: string)
    ensures |narrative| <= 50 ==> text == narrative
    ensures |narrative| > 50 ==> |text| == 53 && text[..50] == narrative[..50] && text[50..] == "..."
  {
    var end := if |narrative| < 50 then |narrative| else 50;
    narrative[..end] + (if |narrative| > 50 then "..." else "")
  }

  /** A label never has more than 53 characters and always starts the narrative's way. */
  lemma LabelIsPrefix(narrative: string)
    ensures |Label(narrative)| <= 53
    ensures var n := if |narrative| < 50 then |narrative| else 50;
            Label(narrative)[..n] == narrative[..n]
  {
  }

  datatype ReportIndicator = ReportIndicator(id: string, value: real, caption: string)

  datatype ReportActivity = ReportActivity(id: string, status: string, progress: real)

  datatype ReportBudget = ReportBudget(activityId: string, amount: real, description: string)

  datatype CommitReport = CommitReport(indicators: seq<ReportIndicator>, activities: seq<ReportActivity>,
                                       budgets: seq<ReportBudget>, filesModified: seq<string>,
                                       correctionsLearned: nat)

  /** The commit report built once the save succeeded. */
  function CommitReportOf(preview: PreviewData, correctionsLearned: nat): (r: CommitReport)
    ensures |r.indicators| == |preview.indicators| && |r.activities| == |preview.activities| &&
            |r.budgets| == |BudgetsOf(preview)|
    ensures forall i :: 0 <= i < |r.indicators| ==>
              r.indicators[i].id == preview.indicators[i].id && r.indicators[i].value == preview.indicators[i].value &&
              r.indicators[i].caption == Label(preview.indicators[i].narrative)
    ensures forall i :: 0 <= i < |r.activities| ==>
              r.activities[i] == ReportActivity(preview.activities[i].id, preview.activities[i].status, preview.activities[i].progress)
    ensures forall i :: 0 <= i < |r.budgets| ==>
              r.budgets[i] == ReportBudget(BudgetsOf(preview)[i].activityId, BudgetsOf(preview)[i].amount, BudgetsOf(preview)[i].description)
    ensures r.filesModified == FilesModified(preview) && r.correctionsLearned == correctionsLearned
  {
    var inds := preview.indicators;
    var acts := preview.activities;
    var buds := BudgetsOf(preview);
    CommitReport(
      seq(|inds|, i requires 0 <= i < |inds| => ReportIndicator(inds[i].id, inds[i].value, Label(inds[i].narrative))),
      seq(|acts|, i requires 0 <= i < |acts| => ReportActivity(acts[i].id, acts[i].status, acts[i].progress)),
      seq(|buds|, i requires 0 <= i < |buds| => ReportBudget(buds[i].activityId, buds[i].amount, buds[i].description)),
      FilesModified(preview), correctionsLearned)
  }

  /** The uploader's state. */
  datatype UploaderState = UploaderState(file: Option<string>, preview: Option<PreviewData>,
                                         original: Option<PreviewData>, loading: bool,
                                         emptyExtraction: bool, report: Option<CommitReport>)

  /** `handleCommit`, given whether the save request succeeded: on success the report is shown
      and the preview, the copy and the file are cleared; on failure only loading ends. */
  method HandleCommit(s: UploaderState, saveOk: bool) returns (t: UploaderState)
    ensures s.preview.None? || s.original.None? ==> t == s
    ensures s.preview.Some? && s.original.Some? && !saveOk ==> t == s.(loading := false)
    ensures s.preview.Some? && s.original.Some? && saveOk ==>
              t == s.(report := Some(CommitReportOf(s.preview.value, Corrections(s.preview.value.indicators, s.original.value.indicators))),
                      preview := None, original := None, file := None, loading := false)
  {
    if s.preview.None? || s.original.None? {
      return s;
    }
    var preview := s.preview.value;
    var originalData := s.original.value;
    var correctionsCount := CountCorrections(preview.indicators, originalData.indicators);
    if !saveOk {
      return s.(loading := false);
    }
    var report := CommitReportOf(preview, correctionsCount);
    t := s.(report := Some(report), preview := None, original := None, file := None, loading := false);
  }

  /** One field edit from the preview tables: the list and the field it changes, and the value. */
  datatype Edit =
    | IndicatorValue(value: real) | IndicatorNarrative(narrative: string)
    | ActivityStatus(status: string) | ActivityProgress(progress: real) | ActivityNotes(notes: string)
    | BudgetAmount(amount: real) | BudgetYear(year: real) | BudgetCategory(category: string)
    | BudgetDescription(description: string)

  predicate OnIndicators(e: Edit) { e.IndicatorValue? || e.IndicatorNarrative? }

  predicate OnActivities(e: Edit) { e.ActivityStatus? || e.ActivityProgress? || e.ActivityNotes? }

  predicate OnBudgets(e: Edit) { !OnIndicators(e) && !OnActivities(e) }

  /** The length of the list an edit targets. */
  function ListLength(p: PreviewData, e: Edit): nat
  {
    if OnIndicators(e) then |p.indicators| else if OnActivities(e) then |p.activities| else |BudgetsOf(p)|
  }

  function EditIndicator(x: IndicatorUpdate, e: Edit): IndicatorUpdate
  {
    match e
    case IndicatorValue(v) => x.(value := v)
    case IndicatorNarrative(n) => x.(narrative := n)
    case _ => x
  }

  function EditActivity(x: ActivityUpdate, e: Edit): ActivityUpdate
  {
    match e
    case ActivityStatus(v) => x.(status := v)
    case ActivityProgress(v) => x.(progress := v)
    case ActivityNotes(v) => x.(notes := v)
    case _ => x
  }

  function EditBudget(x: BudgetUpdate, e: Edit): BudgetUpdate
  {
    match e
    case BudgetAmount(v) => x.(amount := v)
    case BudgetYear(v) => x.(year := v)
    case BudgetCategory(v) => x.(category := v)
    case BudgetDescription(v) => x.(description := v)
    case _ => x
  }

  /** `updateItem`: a copy of the list with the item at `index` replaced by a copy with one
      field set. With no preview nothing happens. */
  function UpdateItem(preview: Option<PreviewData>, index: int, e: Edit): (r: Option<PreviewData>)
    requires preview.Some? ==> 0 <= index < ListLength(preview.value, e)
    ensures preview.None? <==> r.None?
    ensures preview.Some? ==> r.value.date == preview.value.date && r.value.source == preview.value.source
    ensures preview.Some? && OnIndicators(e) ==>
              r.value.activities == preview.value.activities && r.value.budgets == preview.value.budgets &&
              |r.value.indicators| == |preview.value.indicators| &&
              (forall j :: 0 <= j < |r.value.indicators| && j != index ==> r.value.indicators[j] == preview.value.indicators[j]) &&
              r.value.indicators[index].id == preview.value.indicators[index].id
    ensures preview.Some? && OnActivities(e) ==>
              r.value.indicators == preview.value.indicators && r.value.budgets == preview.value.budgets &&
              |r.value.activities| == |preview.value.activities| &&
              (forall j :: 0 <= j < |r.value.activities| && j != index ==> r.value.activities[j] == preview.value.activities[j]) &&
              r.value.activities[index].id == preview.value.activities[index].id
    ensures preview.Some? && OnBudgets(e) ==>
              r.value.indicators == preview.value.indicators && r.value.activities == preview.value.activities &&
              r.value.budgets.Some? && |r.value.budgets.value| == |BudgetsOf(preview.value)| &&
              (forall j :: 0 <= j < |r.value.budgets.value| && j != index ==> r.value.budgets.value[j] == BudgetsOf(preview.value)[j]) &&
              r.value.budgets.value[index].activityId == BudgetsOf(preview.value)[index].activityId
  {
    if preview.None? then None
    else
      var p := preview.value;
      if OnIndicators(e) then
        var newList := p.indicators;
        Some(p.(indicators := newList[index := EditIndicator(newList[index], e)]))
      else if OnActivities(e) then
        var newList := p.activities;
        Some(p.(activities := newList[index := EditActivity(newList[index], e)]))
      else
        var newList := BudgetsOf(p);
        Some(p.(budgets := Some(newList[index := EditBudget(newList[index], e)])))
  }

  /** An edit changes its field and no other: the edited item differs from the old one only
      there. */
  lemma EditChangesOneField(p: PreviewData, index: int, e: Edit)
    requires 0 <= index < ListLength(p, e)
    ensures var r := UpdateItem(Some(p), index, e).value;
            match e
            case IndicatorValue(v) => r.indicators[index] == p.indicators[index].(value := v)
            case IndicatorNarrative(n) => r.indicators[index] == p.indicators[index].(narrative := n)
            case ActivityStatus(v) => r.activities[index] == p.activities[index].(status := v)
            case ActivityProgress(v) => r.activities[index] == p.activities[index].(progress := v)
            case ActivityNotes(v) => r.activities[index] == p.activities[index].(notes := v)
            case BudgetAmount(v) => r.budgets.value[index] == BudgetsOf(p)[index].(amount := v)
            case BudgetYear(v) => r.budgets.value[index] == BudgetsOf(p)[index].(year := v)
            case BudgetCategory(v) => r.budgets.value[index] == BudgetsOf(p)[index].(category := v)
            case BudgetDescription(v) => r.budgets.value[index] == BudgetsOf(p)[index].(description := v)
  {
  }

  /** Editing a value back to what the analysis gave removes its correction. */
  lemma RevertedEditNotCounted(p: PreviewData, original: PreviewData, index: int)
    requires 0 <= index < |p.indicators| && index < |original.indicators|
    ensures var r := UpdateItem(Some(p), index, IndicatorValue(original.indicators[index].value)).value;
            !Corrected(r.indicators, original.indicators, index)
  {
  }

  /** `Array.prototype.splice(start, 1)`'s start: a negative index counts from the end. */
  function SpliceStart(len: nat, index: int): (start: nat)
    ensures start <= len
  {
    if index < 0 then (if len + index < 0 then 0 else len + index)
    else if index > len then len
    else index
  }

  /** `removeBudgetItem`: a copy of the budget list without the item at `index`. */
  function RemoveBudgetItem(preview: Option<PreviewData>, index: int): (r: Option<PreviewData>)
    ensures preview.None? <==> r.None?
    ensures preview.Some? ==>
              var before := BudgetsOf(preview.value);
              r.value == preview.value.(budgets := r.value.budgets) && r.value.budgets.Some? &&
              (0 <= index < |before| ==>
                 |r.value.budgets.value| == |before| - 1 &&
                 (forall j :: 0 <= j < index ==> r.value.budgets.value[j] == before[j]) &&
                 (forall j :: index <= j < |before| - 1 ==> r.value.budgets.value[j] == before[j + 1])) &&
              (index >= |before| ==> r.value.budgets.value == before)
  {
    if preview.None? then None
    else
      var p := preview.value;
      var newList := BudgetsOf(p);
      var start := SpliceStart(|newList|, index);
      var newList := if start < |newList| then newList[..start] + newList[start + 1..] else newList;
      Some(p.(budgets := Some(newList)))
  }

  /** Removing an item keeps every other item, in order: the removed one is the only loss. */
  lemma RemovePermutes(p: PreviewData, index: int)
    requires 0 <= index < |BudgetsOf(p)|
    ensures multiset(RemoveBudgetItem(Some(p), index).value.budgets.value) + multiset{BudgetsOf(p)[index]}
            == multiset(BudgetsOf(p))
  {
    var before := BudgetsOf(p);
    assert before == before[..index] + [before[index]] + before[index + 1..];
  }
}
