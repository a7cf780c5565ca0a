/** The dashboard copy of the report uploader (src/components/dashboard/SmartUploaderSection.tsx).
    Its data, empty-extraction check and correction count are those of the uploader page; it
    names the modified files differently, always appends "..." to a label, keeps the original
    copy after a commit, and edits an indicator's value in place from the typed text. */
module UploaderSection {
  import opened Wrappers
  import opened Numeric
  import opened Uploader

  /** The names this copy gives the modified files, pushed in the same order. */
  function SectionFiles(p: PreviewData): (files: seq<string>)
    ensures "performance_actuals" in files <==> |p.indicators| > 0
    ensures "narratives" in files <==> |p.indicators| > 0
    ensures "activities" in files <==> |p.activities| > 0
    ensures "expenditures" in files <==> |BudgetsOf(p)| > 0
  {
    var files := [];
    var files := if |p.indicators| > 0 then files + ["performance_actuals", "narratives"] else files;
    var files := if |p.activities| > 0 then files + ["activities"] else files;
    if p.budgets.Some? && |p.budgets.value| > 0 then files + ["expenditures"] else files
  }

  /** The page's file name for each of this copy's names. */
  function PageName(name: string): string
  {
    if name == "performance_actuals" then "performance_actuals.json"
    else if name == "narratives" then "narratives.json"
    else if name == "activities" then "activities.json"
    else "budget_spent.json"
  }

  /** Both copies list the same files in the same order, under their own names. */
  lemma FilesCopiesAgree(p: PreviewData)
    ensures |SectionFiles(p)| == |FilesModified(p)|
    ensures forall i :: 0 <= i < |SectionFiles(p)| ==> PageName(SectionFiles(p)[i]) == FilesModified(p)[i]
  {
    var a, b, c := |p.indicators| > 0, |p.activities| > 0, p.budgets.Some? && |p.budgets.value| > 0;
    SectionFilesInPieces(p);
    FilesModifiedInPieces(p);
    assert FilesModified(p) == PagePieces(a, b, c);
    PiecesRenamed(a, b, c);
  }

  /** The names of this copy, as the three conditional pieces it pushes. */
  function SectionPieces(a: bool, b: bool, c: bool): seq<string>
  {
    (if a then ["performance_actuals", "narratives"] else []) + (if b then ["activities"] else [])
    + (if c then ["expenditures"] else [])
  }

  /** The names of the page, as the same three pieces. */
  function PagePieces(a: bool, b: bool, c: bool): seq<string>
  {
    (if a then ["performance_actuals.json", "narratives.json"] else []) + (if b then ["activities.json"] else [])
    + (if c then ["budget_spent.json"] else [])
  }

  lemma SectionFilesInPieces(p: PreviewData)
    ensures SectionFiles(p) == SectionPieces(|p.indicators| > 0, |p.activities| > 0, p.budgets.Some? && |p.budgets.value| > 0)
  {
    var s1: seq<string> := if |p.indicators| > 0 then ["performance_actuals", "narratives"] else [];
    assert [] + s1 == s1;
  }

  lemma PiecesRenamed(a: bool, b: bool, c: bool)
    ensures |SectionPieces(a, b, c)| == |PagePieces(a, b, c)|
    ensures forall i :: 0 <= i < |SectionPieces(a, b, c)| ==> PageName(SectionPieces(a, b, c)[i]) == PagePieces(a, b, c)[i]
  {
    var s1: seq<string> := if a then ["performance_actuals", "narratives"] else [];
    var s2: seq<string> := if b then ["activities"] else [];
    var s3: seq<string> := if c then ["expenditures"] else [];
    var f1: seq<string> := if a then ["performance_actuals.json", "narratives.json"] else [];
    var f2: seq<string> := if b then ["activities.json"] else [];
    var f3: seq<string> := if c then ["budget_spent.json"] else [];
    PageNames();
    RenamedPieces(s1, s2, f1, f2);
    RenamedPieces(s1 + s2, s3, f1 + f2, f3);
  }

  lemma PageNames()
    ensures PageName("performance_actuals") == "performance_actuals.json"
    ensures PageName("narratives") == "narratives.json"
    ensures PageName("activities") == "activities.json"
    ensures PageName("expenditures") == "budget_spent.json"
  {
    assert "narratives"[0] != "performance_actuals"[0];
    assert "activities"[0] != "performance_actuals"[0] && "activities"[0] != "narratives"[0];
    assert "expenditures"[0] != "performance_actuals"[0] && "expenditures"[0] != "narratives"[0];
    assert "expenditures"[0] != "activities"[0];
  }

  /** Renaming two lists element by element renames their concatenation. */
  lemma RenamedPieces(s: seq<string>, t: seq<string>, f: seq<string>, g: seq<string>)
    requires |s| == |f| && forall i :: 0 <= i < |s| ==> PageName(s[i]) == f[i]
    requires |t| == |g| && forall i :: 0 <= i < |t| ==> PageName(t[i]) == g[i]
    ensures |s + t| == |f + g| && forall i :: 0 <= i < |s + t| ==> PageName((s + t)[i]) == (f + g)[i]
  {
    forall i | 0 <= i < |s + t|
      ensures PageName((s + t)[i]) == (f + g)[i]
    {
      if i >= |s| {
        assert (s + t)[i] == t[i - |s|] && (f + g)[i] == g[i - |s|];
      }
    }
  }

  /** This copy's label: at most the first 50 characters, always followed by "...". */
  function SectionLabel(narrative: string): (text: string)
    ensures |text| == (if |narrative| < 50 then |narrative| else 50) + 3
    ensures text[|text| - 3..] == "..."
    ensures |narrative| <= 50 ==> text[..|narrative|] == narrative
    ensures |narrative| > 50 ==> text[..50] == narrative[..50]
  {
    var end := if |narrative| < 50 then |narrative| else 50;
    narrative[..end] + "..."
  }

  /** The two copies label a narrative alike exactly when it is longer than 50 characters. */
  lemma LabelCopiesCompared(narrative: string)
    ensures SectionLabel(narrative) == Label(narrative) <==> |narrative| > 50
  {
    if |narrative| <= 50 {
      assert |SectionLabel(narrative)| != |Label(narrative)|;
    }
  }

  /** The dashboard uploader's state; `expanded` is its collapsible panel. */
  datatype SectionState = SectionState(file: Option<string>, preview: Option<PreviewData>,
                                       original: Option<PreviewData>, loading: bool,
                                       emptyExtraction: bool, report: Option<CommitReport>,
                                       expanded: bool)

  /** The commit report of this copy: the page's report with this copy's labels and names. */
  function SectionReportOf(preview: PreviewData, correctionsLearned: nat): (r: CommitReport)
    ensures |r.indicators| == |preview.indicators|
    ensures forall i :: 0 <= i < |r.indicators| ==>
              r.indicators[i].id == preview.indicators[i].id && r.indicators[i].value == preview.indicators[i].value &&
              r.indicators[i].caption == SectionLabel(preview.indicators[i].narrative)
    ensures r.activities == CommitReportOf(preview, correctionsLearned).activities
    ensures r.budgets == CommitReportOf(preview, correctionsLearned).budgets
    ensures r.filesModified == SectionFiles(preview) && r.correctionsLearned == correctionsLearned
  {
    var inds := preview.indicators;
    var page := CommitReportOf(preview, correctionsLearned);
    page.(indicators := seq(|inds|, i requires 0 <= i < |inds| => ReportIndicator(inds[i].id, inds[i].value, SectionLabel(inds[i].narrative))),
          filesModified := SectionFiles(preview))
  }

  /** `handleCommit`: on success the report is shown and the preview and the file are cleared,
      but the original copy is kept; on failure only loading ends. */
  method HandleCommit(s: SectionState, saveOk: bool) returns (t: SectionState)
    ensures s.preview.None? || s.original.None? ==> t == s
    ensures s.preview.Some? && s.original.Some? && !saveOk ==> t == s.(loading := false)
    ensures s.preview.Some? && s.original.Some? && saveOk ==>
              t == s.(report := Some(SectionReportOf(s.preview.value, Corrections(s.preview.value.indicators, s.original.value.indicators))),
                      preview := None, file := None, loading := false)
  {
    if s.preview.None? || s.original.None? {
      return s;
    }
    var preview := s.preview.value;
    var originalData := s.original.value;
    var correctionsCount := CountCorrections(preview.indicators, originalData.indicators);
    if !saveOk {
      return s.(loading := false);
    }
    t := s.(report := Some(SectionReportOf(preview, correctionsCount)), preview := None, file := None, loading := false);
  }

  /** `handleReset`: back to the initial state, except the panel and the loading flag. */
  function HandleReset(s: SectionState): (t: SectionState)
    ensures t.file.None? && t.preview.None? && t.original.None? && t.report.None? && !t.emptyExtraction
    ensures t.expanded == s.expanded && t.loading == s.loading
  {
    s.(file := None, preview := None, original := None, report := None, emptyExtraction := false)
  }

  /** Resetting twice is resetting once, and after a reset a commit does nothing. */
  lemma ResetIdempotent(s: SectionState)
    ensures HandleReset(HandleReset(s)) == HandleReset(s)
    ensures HandleReset(s).preview.None?
  {
  }

  /** The inline edit of an indicator's value: `parseFloat` of the typed text, 0 when it is not
      a number. The source writes through the preview's shared list; the model returns the
      edited preview. */
  function InlineEdit(p: PreviewData, idx: int, text: string): (r: PreviewData)
    requires 0 <= idx < |p.indicators|
    ensures |r.indicators| == |p.indicators| && r.activities == p.activities && r.budgets == p.budgets
    ensures r.indicators[idx].value == ParseFloatOrZero(text)
    ensures forall j :: 0 <= j < |p.indicators| && j != idx ==> r.indicators[j] == p.indicators[j]
    ensures r.indicators[idx].id == p.indicators[idx].id && r.indicators[idx].narrative == p.indicators[idx].narrative
  {
    var updated := p;
    var inds := updated.indicators;
    updated.(indicators := inds[idx := inds[idx].(value := ParseFloatOrZero(text))])
  }

  /** After an inline edit the indicator counts as a correction exactly when the parsed value
      differs from the analysis's. */
  lemma InlineEditCorrection(p: PreviewData, original: PreviewData, idx: int, text: string)
    requires 0 <= idx < |p.indicators| && idx < |original.indicators|
    ensures Corrected(InlineEdit(p, idx, text).indicators, original.indicators, idx)
            <==> ParseFloatOrZero(text) != original.indicators[idx].value
  {
  }

  /** Unparsable text, such as "abc", sets the value to 0. */
  lemma InlineEditOfText(p: PreviewData, idx: int)
    requires 0 <= idx < |p.indicators|
    ensures InlineEdit(p, idx, "abc").indicators[idx].value == 0.0
  {
    ParseFloatOfNonNumeric("abc");
  }
}
