# M&E dashboard — a Dafny model of its computing core

The repository is the monitoring-and-evaluation (M&E) dashboard of a development-aid project
whose monthly report counts 43 months from May 2024. Its React front end reads JSON files of indicators, targets,
actuals, activities, risks, budget plans and spending records, and computes what the pages
show from them: indicator and output progress and status, component roll-ups, outcome cards,
the monthly report, the risk register with its filters, sort order and 5×5 matrix, the activity
timeline and Gantt chart, budget burn and alerts, and the counters of the centres map. A small
Python back end (`backend/main.py`) writes extracted updates back into those files and
recomputes cumulative spending. The smart uploader pages show what an extraction would change
before it is committed.

This project models that core in Dafny. Each source file of the core has its own module, named
after the file (`useOutputProgress.ts` is `OutputProgress`, `RiskSection.tsx` is `RiskSection`,
`backend/main.py` is split into `BudgetContext`, `JsonStore` and `SpentUpdate`). The copies that
the code base keeps of similar logic are modelled separately, because they differ: status
vocabularies, thresholds, minimum bar widths, caps and file names. Lemmas such as
`GanttChart.BarCopiesCompared`, `RiskSection.PipelinesAgree`, `ActivityTracker.ExceededCountedDifferently`
and `UploaderSection.FilesCopiesAgree` say where two copies agree and where they do not.
A few helper modules hold what several files share:

- `Wrappers`: an `Option` type.
- `Seqs`: filter, count and sum over sequences.
- `Numeric`: JavaScript `Math.round`, a `parseFloat` prefix parser and the dashboard's
  `parseNumber`, which strips `$`, `,` and `%`. The five identical copies of `parseNumber` are
  modelled once.
- `Text`: ASCII `toLowerCase`, substring search, string order, and the
  `[...new Set(xs)].sort()` idiom.
- `Sorting`: a stable sort, as `Array.prototype.sort` is stable.
- `Dates`: civil dates as day numbers.

Pure pipelines (`filter`, `map`, `reduce`) are functions. Loops that push into lists, increment
counters or fill maps are methods, proved against the functions that specify them. Examples are
the output roll-up, the risk summary and matrix (a 5×5 `array2`), the year markers, the budget
lookups and totals, the alert list, the JSON update and the spent update. `RiskTable`'s set of
expanded rows is a class. `ReportGenerator.tsx` and `ReportGeneratorSection.tsx` compute the same
report and are modelled once in `Report`.

The expected-progress percentage is the constant 45 in `TargetsMilestones.tsx:105` and
`TargetsSummarySection.tsx:140`, and the model keeps it as the constant `EXPECTED_PERCENT`.

## Model

| member | source | states |
|---|---|---|
| `Text.Lower` | src/pages/RiskRegister.tsx:57-61 | `toLowerCase` maps each character, position by position, to its lower-case form |
| `Text.LowerIdempotent` | src/pages/RiskRegister.tsx:57-61 | lower-casing twice is lower-casing once |
| `Text.ContainsMeaning` | src/pages/RiskRegister.tsx:59-61 | `includes` holds iff the text occurs at some position |
| `Text.BelowTotal` | src/pages/RiskRegister.tsx:25-26 | the default string order compares any two strings |
| `Text.BelowAntisymmetric` | src/pages/RiskRegister.tsx:25-26 | two strings each ordered before the other are equal |
| `Text.BelowTransitive` | src/pages/RiskRegister.tsx:25-26 | the default string order is transitive |
| `Text.BelowExamples` | src/pages/RiskRegister.tsx:25-26 | code-point order: "Zeta" sorts before "alpha", and a prefix before its extensions |
| `Text.DedupMembers` | src/components/dashboard/CentersMapSection.tsx:329 | `[...new Set(xs)]` keeps exactly the elements of `xs`, each once |
| `Text.DedupOfPrefix` | src/components/GanttChart.tsx:81-83 | the first-seen order gains an element only the first time it appears |
| `Sorting.SortBy` | src/pages/RiskRegister.tsx:66-79 | `Array.prototype.sort` returns a permutation of its input |
| `Sorting.SortBySorted` | src/pages/RiskRegister.tsx:66-79 | the result is ordered by the comparator |
| `Sorting.SortByStable` | src/pages/RiskRegister.tsx:66-79 | the sort is stable: the elements with any one key keep their input order |
| `Sorting.SortedUnique` | src/pages/ActivityTracker.tsx:41-42 | `[...new Set(xs)].sort()` holds exactly the elements of `xs`, each once, strictly ascending |
| `Dates.NewYearOrder` | src/components/GanttChart.tsx:25-29 | January 1 of a year up to a date's year is not after that date, and of a later year is after it |
| `Dates.YearOrder` | src/components/GanttChart.tsx:25-27 | a date in an earlier year comes before a date in a later one |
| `Dates.DayNumberExamples` | src/components/GanttChart.tsx:22 | day numbers count leap days: 28 February to 1 March 2024 is 2 days, 2024 has 366 days |
| `Numeric.Round` | src/hooks/useOutputProgress.ts:149 | `Math.round`: the integer r with r ≤ x + 0.5 < r + 1 (halves round up) |
| `Numeric.ParseFloatOfNatToString` | src/hooks/useOutputProgress.ts:59 | `parseFloat` reads plain decimal text of a whole number back as that number |
| `Numeric.ParseFloatOfNegative` | src/hooks/useOutputProgress.ts:59 | `parseFloat` honours a leading minus sign |
| `Numeric.ParseIntOfNatToString` | src/pages/TargetsMilestones.tsx:216 | `parseInt(s, 10)` reads plain decimal text of a whole number back as that number |
| `Numeric.Strip` | src/hooks/useOutputProgress.ts:58 | the cleaned text contains no `$`, `,` or `%` and is no longer than the input |
| `Numeric.ParseNumberIdempotent` | src/hooks/useOutputProgress.ts:56-57 | a number is returned unchanged, so normalising a normalised value changes nothing |
| `Numeric.ParseNumberIgnoresSeparator` | src/hooks/useOutputProgress.ts:58-59 | a `$`, `%` or `,` anywhere in the text does not change the parsed number |
| `Numeric.ParseNumberOfDecimalText` | src/components/dashboard/TargetsSummarySection.tsx:131-135 | plain decimal text of a whole number parses to that number |
| `Numeric.ParseNumberOfCurrency` | src/hooks/useOutputProgress.ts:56-60 | "$12,345" normalises to 12345 |
| `Numeric.ParseNumberOfPercent` | src/pages/TargetsMilestones.tsx:112-117 | "45%" normalises to 45 |
| `Numeric.ParseNumberOfUnparsable` | src/components/dashboard/ReportGeneratorSection.tsx:38-42 | "" and "n/a" normalise to 0 (`parseFloat` gives NaN, `|| 0` replaces it) |
| `OutputProgress.GetStatusColor` | src/hooks/useOutputProgress.ts:62-67 | green exactly from 80, blue exactly in [50, 80), orange exactly in [30, 50), red exactly below 30 |
| `OutputProgress.GetStatus` | src/hooks/useOutputProgress.ts:69-74 | Ahead iff p ≥ 80, On Track iff 50 ≤ p < 80, Behind iff 0 < p < 50, Not Started iff p ≤ 0 |
| `OutputProgress.GetStatusMonotone` | src/hooks/useOutputProgress.ts:69-74 | more progress never gives a lower status in Not Started < Behind < On Track < Ahead |
| `OutputProgress.CappedPercent` | src/hooks/useOutputProgress.ts:138-141 | one indicator's percentage is at most 100, non-negative for a non-negative actual, and exactly 100 once the actual reaches the target |
| `OutputProgress.SumCapped` | src/hooks/useOutputProgress.ts:137-142 | the `reduce` accumulator equals the sum of the capped percentages |
| `OutputProgress.ComputeOutput` | src/hooks/useOutputProgress.ts:104-151 | one output's record equals the roll-up function `OutputOf` (filter by parent, keep positive targets, capped mean, rounded progress, status of the unrounded mean) |
| `OutputProgress.OutputProgressMap` | src/hooks/useOutputProgress.ts:99-155 | empty while indicators or actuals are missing; otherwise exactly one entry per configured output id, each the roll-up of that output |
| `OutputProgress.NoValidIndicatorMeansNotStarted` | src/hooks/useOutputProgress.ts:110-134 | an output with no indicators, or none with a positive total target, has progress 0 and status Not Started |
| `OutputProgress.InvalidIndicatorIsIgnored` | src/hooks/useOutputProgress.ts:121-124 | adding an indicator whose parsed total target is ≤ 0 leaves the output unchanged |
| `OutputProgress.OutputProgressAtMost100` | src/hooks/useOutputProgress.ts:136-149 | capping before averaging keeps output progress ≤ 100 |
| `OutputProgress.OutputProgressInRange` | src/hooks/useOutputProgress.ts:136-149 | with non-negative actuals output progress lies in [0, 100] |
| `OutputProgress.CapBeforeAverage` | src/hooks/useOutputProgress.ts:137-146 | indicators at 50% and 150% give 75; a target 10 000 times larger does not weigh more |
| `OutputProgress.OutputOfTwo` | src/hooks/useOutputProgress.ts:137-149 | two valid indicators give the rounded mean of their two capped percentages |
| `OutputProgress.StatusUsesUnroundedMean` | src/hooks/useOutputProgress.ts:144-151 | a mean of 79.6 is stored as 80 yet classified On Track, the band of the unrounded value |
| `OutputProgress.ComponentProgress` | src/hooks/useOutputProgress.ts:158-185 | one component per configured component, in configuration order |
| `OutputProgress.ComponentColours` | src/hooks/useOutputProgress.ts:159-181 | with no output progress every component is 0 and grey; otherwise its colour is the band of its own rounded percentage, never grey |
| `OutputProgress.ComponentIsRoundedMean` | src/hooks/useOutputProgress.ts:169-176 | once output progress exists, each component's percentage is within half a unit of the mean of its outputs' progress, a missing output counting 0, i.e. the mean rounded with halves up |
| `OutputProgress.ComponentMeanOfRoundedOutputs` | src/hooks/useOutputProgress.ts:170-176 | outputs at 20 and 80 give 50; a missing output counts as 0 (80 and missing give 40) |
| `OutputProgress.ComponentPercentInRange` | src/hooks/useOutputProgress.ts:169-176 | when every output lies in [0, 100] so does every component percentage |
| `OutputSection.CappedPercent` | src/components/OutputSection.tsx:39-40 | one indicator's percentage is at most 100, and non-negative for a non-negative actual |
| `OutputSection.OverallProgress` | src/components/OutputSection.tsx:30-44 | the unrounded capped mean never exceeds 100, is 0 when no indicator has a positive target (or there are none), and is non-negative for non-negative actuals |
| `OutputSection.OverallProgressCapsBeforeAveraging` | src/components/OutputSection.tsx:37-43 | indicators at 50% and 150% of target give exactly 75 |
| `OutputSection.OverallStatus` | src/components/OutputSection.tsx:46-54 | Not Started iff every member is (or none exist); Ahead iff some member is Ahead; Behind iff some is Behind and none Ahead; On Track iff some is On Track and none Ahead or Behind |
| `OutputSection.StatusOfAllMeaning` | src/components/OutputSection.tsx:47-53 | the same four if-and-only-if conditions stated over the status list |
| `OutputSection.StatusDependsOnlyOnSet` | src/components/OutputSection.tsx:49-53 | two status lists with the same members get the same group status, whatever their order or multiplicity |
| `OutputSection.StatusPrecedenceExamples` | src/components/OutputSection.tsx:50-53 | [Ahead, Behind] → Ahead, [Behind, On Track] → Behind, [Not Started, On Track] → On Track, all Not Started → Not Started |
| `TargetTypes.Latest` | src/pages/TargetsMilestones.tsx:133 | the snapshot used is the first of the list, and exists iff the list is non-empty |
| `TargetTypes.ActualOf` | src/pages/TargetsMilestones.tsx:163 | an id absent from the snapshot has actual 0; a present one its recorded value |
| `TargetTypes.Find` | src/pages/TargetsMilestones.tsx:148 | the found indicator has the id and is the first such in the list; nothing is found iff no indicator has the id |
| `TargetsMilestones.CalculateStatus` | src/pages/TargetsMilestones.tsx:100-110 | Not Started iff target = 0 or actual = 0; otherwise Ahead iff p ≥ 45×1.1, On Track iff 45×0.8 ≤ p < 45×1.1, Behind iff p < 45×0.8 |
| `TargetsMilestones.CalculateStatusMonotone` | src/pages/TargetsMilestones.tsx:107-109 | for a fixed positive target, a larger positive actual never gives a worse status |
| `TargetsMilestones.NegativeTargetIsBehind` | src/pages/TargetsMilestones.tsx:101 | a negative target is not caught: with a positive actual the status is Behind |
| `TargetsMilestones.OutcomeIndicators` | src/pages/TargetsMilestones.tsx:144-177 | empty until logframe and snapshot are loaded, then one card per configured outcome, in order |
| `TargetsMilestones.OutcomeCard` | src/pages/TargetsMilestones.tsx:147-176 | a missing indicator gives zeros and Not Started; a present one takes its parsed total target, its snapshot actual (0 when absent) and their status |
| `TargetsMilestones.OutputGroups` | src/pages/TargetsMilestones.tsx:180-211 | empty until loaded, then one group per configured output |
| `TargetsMilestones.GroupMembers` | src/pages/TargetsMilestones.tsx:185-201 | a group holds exactly the indicators whose parent id is the output id, in logframe order |
| `TargetsMilestones.GroupComponents` | src/pages/TargetsMilestones.tsx:203-208 | every group's component is 1, 2 or 3 |
| `TargetsMilestones.ComponentFilterMeaning` | src/pages/TargetsMilestones.tsx:214-218 | 'all' returns every group; a component number keeps exactly that component's groups, in order |
| `TargetsMilestones.OutputsByComponent` | src/pages/TargetsMilestones.tsx:221-227 | the buckets are exactly 1, 2 and 3, each holding the groups of its component in input order |
| `TargetsMilestones.BucketsPartition` | src/pages/TargetsMilestones.tsx:222-226 | the three buckets together hold every group exactly once |
| `TargetsSummary.CalculateStatusBands` | src/components/dashboard/TargetsSummarySection.tsx:137-150 | Not Started iff target = 0 or actual = 0; otherwise On Track iff p ≥ 36 (inside the band or above it), Delayed iff 22.5 ≤ p < 36, Off Track iff p < 22.5 |
| `TargetsSummary.AgreesWithMilestones` | src/components/dashboard/TargetsSummarySection.tsx:137-150 | against the page's copy: On Track here iff Ahead or On Track there; Delayed or Off Track here iff Behind there |
| `TargetsSummary.OrNotAvailable` | src/components/dashboard/TargetsSummarySection.tsx:571-573 | an empty detail reads N/A, any other is kept |
| `TargetsSummary.Outcomes` | src/components/dashboard/TargetsSummarySection.tsx:523-576 | empty until loaded, then one card per configured outcome, with its id and component |
| `TargetsSummary.OutcomeCard` | src/components/dashboard/TargetsSummarySection.tsx:527-574 | a missing indicator gives zero numbers and yearly targets, Not Started and N/A details; no detail is ever empty |
| `TargetsSummary.Filtered` | src/components/dashboard/TargetsSummarySection.tsx:579-582 | 'all' is the identity; a component keeps exactly its own cards, in order |
| `TargetsSummary.ZeroTargetCardOnlyDilutes` | src/components/dashboard/TargetsSummarySection.tsx:585-594 | a card without a positive target adds nothing to the numerator but still counts in the divisor |
| `TargetsSummary.OverallProgressIsUncapped` | src/components/dashboard/TargetsSummarySection.tsx:587-593 | one card at 300% and one without a target give 150: nothing is capped |
| `TargetsSummary.UncappedSumNonNegative` | src/components/dashboard/TargetsSummarySection.tsx:587-592 | with non-negative actuals the numerator is non-negative |
| `TargetsSummary.YearlyData` | src/components/dashboard/TargetsSummarySection.tsx:324-329 | four points for 2024-2027 whose 2027 cumulative value is the total target |
| `TargetsSummary.YearlyDataRunningSum` | src/components/dashboard/TargetsSummarySection.tsx:324-329 | running sums through 2026; the 2027 value equals the four-year sum only when the total target does |
| `Report.ElapsedMonths` | src/components/ReportGenerator.tsx:126-133 | the month count since May 2024 plus one, clamped to [0, 43] |
| `Report.ElapsedMonthsExamples` | src/components/dashboard/ReportGeneratorSection.tsx:71-77 | May 2024 → 1, January 2024 → 0, December 2027 → 43; later months never have fewer |
| `Report.TimelinePercent` | src/components/ReportGenerator.tsx:204 | round(elapsed/43×100) lies in [0, 100], 0 at the start and 100 at the end |
| `Report.GetStatus` | src/components/ReportGenerator.tsx:80-85 | On Track iff p ≥ 80, Moderate iff 50 ≤ p < 80, Behind iff 0 < p < 50, Not Started iff p ≤ 0 |
| `Report.StatusVocabularies` | src/components/dashboard/ReportGeneratorSection.tsx:44-49 | the same bands as the output-progress hook under other names (On Track ↔ Ahead, Moderate ↔ On Track) |
| `Report.GetStatusColor` | src/components/ReportGenerator.tsx:87-103 | green iff On Track/Completed/Exceeded, blue iff Moderate, orange iff Behind/Delayed, red iff Critical, grey otherwise |
| `Report.StatusColoursOfOwnStatuses` | src/components/ReportGenerator.tsx:80-103 | of the report's own statuses only Not Started is grey |
| `Report.ComputeOutcome` | src/components/ReportGenerator.tsx:136-155 | the `let` accumulators give the ratio-of-sums outcome `OutcomeOf` |
| `Report.OutcomeZeroTarget` | src/components/dashboard/ReportGeneratorSection.tsx:79-98 | baseline is always 0; a summed target of 0 gives Not Started |
| `Report.MissingIdsAddNothing` | src/components/ReportGenerator.tsx:139-145 | ids absent from the logframe add nothing to either sum |
| `Report.OutcomeIsRatioOfSums` | src/components/ReportGenerator.tsx:136-154 | 100 of 100 and 0 of 900 give 10% (Behind), not the 50% a mean of ratios would give |
| `Report.Outputs` | src/components/dashboard/ReportGeneratorSection.tsx:100-116 | one row per configured output |
| `Report.OutputAgreesWithHook` | src/components/ReportGenerator.tsx:158-174 | the report's output progress equals the hook's rounded capped mean (so ≤ 100), and its status is the band of that rounded value |
| `Report.OutputStatusUsesRoundedValue` | src/components/dashboard/ReportGeneratorSection.tsx:114-115 | a mean of 49.6 is stored as 50 and reads Moderate, though its unrounded band is Behind |
| `Report.NarrativesMeaning` | src/components/ReportGenerator.tsx:177-184 | the items are the key ids present in the latest stories, in key-list order, with the story's text and its status or Unknown |
| `Report.HighlightsMeaning` | src/components/dashboard/ReportGeneratorSection.tsx:127-136 | at most 10 items, each Delayed, Completed or Critical, the first qualifying activities in input order |
| `Report.GenerateReport` | src/components/ReportGenerator.tsx:112-210 | the report holds the month name, the clamped elapsed months, the timeline percentage of those months (in [0, 100]), the outcomes, outputs, narratives and at most 10 highlights as specified above |
| `RiskData.BuildPlanMap` | src/hooks/useRiskData.ts:117-123 | the lookup has a key for exactly the risk ids of the plan records, and the last record of each id wins |
| `RiskData.ActivityByRisk` | src/hooks/useRiskData.ts:140-149 | a key for exactly the risk ids some mapping links, each holding `LinkedTo`: the mappings that link it, in mapping order, once per occurrence |
| `RiskData.AddLinks` | src/hooks/useRiskData.ts:143-146 | one mapping's pass creates the missing keys and pushes the mapping once per occurrence of each linked id, leaving other keys unchanged |
| `RiskData.LinkedToCounts` | src/hooks/useRiskData.ts:142-147 | under a risk, a mapping appears (its own multiplicity) × (occurrences of the risk in its linked ids) times: nothing invented or dropped |
| `RiskData.LinkedToUnlisted` | src/hooks/useRiskData.ts:142-147 | a risk no mapping links has no linked mappings |
| `RiskData.RisksWithPlans` | src/hooks/useRiskData.ts:152-163 | same length and order as the risks, each risk's own fields unchanged, plans and linked mappings attached by risk id and absent where the lookup has none |
| `RiskData.Summarize` | src/hooks/useRiskData.ts:166-200 | total is the number of risks; each tally counts the risks whose rating, status or direction is exactly that value |
| `RiskData.RatingStep` | src/hooks/useRiskData.ts:173-178 | one `switch` increments the matching rating case and none for an unknown rating |
| `RiskData.RatingTallyPartition` | src/hooks/useRiskData.ts:167-178 | the four rating counts plus the risks with a rating outside the union make up the total |
| `RiskData.StatusTallyPartition` | src/hooks/useRiskData.ts:168-185 | the four status counts plus the risks with a status outside the union make up the total |
| `RiskData.DirectionTallyPartition` | src/hooks/useRiskData.ts:169-191 | the three direction counts plus the risks with a direction outside the union make up the total |
| `RiskData.BuildMatrix` | src/hooks/useRiskData.ts:203-221 | a fresh 5×5 grid whose cell [5−L][I−1] counts the risks at (L, I); risksAt has a key for exactly the occupied pairs, listing their risks in input order, as many as the cell count |
| `RiskData.AddToCell` | src/hooks/useRiskData.ts:211-213 | `cells[5 − L][I − 1]++` turns the counts of the risks so far into those of one more risk |
| `RiskData.AddToGroup` | src/hooks/useRiskData.ts:215-217 | pushing one risk under its key keeps risksAt the grouping of the longer prefix |
| `RiskData.AllCellsDistinctAndComplete` | src/hooks/useRiskData.ts:205 | the 25 grid cells are distinct and cover every likelihood and impact in 1..5 |
| `RiskData.MatrixCountsSumToTotal` | src/hooks/useRiskData.ts:205-214 | with every likelihood and impact in 1..5 the 25 counts sum to the number of risks |
| `RiskData.MatrixCorners` | src/hooks/useRiskData.ts:203-220 | the built matrix's cell [0][0] counts the risks at likelihood 5 and impact 1, and cell [4][4] those at likelihood 1 and impact 5 |
| `RiskData.GetRatingFromScore` | src/hooks/useRiskData.ts:243-248 | Extreme iff score ≥ 15, High iff 10 ≤ score < 15, Medium iff 5 ≤ score < 10, Low iff score < 5 |
| `RiskData.ColourMatchesRating` | src/hooks/useRiskData.ts:234-240 | the cell colour is red/orange/yellow/green exactly when the rating of L×I is Extreme/High/Medium/Low |
| `RiskData.RatingExamples` | src/hooks/useRiskData.ts:243-248 | 25 and 15 → Extreme, 12 and 10 → High, 6 and 5 → Medium, 4 → Low |
| `RiskRegister.Categories` | src/pages/RiskRegister.tsx:23-27 | exactly the risks' categories, each once, in ascending code-point order |
| `RiskRegister.CategorySet` | src/pages/RiskRegister.tsx:24-25 | the `Set` filled in the `forEach` holds the categories in order of first appearance |
| `RiskRegister.StageStep` | src/pages/RiskRegister.tsx:31-63 | one `if (filter) result = result.filter(...)` step keeps exactly what passes this and every earlier stage; an empty control changes nothing |
| `RiskRegister.Narrow` | src/pages/RiskRegister.tsx:34-63 | applying one stage to the earlier stages' result gives the result of the stages so far |
| `RiskRegister.ApplyFilters` | src/pages/RiskRegister.tsx:30-63 | the filtered list is an order-preserving sub-list of the risks holding exactly the risks that satisfy every non-empty filter |
| `RiskRegister.FilterAndSort` | src/pages/RiskRegister.tsx:30-82 | the result holds exactly the risks that pass the filters, is a permutation of the filtered list, is ordered by the column in the chosen direction, and keeps equal keys in input order |
| `RiskRegister.NumericColumnOrder` | src/pages/RiskRegister.tsx:66-72 | a numeric column sorted desc is non-increasing and sorted asc non-decreasing |
| `RiskRegister.UnfilteredIsPermutation` | src/pages/RiskRegister.tsx:31-79 | without filters the pipeline only reorders: the result is a permutation of the risks |
| `RiskRegister.ZeroCellIsNoFilter` | src/pages/RiskRegister.tsx:49-53 | a selected cell with a likelihood or impact ≤ 0 filters nothing |
| `RiskRegister.SearchIgnoresQueryCase` | src/pages/RiskRegister.tsx:56-62 | the search does not depend on the case of the query |
| `RiskRegister.SearchExample` | src/pages/RiskRegister.tsx:57-61 | "DELAY" finds the risk titled "Funding Delay" |
| `RiskRegister.HandleSort` | src/pages/RiskRegister.tsx:84-91 | the chosen column becomes the sort column; the current column flips direction, another starts descending |
| `RiskRegister.HandleSortTwice` | src/pages/RiskRegister.tsx:85-86 | sorting twice by the current column restores the sort state |
| `RiskRegister.HandleMatrixCellClick` | src/pages/RiskRegister.tsx:93-103 | the selection is cleared iff the click is (0, 0) or on the selected cell; otherwise the clicked cell is selected |
| `RiskRegister.CellClickTwice` | src/pages/RiskRegister.tsx:97-101 | two clicks on the same cell return to no selection |
| `RiskRegister.ClearedHasNoActiveFilters` | src/pages/RiskRegister.tsx:105-113 | after `clearAllFilters`, `hasActiveFilters` is false |
| `RiskRegister.InactiveFiltersKeepAll` | src/pages/RiskRegister.tsx:34-113 | with no active filter every risk is kept |
| `RiskSection.StageStep` | src/components/dashboard/RiskSection.tsx:355-391 | one guarded `result.filter` step keeps exactly what passes this and every earlier stage (rating first, `'all'` as the empty rating) |
| `RiskSection.Narrow` | src/components/dashboard/RiskSection.tsx:358-388 | applying one stage to the earlier stages' result gives the result of the stages so far |
| `RiskSection.FilteredRisks` | src/components/dashboard/RiskSection.tsx:355-391 | the filtered list is the order-preserving sub-list of exactly the risks that satisfy every active control |
| `RiskSection.KeptMeaning` | src/components/dashboard/RiskSection.tsx:355-391 | a risk is in the filtered list iff it is a risk and passes all five controls |
| `RiskSection.ResetFiltersKeepAll` | src/components/dashboard/RiskSection.tsx:402-408 | after the reset the filtered list is all the risks, in order |
| `RiskSection.SortedRisks` | src/components/dashboard/RiskSection.tsx:394-396 | a permutation of the filtered risks with non-increasing scores, equal scores kept in filtered order |
| `RiskSection.SortThreeByScore` | src/components/dashboard/RiskSection.tsx:395 | the higher score moves ahead of two equal scores, which keep their order |
| `RiskSection.SortedRisksExample` | src/components/dashboard/RiskSection.tsx:395 | scores 6, 16, 6 come out as 16, 6, 6 with the two sixes in input order |
| `RiskSection.ClearedHasNoActiveFilters` | src/components/dashboard/RiskSection.tsx:399-408 | after `clearAllFilters`, `hasActiveFilters` is false |
| `RiskSection.HandleMatrixCellClick` | src/components/dashboard/RiskSection.tsx:411-417 | the selection is cleared iff the clicked cell is the selected one; otherwise the clicked cell is selected |
| `RiskSection.CellClickTwice` | src/components/dashboard/RiskSection.tsx:411-417 | two clicks on the same cell return to no selection |
| `RiskSection.OriginClickDiverges` | src/components/dashboard/RiskSection.tsx:411-417 | a click at (0, 0) selects that cell here while the register page clears the selection |
| `RiskSection.GridInvertsMatrix` | src/components/dashboard/RiskSection.tsx:94-98 | the mini matrix's row/column → (likelihood, impact) map inverts the hook's `cells[5 - likelihood][impact - 1]` and stays within 1..5 |
| `RiskSection.PipelinesAgree` | src/components/dashboard/RiskSection.tsx:355-391 | with no selected cell or one with positive coordinates, the section and the register page keep the same risks |
| `RiskSection.ZeroCellDiverges` | src/components/dashboard/RiskSection.tsx:374-378 | with cell (0, 3) selected the section keeps no grid risk while the register page keeps them all |
| `RiskTable.Toggled` | src/components/RiskTable.tsx:16-24 | the toggled row changes membership and no other row does |
| `RiskTable.ToggleTwice` | src/components/RiskTable.tsx:16-24 | toggling a row twice restores the expanded set |
| `RiskTable.TogglesCommute` | src/components/RiskTable.tsx:16-24 | toggles of two rows commute |
| `RiskTable.ExpandedRows.ToggleRow` | src/components/RiskTable.tsx:16-24 | the new expanded set is the old one with `id` toggled |
| `RiskTable.GetSortIndicator` | src/components/RiskTable.tsx:26-29 | no arrow iff the column is not the sorted one; ↑ iff sorted ascending, ↓ iff descending |
| `RiskTable.GetDirectionArrow` | src/components/RiskTable.tsx:31-37 | rising iff "Increasing", falling iff "Decreasing", level for every other string |
| `RiskTable.GetRatingClass` | src/components/RiskTable.tsx:39-46 | each known rating has its class; every other string gets the Low class |
| `RiskTable.GetStatusClass` | src/components/RiskTable.tsx:48-55 | each known status has its class; every other string gets the Closed class |
| `RiskTable.GetActionStatusClass` | src/components/RiskTable.tsx:57-63 | "In progress" and "Completed" have their classes; every other string gets the Planned class |
| `RiskTable.FallbackExamples` | src/components/RiskTable.tsx:31-63 | unknown strings (including a lower-case "increasing") fall back to the default branch |
| `Activities.Outputs` | src/pages/ActivityTracker.tsx:41 | one output per activity, position by position |
| `Activities.OutputOptions` | src/pages/ActivityTracker.tsx:39-43 | exactly the activities' outputs, each once, strictly ascending in code-point order |
| `Activities.FilterByOutput` | src/pages/ActivityTracker.tsx:46-50 | `'all'` keeps every activity; any other value keeps exactly the activities with that output, in order |
| `ActivitySection.NormalizeStatus` | src/components/dashboard/ActivitySection.tsx:64-79 | each display status is reached from exactly the raw strings listed (Exceeded → On Track, Critical → Off Track); every other string is Not Started |
| `ActivitySection.NormalizeDisplayed` | src/components/dashboard/ActivitySection.tsx:64-79 | normalising a displayed status returns it, except that the displayed "Off Track" becomes Not Started |
| `ActivitySection.ActivityStats` | src/components/dashboard/ActivitySection.tsx:461-473 | the total is the activity count; each card counts the activities whose normalised status is its own, and the five cards add up to the total |
| `ActivitySection.OffTrackCountedAsNotStarted` | src/components/dashboard/ActivitySection.tsx:470-471 | an activity whose raw status is "Off Track" is counted under Not Started, not Off Track |
| `ActivitySection.CalculateBarPosition` | src/components/dashboard/ActivitySection.tsx:117-137 | the left edge is the raw left clamped to [0, 100]; the width is the raw width capped at 100 minus the raw left, raised to 2 when that is below 2; the bar stays inside the chart when the raw left is in [0, 98] |
| `ActivitySection.BarOverflowsNearEnd` | src/components/dashboard/ActivitySection.tsx:133-136 | a bar starting at 99% is widened to 2% and ends at 101% |
| `ActivitySection.ProgressWidth` | src/components/dashboard/ActivitySection.tsx:204 | the fill is the bar width scaled by the progress, capped at the full bar width |
| `ActivityTracker.TrackerStats` | src/pages/ActivityTracker.tsx:53-65 | the total is the activity count; each card counts the activities whose raw status string equals its own exactly, and the five cards plus the activities outside the union add up to the total |
| `ActivityTracker.CardsCoverAllIff` | src/pages/ActivityTracker.tsx:57-64 | the cards add up to the total iff every status is one of the five union members |
| `ActivityTracker.ExceededCountedDifferently` | src/pages/ActivityTracker.tsx:59-63 | an "Exceeded" activity is on no card of the page while the dashboard section counts it On Track |
| `Timeline.MarkerPosition` | src/components/GanttChart.tsx:28-31 | the position of a January 1 is never negative |
| `Timeline.PositionOf` | src/components/GanttChart.tsx:22-31 | the per-year position function of a project is the marker position and never negative |
| `Timeline.MarkersMeaning` | src/components/GanttChart.tsx:27-36 | every marker is a year of the range, at its own position, at most 100, with the years strictly increasing |
| `Timeline.MarkedIffWithinHundred` | src/components/GanttChart.tsx:33-35 | a year of the range is marked iff its position is at most 100; a year beyond 100 has no marker at all |
| `Timeline.MarkerPositionsInRange` | src/components/GanttChart.tsx:31-35 | every marker of a project lies in [0, 100] at its year's position |
| `Timeline.GenerateYearMarkers` | src/components/GanttChart.tsx:20-40 | the `while` loop builds exactly the project's marker list |
| `Timeline.MarkerLoop` | src/components/GanttChart.tsx:27-37 | the loop over years `first..last` pushes exactly the markers within 100, in year order |
| `Timeline.YearsWithinHundred` | src/components/GanttChart.tsx:28-33 | in a project whose end follows its start, no year up to the end year is placed beyond 100 |
| `Timeline.EveryYearMarked` | src/components/GanttChart.tsx:27-36 | when no year is beyond 100 there is one marker per year, consecutively |
| `Timeline.ProjectMarkers` | src/components/GanttChart.tsx:20-40 | a forward project has one marker for each year from its start year to its end year |
| `Timeline.StartYearFloored` | src/components/GanttChart.tsx:29-31 | the start year's marker is floored to 0 |
| `Timeline.BeyondHundredSkipped` | src/components/GanttChart.tsx:31-35 | with reversed dates a year lies at 36500% and is skipped, not clamped |
| `Timeline.TodayPosition` | src/components/GanttChart.tsx:66-73 | today's position is the raw ratio clamped to [0, 100] |
| `Timeline.TodayAtEnds` | src/components/GanttChart.tsx:66-73 | today at the project's start is at 0 and at its end at 100 |
| `GanttChart.CalculateBarPosition` | src/components/GanttChart.tsx:43-63 | the left edge is the raw left clamped to [0, 100]; the width is the raw width capped at 100 minus the raw left, raised to 1 when that is below 1; the bar stays inside the chart when the raw left is in [0, 99] |
| `GanttChart.BarCopiesCompared` | src/components/GanttChart.tsx:60-61 | the chart's and the section's bars coincide when the capped width is at least 2; a 1.5% bar stays 1.5 in the chart and becomes 2 in the section, and at 99% only the section's bar passes the end |
| `GanttChart.ProgressFill` | src/components/GanttChart.tsx:178 | the fill lies within the bar for progress in [0, 100] and overflows it beyond 100 |
| `GanttChart.FillsCompared` | src/components/GanttChart.tsx:178 | up to 100% the chart's fill equals the section's; beyond it the chart's is wider |
| `GanttChart.ConcatGroupsElements` | src/components/GanttChart.tsx:76-88 | the groups of distinct outputs together hold exactly the activities with one of those outputs |
| `GanttChart.GroupsArePermutation` | src/components/GanttChart.tsx:76-115 | the groups over all outputs hand back each activity exactly once |
| `GanttChart.FlattenOfFilters` | src/components/GanttChart.tsx:115 | iterating a map of per-output filters yields the concatenated groups |
| `GanttChart.GroupByOutput` | src/components/GanttChart.tsx:76-88 | the map's keys are the outputs in order of first appearance, each key holds that output's activities in order, and the groups together are a permutation of the activities |
| `GanttChart.GroupingComplete` | src/components/GanttChart.tsx:76-88 | once every activity is seen, the groups in insertion order are a permutation of the activities |
| `GanttChart.AddActivity` | src/components/GanttChart.tsx:79-85 | one `forEach` step keeps the keys in first-seen order and each group equal to its output's activities so far |
| `GanttChart.KeysStep` | src/components/GanttChart.tsx:81-83 | the insertion order gains an output only the first time it is seen |
| `GanttChart.GroupsStep` | src/components/GanttChart.tsx:81-84 | the output's list gains the activity and every other list is unchanged |
| `GanttChart.UnseenOutputHasNoGroup` | src/components/GanttChart.tsx:81-82 | an output not yet seen has no activities so far, so starting its list empty is right |
| `BudgetData.LastByIdKeys` | src/hooks/useBudgetData.ts:57-62 | the lookup holds exactly the ids of the spending records |
| `BudgetData.LastByIdValues` | src/hooks/useBudgetData.ts:57-62 | each id maps to its last record: a later duplicate overwrites an earlier one |
| `BudgetData.LaterDuplicateWins` | src/hooks/useBudgetData.ts:60 | of two records with one id, the later is looked up |
| `BudgetData.BuildSpentLookup` | src/hooks/useBudgetData.ts:57-62 | the nested loops build the last-record-wins lookup over all outputs' records in order |
| `BudgetData.AddRecords` | src/hooks/useBudgetData.ts:59-61 | the inner loop extends the lookup by one output's records in order |
| `BudgetData.LookupStep` | src/hooks/useBudgetData.ts:60 | one assignment makes the new record the entry of its id |
| `BudgetData.ActivityBudgetOf` | src/hooks/useBudgetData.ts:72-92 | the row keeps the plan's id; planned is the plan's total or 0, the planned years are the plan's when present, and for a recorded activity spent and the four yearly figures are the record's, each 0 when missing |
| `BudgetData.UnrecordedActivity` | src/hooks/useBudgetData.ts:72-90 | an activity without a spending record has spent 0 in total and in each year, and missing plan years read as four zeros |
| `BudgetData.OutputBudgetOf` | src/hooks/useBudgetData.ts:66-101 | an output's rows are one per plan activity in order, and its totals are the sums of the rows' planned and spent amounts |
| `BudgetData.BuildOutput` | src/hooks/useBudgetData.ts:67-100 | the `for` loop accumulating `outputPlanned`/`outputSpent` yields that output budget |
| `BudgetData.TotalsStep` | src/hooks/useBudgetData.ts:76-77 | adding a row adds its amounts to the running totals |
| `BudgetData.BuildOutputs` | src/hooks/useBudgetData.ts:65-101 | one output budget per plan output, in plan order |
| `BudgetData.TotalBudgetOf` | src/hooks/useBudgetData.ts:103 | the plan's total budget when present and non-zero, 8,250,000 otherwise; never zero |
| `BudgetData.LoadBudgetData` | src/hooks/useBudgetData.ts:56-116 | the totals (the spent total is the file's cumulative figure), remaining = budget − spent, burn rate = spent / budget × 100, and the per-output budgets from the last-record-wins lookup |
| `BudgetData.BurnRateUncapped` | src/hooks/useBudgetData.ts:106 | spending beyond a positive budget gives a burn rate above 100 |
| `BudgetContext.ReadFrom` | backend/main.py:129-131 | the table's keys are exactly its id list, and no id read earlier is lost |
| `BudgetContext.ReadTable` | backend/main.py:124-145 | the table read from a file has exactly the ids listed |
| `BudgetContext.ReadTableLoops` | backend/main.py:124-145 | the nested loops, stopping at the first entry that raises, read exactly the table |
| `BudgetContext.StatusRowOf` | backend/main.py:150-153 | the percentage is spending × 100 / plan for a positive plan and 0 otherwise; a row is Over Budget iff its plan is positive and its spending exceeds it, On Budget otherwise |
| `BudgetContext.StatusRows` | backend/main.py:149-154 | one row per id, in the order given, each from the plan and spending amounts (0 when missing) |
| `BudgetContext.LoadBudgetContext` | backend/main.py:115-156 | one row per planned activity, ids strictly ascending, planned from the plan, spent from the spending table or 0, the percentage spent / planned × 100 (0 for a plan that is not positive), and the Over Budget condition; the cumulative figure printed is the summary's, 0 when missing, and none when formatting it raises |
| `BudgetContext.RowsOfSortedIds` | backend/main.py:149-154 | rows over the sorted distinct ids cover the plan's keys once each, in order, with their amounts, percentage and status |
| `BudgetContext.DistinctKeysCount` | backend/main.py:149 | distinct ids that are exactly a map's keys are as many as its keys |
| `BudgetContext.StatusAgreesWithDashboard` | backend/main.py:152-153 | for a non-negative plan, Over Budget here iff the dashboard section says Over Budget iff the tracking page colours red |
| `BudgetContext.MissingTotalStopsReading` | backend/main.py:129-133 | a planned activity without a total ends the reading; later activities, even in later outputs, are not read |
| `BudgetContext.CumulativeFigure` | backend/main.py:140 | no figure iff there is no file, the summary has no `.get`, or the figure cannot be formatted; a numeric figure is printed as is |
| `BudgetContext.ReadSpending` | backend/main.py:136-145 | when the cumulative line raises, nothing is read; otherwise the spending table is read |
| `BudgetContext.UnformattableSummaryReadsNothing` | backend/main.py:136-152 | with an unprintable summary every activity shows spent 0 and On Budget |
| `BudgetContext.NullFigureHidesOverspending` | backend/main.py:136-152 | a `null` figure drops a spending record that a missing figure would read, hiding an overspent activity |
| `BudgetContext.SpendingDefaultsAndDuplicates` | backend/main.py:141-143 | a missing `total_spent` reads as 0 and a later duplicate id overwrites |
| `BudgetSection.GetBudgetStatus` | src/components/dashboard/BudgetSection.tsx:48-54 | a zero plan is On Budget; otherwise Over Budget iff the ratio exceeds 100% and Near Limit iff it lies in (80%, 100%] |
| `BudgetSection.BudgetStatusExamples` | src/components/dashboard/BudgetSection.tsx:48-54 | 120/100 Over, 85/100 and 100/100 Near, 80/100 and 50/100 On, anything against a zero plan On |
| `BudgetSection.BudgetStatusOfPositivePlan` | src/components/dashboard/BudgetSection.tsx:49-53 | for a positive plan: Over iff spent > plan, Near iff 0.8·plan < spent ≤ plan |
| `BudgetSection.PercentOfPositive` | src/components/dashboard/BudgetSection.tsx:50-52 | for a positive plan the percentage exceeds 100 (80) iff spent exceeds the plan (0.8 of it) |
| `BudgetSection.OutputSummaryOf` | src/components/dashboard/BudgetSection.tsx:362-381 | percentage is spent/planned × 100 for a positive plan and 0 otherwise; the output's and each activity's status come from `getBudgetStatus` |
| `BudgetSection.OutputSummaries` | src/components/dashboard/BudgetSection.tsx:361-383 | one summary per output, in order |
| `BudgetSection.UnplannedOutput` | src/components/dashboard/BudgetSection.tsx:365-366 | an output with spending and no plan shows 0% and On Budget |
| `BudgetSection.MaxPlanned` | src/components/dashboard/BudgetSection.tsx:385-387 | at least 1, no smaller than any output's plan, and either 1 or one of the plans |
| `BudgetSection.OutputBarsFit` | src/components/dashboard/BudgetSection.tsx:385-387 | no output's bar, scaled by `maxPlanned`, is wider than 100% |
| `BudgetSection.DangerOf` | src/components/dashboard/BudgetSection.tsx:396-401 | at most one danger alert, naming the activity |
| `BudgetSection.WarningOf` | src/components/dashboard/BudgetSection.tsx:408-414 | at most one warning alert, naming the activity |
| `BudgetSection.OverAndNearDisjoint` | src/components/dashboard/BudgetSection.tsx:396-409 | no activity gets both a danger and a warning alert |
| `BudgetSection.AlertList` | src/components/dashboard/BudgetSection.tsx:390-427 | 1 to 5 alerts; the success alert alone iff there is no danger and no warning; otherwise the first five of the dangers followed by the warnings |
| `BudgetSection.KindsOfPieces` | src/components/dashboard/BudgetSection.tsx:394-416 | the first pass pushes only danger alerts and the second only warnings |
| `BudgetSection.DangersFirst` | src/components/dashboard/BudgetSection.tsx:393-416 | every danger alert precedes every warning |
| `BudgetSection.DangerAlertsNameOverspent` | src/components/dashboard/BudgetSection.tsx:394-403 | an activity is named by a danger alert iff it spent more than planned |
| `BudgetSection.Alerts` | src/components/dashboard/BudgetSection.tsx:390-427 | the two nested `forEach` passes, the success fallback and `slice(0, 5)` produce exactly the alert list |
| `BudgetSection.PassOver` | src/components/dashboard/BudgetSection.tsx:394-403 | one outer pass appends every output's activities' alerts, in order |
| `BudgetSection.OutputStep` | src/components/dashboard/BudgetSection.tsx:394-395 | entering one more output appends its activities' alerts |
| `BudgetSection.PushEach` | src/components/dashboard/BudgetSection.tsx:395-402 | the inner `forEach` appends each activity's alert in order |
| `BudgetTracking.GetStatusColor` | src/pages/BudgetTracking.tsx:34-39 | red iff the plan is positive and spending exceeds it, orange iff the plan is positive and 0.8·plan < spent ≤ plan, green otherwise |
| `BudgetTracking.BadgeMatchesColour` | src/pages/BudgetTracking.tsx:133-153 | the row's badge text names the colour the row is drawn in |
| `BudgetTracking.ColourAgreesWithSectionStatus` | src/pages/BudgetTracking.tsx:34-39 | for a non-negative plan the page's colour and the dashboard section's status coincide |
| `BudgetTracking.NegativePlanRatedDifferently` | src/pages/BudgetTracking.tsx:35 | with a negative plan the page shows green where the section says Near Limit or Over Budget |
| `BudgetTracking.FillWidth` | src/pages/BudgetTracking.tsx:109-145 | the fill is the percentage capped at 100 |
| `BudgetTracking.FillOfActivity` | src/pages/BudgetTracking.tsx:133-145 | an activity's fill lies in [0, 100] when spending is not negative |
| `BudgetTracking.ToggleExpanded` | src/pages/BudgetTracking.tsx:90-97 | the output closes iff it was the open one; otherwise it becomes the only open one |
| `BudgetTracking.ToggleTwice` | src/pages/BudgetTracking.tsx:97 | two clicks on one header return it to its starting state when it started open, and close it otherwise |
| `BudgetTracking.RedAlertsNameOverspent` | src/pages/BudgetTracking.tsx:172-174 | an activity gets a red alert iff some output lists it and it spent above plan |
| `BudgetTracking.OrangeAlertsNameApproaching` | src/pages/BudgetTracking.tsx:185-187 | an activity gets an orange alert iff some output lists it and 0.8·plan < spent ≤ plan |
| `BudgetTracking.RedAndOrangeDisjoint` | src/pages/BudgetTracking.tsx:174-187 | no activity is alerted both red and orange |
| `BudgetTracking.NoAlertsGivesGreenBanner` | src/pages/BudgetTracking.tsx:172-198 | with no red and no orange alert the green banner shows |
| `BudgetTracking.GreenBannerIffNoAlerts` | src/pages/BudgetTracking.tsx:172-198 | with non-negative plans the green banner shows iff there is no red and no orange alert |
| `BudgetTracking.NegativePlanRedAndGreen` | src/pages/BudgetTracking.tsx:174-198 | a negative plan can raise a red alert while the green banner also shows |
| `BudgetTracking.UnplannedSpendingShownGreen` | src/pages/BudgetTracking.tsx:172-203 | spending with no plan raises a red alert and hides the banner while the row itself is green and reads On Budget |
| `JsonStore.Append` | backend/main.py:184-197 | append mode: the stored list (or `[]` when the file did not hold a list) gains the new entry last, nothing else changes |
| `JsonStore.UpdatesMap` | backend/main.py:200 | the updates map has exactly the ids of the updates |
| `JsonStore.Overwritten` | backend/main.py:198-207 | overwrite mode keeps the number of stored activities |
| `JsonStore.OverwriteActivities` | backend/main.py:198-207 | the loop over the stored activities replaces each matched one by its updated form, in place |
| `JsonStore.LastUpdateWins` | backend/main.py:200 | for every id the map holds the last update with that id |
| `JsonStore.OverwriteEffect` | backend/main.py:198-207 | an unnamed activity is unchanged; a named one keeps its id and other keys, gets progress/status/notes only where the last update with its id has them, and `last_updated` set to the extraction date or "Unknown" |
| `JsonStore.UnknownUpdateIgnored` | backend/main.py:200-203 | an update whose id matches no stored activity changes nothing, wherever it stands in the list |
| `JsonStore.UpdatesMapWithout` | backend/main.py:200 | leaving one update out does not change the map's entries for the other ids |
| `JsonStore.ApplyIdempotent` | backend/main.py:204-207 | applying one update twice is applying it once |
| `JsonStore.OverwriteIdempotent` | backend/main.py:198-207 | overwriting twice with the same updates gives the same file as once |
| `JsonStore.StampDate` | backend/main.py:364-365 | every activity update gets the report's date as `date_extracted`, nothing else changes |
| `JsonStore.CommittedActivityDated` | backend/main.py:363-366 | through the commit endpoint every matched activity's `last_updated` is the report's date |
| `JsonStore.UpdatesMapValues` | backend/main.py:200 | every entry of the map is one of the updates, under its own id |
| `JsonStore.CommittedFiles` | backend/main.py:341-420 | on the success path, the performance and narrative logs are written iff there are indicator updates, activities.json iff activity updates, budget_spent.json iff budget updates and the file exists with an `expenditure_summary` |
| `JsonStore.Commit` | backend/main.py:341-376 | the commit succeeds iff no indicator update lacks a narrative and no budget update meets a spent file without `expenditure_summary`; what was written is always a prefix of the success-path list, all of it unless the narratives step raised, and then only the performance log |
| `SpentUpdate.ActivityLookup` | backend/main.py:387-390 | every lookup entry points at an activity with that id |
| `SpentUpdate.BuildActivityLookup` | backend/main.py:387-390 | the nested loops build exactly that lookup |
| `SpentUpdate.LookupStep` | backend/main.py:390 | one assignment keeps the lookup pointing at the last visited activity of each id |
| `SpentUpdate.NextOutput` | backend/main.py:388-389 | moving to the next output keeps the lookup invariant |
| `SpentUpdate.LookupFromInvariant` | backend/main.py:387-390 | finishing the loops from any point keeps the lookup invariant |
| `SpentUpdate.LookupIsLastPosition` | backend/main.py:387-390 | the lookup holds every id of the file, each at the last activity listed with it |
| `SpentUpdate.SetAt` | backend/main.py:400-406 | changing one activity keeps the document's shape and every other activity |
| `SpentUpdate.Credit` | backend/main.py:398-406 | the amount (0 when missing) is added to the update's year (2026 when missing), other years are kept, and `total_spent` becomes the 2024–2027 sum |
| `SpentUpdate.ApplyUpdate` | backend/main.py:393-406 | an update keeps the document's shape and the lookup valid |
| `SpentUpdate.ApplyUpdates` | backend/main.py:393-406 | the updates in order keep the shape and the lookup valid |
| `SpentUpdate.ApplyAll` | backend/main.py:393-406 | the update loop applies exactly the updates in order |
| `SpentUpdate.UpdateElsewhere` | backend/main.py:398-399 | an update aimed elsewhere leaves the activity alone |
| `SpentUpdate.UpdateHere` | backend/main.py:398-406 | the updated activity is credited and its total is its 2024–2027 sum |
| `SpentUpdate.UntouchedUnchanged` | backend/main.py:393-406 | an activity no update reaches is as it was |
| `SpentUpdate.TouchedTotalRecomputed` | backend/main.py:403-406 | an activity any update reaches ends with its total equal to its 2024–2027 sum |
| `SpentUpdate.UnknownUpdateIgnored` | backend/main.py:395-399 | an update without an id, or with one not in the file, changes nothing |
| `SpentUpdate.DefaultsOfUpdate` | backend/main.py:396-397 | a missing year means 2026 and a missing amount adds 0, still creating the year's key |
| `SpentUpdate.YearOutsideTotalIgnored` | backend/main.py:401-406 | a year outside 2024–2027 is recorded but not counted in the total |
| `SpentUpdate.CreditsAccumulate` | backend/main.py:401-403 | two updates of one year credit as much as one of their sum |
| `SpentUpdate.CostTotals` | backend/main.py:415-416 | one figure per support cost, 0 when its total is missing |
| `SpentUpdate.Cumulative` | backend/main.py:408-416 | the cumulative figure is the activities' totals plus the support costs' totals |
| `SpentUpdate.UpdateBudgetSpent` | backend/main.py:379-421 | no result iff the file lacks `expenditure_summary`; otherwise the updated outputs, the same support costs and the recomputed cumulative figure |
| `Uploader.Analyze` | src/components/SmartUploader.tsx:78-95 | the extraction is empty iff all three lists are empty (a missing budget list counting as empty); otherwise the preview is the response with the budget list defaulted to `[]`, and the copy equals it |
| `Uploader.CorrectionsAmong` | src/components/SmartUploader.tsx:112-118 | among the first n indicators at most n corrections are counted |
| `Uploader.CountCorrections` | src/components/SmartUploader.tsx:109-135 | the loop counts exactly the indices whose value differs from the copy's, skipping indices beyond the copy |
| `Uploader.NoCorrections` | src/components/SmartUploader.tsx:116-118 | the count is 0 iff no index was corrected |
| `Uploader.UneditedHasNoCorrections` | src/components/SmartUploader.tsx:95-116 | a preview compared with its own copy has no corrections |
| `Uploader.AllCorrected` | src/components/SmartUploader.tsx:116-118 | the count equals the number of indicators iff every value was changed |
| `Uploader.OneEditCounts` | src/components/SmartUploader.tsx:116-201 | one value edit changes the count by at most one, up when it now differs from the copy, down when it is set back |
| `Uploader.FilesModified` | src/components/SmartUploader.tsx:147-156 | the logs are listed iff there are indicators, activities.json iff activities, budget_spent.json iff budget updates; no file twice |
| `Uploader.KeepTrue` | src/components/SmartUploader.tsx:559-565 | dropping the false entries never lengthens the list |
| `Uploader.FilesAffectedAreModified` | src/components/SmartUploader.tsx:559-566 | the "Files affected" line before saving names the files the commit report names afterwards, in the same order |
| `Uploader.KeepTrueOfFour` | src/components/SmartUploader.tsx:559-565 | `filter(Boolean)` over four candidates keeps the true ones in order |
| `Uploader.FilesModifiedInPieces` | src/components/SmartUploader.tsx:147-156 | the three guarded pushes concatenate in order |
| `Uploader.FilesModifiedAreWritten` | src/components/SmartUploader.tsx:147-156 | the report's file list is the list of files the backend writes on success, in its order, plus budget_spent.json when there are budget updates but the backend skips that file (absent) or fails on it (no `expenditure_summary`) |
| `Uploader.Label` | src/components/SmartUploader.tsx:162 | a narrative of at most 50 characters is kept whole; a longer one becomes its first 50 characters followed by "..." |
| `Uploader.LabelIsPrefix` | src/components/SmartUploader.tsx:162 | a label has at most 53 characters and starts as the narrative does |
| `Uploader.CommitReportOf` | src/components/SmartUploader.tsx:158-176 | one report line per indicator, activity and budget update, in order, with the listed fields, the labels, the file list and the corrections count |
| `Uploader.HandleCommit` | src/components/SmartUploader.tsx:104-188 | without preview or copy nothing changes; a failed save only ends loading; a successful one shows the report and clears the preview, the copy and the file |
| `Uploader.UpdateItem` | src/components/SmartUploader.tsx:191-201 | only the edited list changes, at the edited index only, and the item keeps its id |
| `Uploader.EditChangesOneField` | src/components/SmartUploader.tsx:198-199 | the edited item differs from the old one in the edited field only |
| `Uploader.RevertedEditNotCounted` | src/components/SmartUploader.tsx:116-201 | setting a value back to the analysed one removes its correction |
| `Uploader.SpliceStart` | src/components/SmartUploader.tsx:207 | `splice`'s start is within the list |
| `Uploader.RemoveBudgetItem` | src/components/SmartUploader.tsx:204-209 | removes exactly the item at a valid index, shifting the later ones down; an index past the end removes nothing; the other lists are kept |
| `Uploader.RemovePermutes` | src/components/SmartUploader.tsx:206-207 | the removed item is the only loss: the new list plus it is the old list as a multiset |
| `UploaderSection.SectionFiles` | src/components/dashboard/SmartUploaderSection.tsx:134-143 | this copy lists its performance and narrative names iff there are indicators, "activities" iff activities, "expenditures" iff budget updates |
| `UploaderSection.FilesCopiesAgree` | src/components/dashboard/SmartUploaderSection.tsx:134-143 | both uploaders list the same files in the same order, each under its own name |
| `UploaderSection.SectionFilesInPieces` | src/components/dashboard/SmartUploaderSection.tsx:134-143 | the three guarded pushes concatenate in order |
| `UploaderSection.PiecesRenamed` | src/components/dashboard/SmartUploaderSection.tsx:134-143 | renaming this copy's pieces gives the page's pieces |
| `UploaderSection.PageNames` | src/components/dashboard/SmartUploaderSection.tsx:136-142 | each name of this copy corresponds to one file name of the page |
| `UploaderSection.RenamedPieces` | src/components/dashboard/SmartUploaderSection.tsx:134-143 | renaming two lists element by element renames their concatenation |
| `UploaderSection.SectionLabel` | src/components/dashboard/SmartUploaderSection.tsx:149 | the label is the first (at most) 50 characters followed by "...", whatever the length |
| `UploaderSection.LabelCopiesCompared` | src/components/dashboard/SmartUploaderSection.tsx:149 | the two uploaders label a narrative alike iff it is longer than 50 characters |
| `UploaderSection.SectionReportOf` | src/components/dashboard/SmartUploaderSection.tsx:145-163 | the report has one line per indicator with this copy's label, the page's activity and budget lines, this copy's file names and the corrections count |
| `UploaderSection.HandleCommit` | src/components/dashboard/SmartUploaderSection.tsx:100-173 | without preview or copy nothing changes; a failed save only ends loading; a successful one shows the report and clears the preview and the file but keeps the copy |
| `UploaderSection.HandleReset` | src/components/dashboard/SmartUploaderSection.tsx:175-181 | the file, preview, copy, report and empty-extraction flag are cleared; the panel and loading flag are kept |
| `UploaderSection.ResetIdempotent` | src/components/dashboard/SmartUploaderSection.tsx:175-181 | resetting twice is resetting once, and leaves no preview to commit |
| `UploaderSection.InlineEdit` | src/components/dashboard/SmartUploaderSection.tsx:323-327 | only the edited indicator's value changes, to `parseFloat` of the text or 0 |
| `UploaderSection.InlineEditCorrection` | src/components/dashboard/SmartUploaderSection.tsx:323-327 | after an inline edit the indicator counts as corrected iff the parsed value differs from the analysed one |
| `UploaderSection.InlineEditOfText` | src/components/dashboard/SmartUploaderSection.tsx:325 | unparsable text sets the value to 0 |
| `Utils.CalcPercent` | src/lib/utils.ts:38-41 | 0 for a zero total; otherwise never above 100, exactly 100 iff the rounded percentage reaches 100, and below that the nearest integer to the percentage |
| `Utils.CalcPercentOfWhole` | src/lib/utils.ts:38-41 | the whole of a non-zero total is 100% |
| `Utils.CalcPercentOfPart` | src/lib/utils.ts:38-41 | a part of a positive total lies in [0, 100] and a larger part never shows less |
| `Utils.CalcPercentOfNegativeRatio` | src/lib/utils.ts:40 | the result is not clamped below: 1 of −4 is −25 |
| `Utils.BandOf` | src/lib/utils.ts:46-59 | green iff at least 80, amber iff in [50, 80), red iff below 50 |
| `Utils.ColourAndBackgroundAgree` | src/lib/utils.ts:46-59 | `getStatusColor` and `getStatusBg` pick from the same band, so two percentages share a text class iff they share a background |
| `Utils.BandMonotone` | src/lib/utils.ts:46-59 | the band never improves as the percentage falls |
| `Utils.StaggerSpacing` | src/lib/utils.ts:64-66 | the first item starts at once, consecutive items are one base delay apart, the default base is 0.1, and a positive base makes delays grow with the index |
| `Centers.Regions` | src/components/dashboard/CentersMapSection.tsx:329 | one region per center, position by position |
| `Centers.Stats` | src/components/dashboard/CentersMapSection.tsx:317-330 | each card counts the centers whose field equals its string; the region count is the number of distinct regions, at most the total and 0 iff there are no centers |
| `Centers.SumCountsOfTwo` | src/components/dashboard/CentersMapSection.tsx:317-318 | the counts of two strings add as two counts |
| `Centers.SumCountsOfThree` | src/components/dashboard/CentersMapSection.tsx:326-328 | the counts of three strings add as three counts |
| `Centers.StatusCountsCoverTotal` | src/components/dashboard/CentersMapSection.tsx:317-322 | operational plus non-operational never exceeds the total, and equals it iff every status is one of the two |
| `Centers.KindCountsCoverTotal` | src/components/dashboard/CentersMapSection.tsx:326-328 | universities, schools and mairies never exceed the total, and equal it iff every type is one of the three |
| `Centers.PhaseCountsAtMostTotal` | src/components/dashboard/CentersMapSection.tsx:324-325 | the two phase counts never exceed the total |
| `Centers.DistinctCardinality` | src/components/dashboard/CentersMapSection.tsx:329 | distinct strings are as many as the set they form |
| `Centers.RegionsAreDistinctStrings` | src/components/dashboard/CentersMapSection.tsx:329 | the region count is the number of different region strings |
| `Centers.OperationalWidth` | src/components/dashboard/CentersMapSection.tsx:392 | no width iff there are no centers; otherwise within [0, 100], and 100 when all are operational |
| `Centers.OperationalWidthOfCenters` | src/components/dashboard/CentersMapSection.tsx:317-392 | for a non-empty map the bar lies in [0, 100] and is full iff every center is operational |
| `Centers.AllOperationalCount` | src/components/dashboard/CentersMapSection.tsx:317 | the operational count is the total iff every center is operational |
| `Centers.ShareBelowWhole` | src/components/dashboard/CentersMapSection.tsx:392 | a part below the whole is below 100% |
| `Centers.FilterCountBelow` | src/components/dashboard/CentersMapSection.tsx:317 | a center the filter drops makes the count smaller than the total |

## Left out

- Rendering: JSX, animation, maps, SVG geometry, styling and routing. Only the values that the
  pages compute and then display are modelled.
- I/O: `fetch`, `Promise.all`/`allSettled`, the FastAPI endpoints, the OpenAI calls, text
  extraction from PDF/DOCX/XLSX files, and the reading and writing of JSON files. The loaded
  data are parameters. The back end's writes are modelled as functions and methods from the old
  contents to the new ones.
- The learn-from-mistake requests the uploaders send on commit. They are network calls with no
  local effect.
- Word export (`downloadWord`) and the database seed script: serialisation and SQL through
  libraries that are not part of this model.
- Locale and number formatting (`toLocaleString`, `toFixed`, `Intl.NumberFormat`,
  `formatNumber`, `formatCurrency`), `cn`, and the text of alert and log messages. Alerts are
  modelled by their kind and the activity they name.
- JavaScript `Date` parsing, time zones and `new Date()`. Dates are civil (year, month, day)
  triples or whole numbers of days, and "today" is a parameter.
- Floating point. Arithmetic is exact `real` arithmetic, so results that IEEE-754 rounding puts
  on the other side of a threshold (45 × 1.1 is 49.50000000000001 in a browser) may differ from
  the browser's.
- Division by zero, where the source produces `NaN` or `Infinity`:
  - `ActivitySection.CalculateBarPosition`, `GanttChart.CalculateBarPosition`,
    `Timeline.MarkerPosition` and `Timeline.TodayPosition` require the project end to differ from
    its start.
  - `BudgetData.BurnRateUncapped` requires a positive total budget.
- `RiskData.BuildMatrix`: requires likelihood and impact in 1..5. Outside that range the source
  indexes outside its 5×5 grid and fails or stores `NaN`.
- `RiskData.BuildMatrix`: `risksAt` is keyed by the pair (likelihood, impact) rather than the
  string "L-I". The two keys are in one-to-one correspondence.
- `Numeric.ParseFloat`: exponents and `Infinity` are not modelled. Of leading white space only
  space, tab, line feed and carriage return are skipped, while JavaScript's `parseFloat` and
  `parseInt` skip every white-space and line-terminator character. After the blanks it reads an
  optional sign, digits and an optional fraction.
- `Text.Below`: the order is code-point order, which is exactly the order of Python's `sorted`.
  The default `sort()` of `Array.from(cats).sort()` and `uniqueOutputs.sort()` compares UTF-16
  code units instead, so a character above U+FFFF (a surrogate pair) sorts before U+E000–U+FFFF
  there and after them here. `localeCompare` uses the locale's collation, which is not
  modelled either.
- `Uploader.Label`, `UploaderSection.SectionLabel`: lengths and the cut at 50 count code points.
  JavaScript's `length` and `substring(0, 50)` count UTF-16 code units, so a narrative with a
  character above U+FFFF among its first 50 is cut elsewhere in the source, possibly through a
  surrogate pair.
- `Text.Lower`: only ASCII letters are lower-cased. The full Unicode mapping of `toLowerCase`
  is not modelled.
- `Report.GenerateReport`: requires the actuals and narrative files to be non-empty. The source
  reads their first element without a check and fails on an empty file.
- `JsonStore.OverwriteActivities`: requires every update to carry an id. An update without one
  raises `KeyError` in the source.
- `BudgetContext.ReadTable`: a plan entry with `total` set to `null` is not modelled. Totals are
  numbers or missing.
- `BudgetContext.LoadBudgetContext`: a spending record whose `total_spent` is `null` is not
  modelled. The source stores the `None`, and then the percentage (`spent / planned`) or the
  row's `:,.0f` format raises `TypeError`. Both lines are outside the `try`, so building the
  context fails. The model's amounts are numbers or missing, and a missing one reads as 0.
- `SpentUpdate.UpdateBudgetSpent`: `null` figures are not modelled. In the source, a `null`
  update `amount`, `spent_<year>`, `total_spent` or support-cost `total` raises `TypeError` in
  an addition before the file is written. The model's figures are numbers or missing, and a
  missing one counts as 0.
- `UploaderSection.InlineEdit`: the section writes the edited value into the preview object in
  place, through a reference it shares with the rendered list. The model returns the new preview
  as a value, so that aliasing is not captured.
- `JsonStore.Commit`: the commit is not atomic. Files appended or rewritten before an exception
  stay written, and the endpoint answers HTTP 500. Of the exceptions, only a missing `narrative`
  and a missing `expenditure_summary` are modelled. An indicator update without `id` or `value`,
  an activity update without `id` and unreadable files are not.
- `SpentUpdate.BuildActivityLookup`: stored spent activities must carry an `id`. An activity
  without one raises `KeyError` in the source before anything is written, and the model's
  activities always have an id.
- `SpentUpdate.BuildActivityLookup`: the source maps ids to the activity dictionaries
  themselves, which later updates mutate. The model maps ids to positions in the list, which
  denote the same activities.
- Data hooks with fixed values and no logic (`useGENIEData`, `useKPIData`, the dashboard's
  constant budget figures), display-only components and the type files. Mitigation and
  contingency plans are modelled only as data attached to risks.
