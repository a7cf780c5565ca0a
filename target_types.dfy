/** Logframe records shared by the progress views (the shapes of src/types/target.ts). */
module TargetTypes {
  import opened Wrappers
  import opened Numeric

  /** Status vocabulary of the Targets & Milestones page and its output sections. */
  datatype TargetStatus = OnTrack | Behind | Ahead | NotStarted

  datatype YearTargets = YearTargets(y2024: Value, y2025: Value, y2026: Value, y2027: Value, total: Value)

  /** A logframe indicator; an empty text field stands for a missing one. */
  datatype Indicator = Indicator(
    id: string,
    parentId: string,
    parentDesc: string,
    labelText: string,
    baseline: string,
    targets: YearTargets,
    meansOfVerification: string,
    sourceOfData: string,
    frequency: string)

  /** One indicator's progress inside an output group. */
  datatype IndicatorProgress = IndicatorProgress(
    id: string, labelText: string, target: real, actual: real, unit: string, status: TargetStatus)

  /** An output together with the progress of its indicators. */
  datatype OutputGroup = OutputGroup(
    id: string, name: string, description: string, component: int, indicators: seq<IndicatorProgress>)

  /** A headline outcome card. */
  datatype OutcomeIndicator = OutcomeIndicator(
    id: string, name: string, icon: string, baseline: real, target: real, actual: real, unit: string,
    status: TargetStatus)

  /** One dated snapshot of observed indicator values. */
  datatype PerformanceActual = PerformanceActual(date: string, source: string, values: map<string, real>)

  /** The snapshot the views read: the first element of the list (`actualsData[0]`). */
  function Latest(snapshots: seq<PerformanceActual>): (r: Option<PerformanceActual>)
    ensures r.Some? <==> |snapshots| > 0
    ensures r.Some? ==> r.value == snapshots[0]
  {
    if |snapshots| > 0 then Some(snapshots[0]) else None
  }

  /** `actuals.values[id] || 0`: an id absent from the snapshot has actual 0. */
  function ActualOf(values: map<string, real>, id: string): (a: real)
    ensures id !in values ==> a == 0.0
    ensures id in values ==> a == values[id]
  {
    if id in values then values[id] else 0.0
  }

  /** The normalised total target of an indicator. */
  function TotalTarget(ind: Indicator): real
  {
    ParseNumber(ind.targets.total)
  }

  /** The first indicator with the given id (`indicators.find(i => i.id === id)`). */
  function Find(indicators: seq<Indicator>, id: string): (r: Option<Indicator>)
    ensures r.Some? ==> r.value in indicators && r.value.id == id
    ensures r.None? <==> forall i :: 0 <= i < |indicators| ==> indicators[i].id != id
    ensures r.Some? ==> exists k :: 0 <= k < |indicators| && indicators[k] == r.value
                          && forall j :: 0 <= j < k ==> indicators[j].id != id
  {
    if indicators == [] then None
    else if indicators[0].id == id then Some(indicators[0])
    else
      var rest := Find(indicators[1..], id);
      if rest.Some? then
        var k :| 0 <= k < |indicators[1..]| && indicators[1..][k] == rest.value
                 && forall j :: 0 <= j < k ==> indicators[1..][j].id != id;
        assert indicators[k + 1] == rest.value;
        assert forall j :: 0 <= j < k + 1 ==> indicators[j].id != id by {
          forall j | 0 <= j < k + 1 ensures indicators[j].id != id {
            if j > 0 { assert indicators[j] == indicators[1..][j - 1]; }
          }
        }
        rest
      else rest
  }
}
