/** The collapsible output section of the Targets & Milestones page
    (src/components/OutputSection.tsx): the header's overall progress and overall status. */
module OutputSection {
  import opened Numeric
  import opened Seqs
  import opened TargetTypes

  predicate HasTarget(ind: IndicatorProgress)
  {
    ind.target > 0.0
  }

  /** `Math.min(100, actual / target * 100)` for one indicator with a positive target. */
  function CappedPercent(ind: IndicatorProgress): (r: real)
    requires HasTarget(ind)
    ensures r <= 100.0
    ensures ind.actual >= 0.0 ==> r >= 0.0
  {
    RatioNonNegative(ind.actual, ind.target);
    Min(100.0, ind.actual / ind.target * 100.0)
  }

  lemma RatioNonNegative(actual: real, target: real)
    requires target > 0.0
    ensures actual >= 0.0 ==> actual / target * 100.0 >= 0.0
  {
    var ratio := actual / target;
    assert ratio * target == actual;
  }

  function CappedPercents(valid: seq<IndicatorProgress>): (r: seq<real>)
    requires forall i :: 0 <= i < |valid| ==> HasTarget(valid[i])
    ensures |r| == |valid|
    ensures forall i :: 0 <= i < |r| ==> r[i] <= 100.0
  {
    seq(|valid|, i requires 0 <= i < |valid| => CappedPercent(valid[i]))
  }

  /** `calculateOverallProgress`: the unrounded mean of the capped percentages of the indicators
      with a positive target; 0 when there are none. It never exceeds 100, and is never negative
      when no actual is. */
  function OverallProgress(output: OutputGroup): (r: real)
    ensures r <= 100.0
    ensures (forall i :: 0 <= i < |output.indicators| ==> !HasTarget(output.indicators[i])) ==> r == 0.0
    ensures (forall i :: 0 <= i < |output.indicators| ==> output.indicators[i].actual >= 0.0) ==> r >= 0.0
  {
    var valid := Filter(output.indicators, HasTarget);
    if |output.indicators| == 0 || |valid| == 0 then 0.0
    else
      MeanBounds(output.indicators, valid);
      Sum(CappedPercents(valid)) / |valid| as real
  }

  lemma MeanBounds(all: seq<IndicatorProgress>, valid: seq<IndicatorProgress>)
    requires |valid| > 0
    requires forall i :: 0 <= i < |valid| ==> HasTarget(valid[i])
    requires forall x :: x in valid ==> x in all
    ensures Sum(CappedPercents(valid)) / |valid| as real <= 100.0
    ensures (forall i :: 0 <= i < |all| ==> all[i].actual >= 0.0) ==> Sum(CappedPercents(valid)) / |valid| as real >= 0.0
  {
    var pcts := CappedPercents(valid);
    SumAtMost(pcts, 100.0);
    if forall i :: 0 <= i < |all| ==> all[i].actual >= 0.0 {
      forall i | 0 <= i < |pcts|
        ensures pcts[i] >= 0.0
      {
        assert valid[i] in all;
      }
      SumAtLeast(pcts, 0.0);
    }
  }

  /** Cap before average: indicators at 50% and 150% of target give 75, not 100. */
  lemma OverallProgressCapsBeforeAveraging()
    ensures var a := IndicatorProgress("a", "", 100.0, 50.0, "count", Behind);
            var b := IndicatorProgress("b", "", 100.0, 150.0, "count", Ahead);
            OverallProgress(OutputGroup("Output 1.1", "", "", 1, [a, b])) == 75.0
  {
    var a := IndicatorProgress("a", "", 100.0, 50.0, "count", Behind);
    var b := IndicatorProgress("b", "", 100.0, 150.0, "count", Ahead);
    FilterAll([a, b], HasTarget);
    var pcts := CappedPercents([a, b]);
    assert pcts == [50.0, 100.0];
    assert Sum(pcts) == 150.0 by {
      assert pcts[..1] == [50.0];
      assert [50.0][..0] == [];
    }
  }

  function Statuses(output: OutputGroup): (r: seq<TargetStatus>)
    ensures |r| == |output.indicators|
  {
    seq(|output.indicators|, i requires 0 <= i < |output.indicators| => output.indicators[i].status)
  }

  /** `calculateOverallStatus` over the list of member statuses. */
  function StatusOfAll(statuses: seq<TargetStatus>): TargetStatus
  {
    if |statuses| == 0 then NotStarted
    else if forall s :: s in statuses ==> s == NotStarted then NotStarted
    else if Ahead in statuses then Ahead
    else if Behind in statuses then Behind
    else OnTrack
  }

  /** The group status: Not Started when every member is (or there are none); otherwise any
      Ahead member wins, then any Behind member; what is left is On Track. */
  function OverallStatus(output: OutputGroup): (s: TargetStatus)
    ensures s == NotStarted <==> forall i :: 0 <= i < |output.indicators| ==> output.indicators[i].status == NotStarted
    ensures s == Ahead <==> exists i :: 0 <= i < |output.indicators| && output.indicators[i].status == Ahead
    ensures s == Behind <==>
      && (exists i :: 0 <= i < |output.indicators| && output.indicators[i].status == Behind)
      && (forall i :: 0 <= i < |output.indicators| ==> output.indicators[i].status != Ahead)
    ensures s == OnTrack <==>
      && (exists i :: 0 <= i < |output.indicators| && output.indicators[i].status == OnTrack)
      && (forall i :: 0 <= i < |output.indicators| ==> output.indicators[i].status !in {Ahead, Behind})
  {
    var statuses := Statuses(output);
    StatusOfAllMeaning(statuses);
    StatusesMembership(output);
    StatusOfAll(statuses)
  }

  lemma StatusesMembership(output: OutputGroup)
    ensures forall x :: x in Statuses(output) <==> exists i :: 0 <= i < |output.indicators| && output.indicators[i].status == x
  {
    var statuses := Statuses(output);
    forall x
      ensures x in statuses <==> exists i :: 0 <= i < |output.indicators| && output.indicators[i].status == x
    {
      if x in statuses {
        var i :| 0 <= i < |statuses| && statuses[i] == x;
        assert output.indicators[i].status == x;
      }
      if exists i :: 0 <= i < |output.indicators| && output.indicators[i].status == x {
        var i :| 0 <= i < |output.indicators| && output.indicators[i].status == x;
        assert statuses[i] == x;
      }
    }
  }

  lemma StatusOfAllMeaning(statuses: seq<TargetStatus>)
    ensures StatusOfAll(statuses) == NotStarted <==> forall i :: 0 <= i < |statuses| ==> statuses[i] == NotStarted
    ensures StatusOfAll(statuses) == Ahead <==> Ahead in statuses
    ensures StatusOfAll(statuses) == Behind <==> Behind in statuses && Ahead !in statuses
    ensures StatusOfAll(statuses) == OnTrack <==> OnTrack in statuses && Ahead !in statuses && Behind !in statuses
  {
    if exists i :: 0 <= i < |statuses| && statuses[i] != NotStarted {
      var i :| 0 <= i < |statuses| && statuses[i] != NotStarted;
      assert statuses[i] in statuses;
    }
  }

  /** The group status reads only which statuses occur, not their order or multiplicity: two
      lists with the same members get the same status. */
  lemma StatusDependsOnlyOnSet(a: seq<TargetStatus>, b: seq<TargetStatus>)
    requires forall x :: x in a <==> x in b
    ensures StatusOfAll(a) == StatusOfAll(b)
  {
    if |a| > 0 {
      assert a[0] in b;
    }
    if |b| > 0 {
      assert b[0] in a;
    }
  }

  /** [Ahead, Behind] is Ahead; [Behind, On Track] is Behind; [Not Started, On Track] is On Track. */
  lemma StatusPrecedenceExamples()
    ensures StatusOfAll([Ahead, Behind]) == Ahead
    ensures StatusOfAll([Behind, OnTrack]) == Behind
    ensures StatusOfAll([NotStarted, OnTrack]) == OnTrack
    ensures StatusOfAll([NotStarted, NotStarted]) == NotStarted
  {
    assert OnTrack in [NotStarted, OnTrack];
    assert [Behind, OnTrack][0] == Behind;
    assert [Ahead, Behind][0] == Ahead;
    assert Ahead !in [Behind, OnTrack];
    assert Ahead !in [NotStarted, OnTrack] && Behind !in [NotStarted, OnTrack];
  }
}
