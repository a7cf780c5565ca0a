/** The dashboard activity section (src/components/dashboard/ActivitySection.tsx): the
    normalisation of raw statuses onto five display statuses, the status cards, the bar
    geometry with a minimum width of 2%, and the progress fill capped at 100%. The year
    markers and today marker are Timeline's; the output drop-down is Activities'. */
module ActivitySection {
  import opened Seqs
  import opened Numeric
  import opened Activities
  import opened Timeline

  /** The section's own status union, with 'Off Track' where the data says 'Critical'. */
  datatype ActivityStatus = Completed | OnTrack | Delayed | OffTrack | NotStarted

  /** The string each status is displayed as. */
  function StatusName(s: ActivityStatus): string
  {
    match s
    case Completed => "Completed"
    case OnTrack => "On Track"
    case Delayed => "Delayed"
    case OffTrack => "Off Track"
    case NotStarted => "Not Started"
  }

  /** `normalizeStatus`: 'Exceeded' counts as On Track, 'Critical' as Off Track, and every other
      string, 'Off Track' included, as Not Started. */
  function NormalizeStatus(raw: string): (s: ActivityStatus)
    ensures s == Completed <==> raw == "Completed"
    ensures s == OnTrack <==> raw == "On Track" || raw == "Exceeded"
    ensures s == Delayed <==> raw == "Delayed"
    ensures s == OffTrack <==> raw == "Critical"
    ensures s == NotStarted <==> raw !in {"Completed", "On Track", "Exceeded", "Delayed", "Critical"}
  {
    match raw
    case "Completed" => Completed
    case "On Track" => OnTrack
    case "Exceeded" => OnTrack
    case "Delayed" => Delayed
    case "Critical" => OffTrack
    case _ => NotStarted
  }

  /** Normalising a displayed status gives it back, except for Off Track, which becomes Not
      Started: the mapping is not idempotent. */
  lemma NormalizeDisplayed(s: ActivityStatus)
    ensures s != OffTrack ==> NormalizeStatus(StatusName(s)) == s
    ensures NormalizeStatus(StatusName(OffTrack)) == NotStarted
  {
  }

  function StatusOf(a: Activity): ActivityStatus { NormalizeStatus(a.status) }

  const STATUS_ORDER: seq<ActivityStatus> := [Completed, OnTrack, Delayed, OffTrack, NotStarted]

  /** The six status cards. */
  datatype Stats = Stats(total: nat, completed: nat, onTrack: nat, delayed: nat, offTrack: nat, notStarted: nat)

  /** `stats`: the activity count and, per display status, how many activities normalise to
      it. Every activity lands in exactly one card, so the five counts sum to the total. */
  function ActivityStats(activities: seq<Activity>): (st: Stats)
    ensures st.total == |activities|
    ensures st.completed == CountOf(activities, StatusOf, Completed)
    ensures st.onTrack == CountOf(activities, StatusOf, OnTrack)
    ensures st.delayed == CountOf(activities, StatusOf, Delayed)
    ensures st.offTrack == CountOf(activities, StatusOf, OffTrack)
    ensures st.notStarted == CountOf(activities, StatusOf, NotStarted)
    ensures st.completed + st.onTrack + st.delayed + st.offTrack + st.notStarted == st.total
  {
    var st := Stats(|activities|,
      CountOf(activities, StatusOf, Completed), CountOf(activities, StatusOf, OnTrack),
      CountOf(activities, StatusOf, Delayed), CountOf(activities, StatusOf, OffTrack),
      CountOf(activities, StatusOf, NotStarted));
    CountsSumToTotal(activities, StatusOf, STATUS_ORDER);
    SumCountsOfFive(activities, StatusOf, Completed, OnTrack, Delayed, OffTrack, NotStarted);
    st
  }

  /** An activity whose raw status is 'Off Track' is shown under Not Started. */
  lemma OffTrackCountedAsNotStarted(a: Activity)
    requires a.status == "Off Track"
    ensures ActivityStats([a]).notStarted == 1 && ActivityStats([a]).offTrack == 0
  {
    NormalizeDisplayed(OffTrack);
    assert StatusOf(a) == NotStarted;
    assert Is(StatusOf, NotStarted)(a);
    assert Filter([a], Is(StatusOf, NotStarted)) == [a];
    assert Filter([a], Is(StatusOf, OffTrack)) == [];
  }

  /** `calculateBarPosition`: the left edge clamped to [0, 100]; the width at least 2 and at
      most 100 minus the unclamped left edge. */
  function CalculateBarPosition(plannedStart: int, plannedEnd: int, projectStart: int, projectEnd: int): (b: Bar)
    requires projectEnd != projectStart
    ensures 0.0 <= b.left <= 100.0
    ensures b.width >= 2.0
    ensures var l := RawLeft(plannedStart, projectStart, projectEnd);
            (0.0 <= l <= 100.0 ==> b.left == l) && (l < 0.0 ==> b.left == 0.0) && (l > 100.0 ==> b.left == 100.0)
    ensures var l := RawLeft(plannedStart, projectStart, projectEnd);
            var w := RawWidth(plannedStart, plannedEnd, projectStart, projectEnd);
            (2.0 <= w <= 100.0 - l ==> b.width == w) && (w > 100.0 - l >= 2.0 ==> b.width == 100.0 - l)
            && (Min(100.0 - l, w) < 2.0 ==> b.width == 2.0)
    ensures 0.0 <= RawLeft(plannedStart, projectStart, projectEnd) <= 98.0 ==> b.left + b.width <= 100.0
  {
    var left := RawLeft(plannedStart, projectStart, projectEnd);
    var width := RawWidth(plannedStart, plannedEnd, projectStart, projectEnd);
    Bar(Max(0.0, Min(100.0, left)), Max(2.0, Min(100.0 - left, width)))
  }

  /** Near the project's end the minimum width pushes the bar past 100%. */
  lemma BarOverflowsNearEnd()
    ensures var b := CalculateBarPosition(99, 100, 0, 100);
            b.left == 99.0 && b.width == 2.0 && b.left + b.width > 100.0
  {
  }

  /** `barPos.width * (Math.min(activity.progress, 100) / 100)`. */
  function ProgressWidth(barWidth: real, progress: real): (w: real)
    ensures 0.0 <= barWidth && 0.0 <= progress ==> 0.0 <= w <= barWidth
    ensures progress <= 100.0 ==> w == barWidth * progress / 100.0
    ensures progress >= 100.0 ==> w == barWidth
  {
    barWidth * (Min(progress, 100.0) / 100.0)
  }
}
