/** The activity tracker page (src/pages/ActivityTracker.tsx): status cards counted on the raw
    status strings of the data file, with no normalisation. The output drop-down and filter
    are Activities'. */
module ActivityTracker {
  import opened Seqs
  import opened Activities
  import ActivitySection

  function RawStatus(a: Activity): string { a.status }

  /** The five members of the `ActivityStatus` union of src/types/activity.ts. */
  const STATUS_UNION: seq<string> := ["Completed", "On Track", "Delayed", "Critical", "Not Started"]

  datatype Stats = Stats(total: nat, completed: nat, onTrack: nat, delayed: nat, critical: nat, notStarted: nat)

  /** `stats`: each card counts the activities whose status is exactly that string. */
  function TrackerStats(activities: seq<Activity>): (st: Stats)
    ensures st.total == |activities|
    ensures st.completed == CountOf(activities, RawStatus, "Completed")
    ensures st.onTrack == CountOf(activities, RawStatus, "On Track")
    ensures st.delayed == CountOf(activities, RawStatus, "Delayed")
    ensures st.critical == CountOf(activities, RawStatus, "Critical")
    ensures st.notStarted == CountOf(activities, RawStatus, "Not Started")
    ensures st.completed + st.onTrack + st.delayed + st.critical + st.notStarted
            + |Filter(activities, Outside(RawStatus, STATUS_UNION))| == st.total
  {
    var st := Stats(|activities|,
      CountOf(activities, RawStatus, "Completed"), CountOf(activities, RawStatus, "On Track"),
      CountOf(activities, RawStatus, "Delayed"), CountOf(activities, RawStatus, "Critical"),
      CountOf(activities, RawStatus, "Not Started"));
    CountsPartition(activities, RawStatus, STATUS_UNION);
    SumCountsOfFive(activities, RawStatus, "Completed", "On Track", "Delayed", "Critical", "Not Started");
    st
  }

  /** The five cards add up to the total exactly when every status is a member of the union;
      any other string is counted on no card. */
  lemma CardsCoverAllIff(activities: seq<Activity>)
    ensures var st := TrackerStats(activities);
            st.completed + st.onTrack + st.delayed + st.critical + st.notStarted == st.total
            <==> forall i :: 0 <= i < |activities| ==> activities[i].status in STATUS_UNION
  {
    NoneOutside(activities, RawStatus, STATUS_UNION);
  }

  /** The page and the dashboard section disagree on 'Exceeded': the page counts it nowhere,
      the section counts it as On Track. */
  lemma ExceededCountedDifferently(a: Activity)
    requires a.status == "Exceeded"
    ensures var st := TrackerStats([a]);
            st.completed + st.onTrack + st.delayed + st.critical + st.notStarted == 0
    ensures ActivitySection.ActivityStats([a]).onTrack == 1
  {
    assert forall j :: 0 <= j < |STATUS_UNION| ==> STATUS_UNION[j][0] != a.status[0];
    assert RawStatus(a) !in STATUS_UNION;
    assert Outside(RawStatus, STATUS_UNION)(a);
    FilterSingleton(a, Outside(RawStatus, STATUS_UNION));
    assert ActivitySection.StatusOf(a) == ActivitySection.OnTrack;
    FilterSingleton(a, Is(ActivitySection.StatusOf, ActivitySection.OnTrack));
  }
}
