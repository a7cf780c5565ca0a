/** Activities of the work plan (src/types/activity.ts) and the output drop-down shared, in
    identical code, by the dashboard activity section and the activity tracker page. */
module Activities {
  import opened Seqs
  import opened Text
  import opened Sorting

  /** An activity. Dates are timestamps (`Date.getTime()`) in any one unit; the status is the
      raw string of the data file. */
  datatype Activity = Activity(
    id: string, output: string, outputName: string, name: string, description: string,
    plannedStart: int, plannedEnd: int, progress: real, status: string,
    responsible: string, notes: string)

  function OutputOf(a: Activity): string { a.output }

  /** `activities.map(a => a.output)`. */
  function Outputs(activities: seq<Activity>): (r: seq<string>)
    ensures |r| == |activities| && forall i :: 0 <= i < |r| ==> r[i] == activities[i].output
  {
    seq(|activities|, i requires 0 <= i < |activities| => activities[i].output)
  }

  /** `[...new Set(activities.map(a => a.output))].sort()`: each output once, in code-point order. */
  function OutputOptions(activities: seq<Activity>): (r: seq<string>)
    ensures forall o :: o in r <==> exists i :: 0 <= i < |activities| && activities[i].output == o
    ensures Distinct(r)
    ensures forall i, j :: 0 <= i < j < |r| ==> Below(r[i], r[j]) && r[i] != r[j]
  {
    var outs := Outputs(activities);
    var r := SortedUnique(outs);
    assert forall o :: o in outs <==> exists i :: 0 <= i < |activities| && activities[i].output == o by {
      forall o | o in outs
        ensures exists i :: 0 <= i < |activities| && activities[i].output == o
      {
        var i :| 0 <= i < |outs| && outs[i] == o;
      }
      forall i | 0 <= i < |activities|
        ensures activities[i].output in outs
      {
        assert outs[i] == activities[i].output;
      }
    }
    r
  }

  function Any(): Activity -> bool { (a: Activity) => true }

  function HasOutput(output: string): Activity -> bool { (a: Activity) => a.output == output }

  /** `filter === 'all' ? activities : activities.filter(a => a.output === filter)`. */
  function FilterByOutput(activities: seq<Activity>, filter: string): (r: seq<Activity>)
    ensures filter == "all" ==> r == activities
    ensures filter != "all" ==> forall a :: a in r <==> a in activities && a.output == filter
    ensures Subsequence(r, activities)
  {
    if filter == "all" then
      FilterAll(activities, Any());
      FilterIsSubsequence(activities, Any());
      activities
    else
      var r := Filter(activities, HasOutput(filter));
      FilterIsSubsequence(activities, HasOutput(filter));
      assert forall a :: a in activities && a.output == filter ==> a in r by {
        forall a | a in activities && a.output == filter
          ensures a in r
        {
          var i :| 0 <= i < |activities| && activities[i] == a;
          assert HasOutput(filter)(activities[i]);
        }
      }
      assert forall a :: a in r ==> HasOutput(filter)(a);
      r
  }
}
