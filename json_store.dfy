/** The backend's JSON updater (backend/main.py, `update_json_file`) and the order in which the
    commit endpoint (`commit_data`) writes the data files. The file is read into memory, changed
    and written back; the model covers the in-memory change. */
module JsonStore {
  import opened Wrappers
  import SpentUpdate

  /** What `json.load` gave for a data file: a list, some other JSON value, or a decode error. */
  datatype Stored<T> = List(items: seq<T>) | NotList | Unreadable

  /** The list the updater works on: anything but a list is replaced by `[]`. */
  function Items<T>(db: Stored<T>): seq<T>
  {
    if db.List? then db.items else []
  }

  /** Append mode: `current_db.append(new_data)`. The list grows by one, the new entry last. */
  method Append<T>(current: Stored<T>, newData: T) returns (db: seq<T>)
    ensures |db| == |Items(current)| + 1
    ensures db[|db| - 1] == newData && db[..|db| - 1] == Items(current)
    ensures current.List? ==> |db| == |current.items| + 1
    ensures !current.List? ==> db == [newData]
  {
    db := Items(current);
    db := db + [newData];
  }

  /** An activity of activities.json: its id (absent when the key is missing), the three keys an
      update can replace, `last_updated`, and every other key, which updates never touch. */
  datatype StoredActivity = StoredActivity(
    id: Option<string>, progress: Option<real>, status: Option<string>, notes: Option<string>,
    lastUpdated: Option<string>, rest: map<string, string>)

  /** An activity update; a key absent from the update dict is `None`. */
  datatype ActivityUpdate = ActivityUpdate(
    id: string, progress: Option<real>, status: Option<string>, notes: Option<string>,
    dateExtracted: Option<string>)

  /** `{item['id']: item for item in new_data}`: later updates overwrite earlier ones. */
  function UpdatesMap(updates: seq<ActivityUpdate>): (m: map<string, ActivityUpdate>)
    ensures forall id :: id in m <==> exists j :: 0 <= j < |updates| && updates[j].id == id
  {
    if updates == [] then map[]
    else
      var init := UpdatesMap(updates[..|updates| - 1]);
      var last := updates[|updates| - 1];
      assert forall j :: 0 <= j < |updates| - 1 ==> updates[..|updates| - 1][j] == updates[j];
      init[last.id := last]
  }

  /** An update's effect on one matched activity: each of progress, status and notes is replaced
      only when the update has that key; `last_updated` becomes the extraction date or
      "Unknown". */
  function Apply(a: StoredActivity, u: ActivityUpdate): StoredActivity
  {
    a.(progress := if u.progress.Some? then u.progress else a.progress,
       status := if u.status.Some? then u.status else a.status,
       notes := if u.notes.Some? then u.notes else a.notes,
       lastUpdated := Some(u.dateExtracted.GetOr("Unknown")))
  }

  /** One activity after the updates: changed when its id is one of the updated ids. */
  function ApplyIfListed(a: StoredActivity, m: map<string, ActivityUpdate>): StoredActivity
  {
    if a.id.Some? && a.id.value in m then Apply(a, m[a.id.value]) else a
  }

  /** The specification of overwrite mode: every activity, in place, after the updates. */
  function Overwritten(db: seq<StoredActivity>, m: map<string, ActivityUpdate>): (r: seq<StoredActivity>)
    ensures |r| == |db|
  {
    seq(|db|, i requires 0 <= i < |db| => ApplyIfListed(db[i], m))
  }

  /** Overwrite mode: the loop over the stored activities that changes the matched ones. */
  method OverwriteActivities(current: Stored<StoredActivity>, updates: seq<ActivityUpdate>)
    returns (db: seq<StoredActivity>)
    ensures db == Overwritten(Items(current), UpdatesMap(updates))
  {
    db := Items(current);
    var updatesMap := UpdatesMap(updates);
    for i := 0 to |db|
      invariant |db| == |Items(current)|
      invariant forall j :: 0 <= j < i ==> db[j] == ApplyIfListed(Items(current)[j], updatesMap)
      invariant forall j :: i <= j < |db| ==> db[j] == Items(current)[j]
    {
      var activity := db[i];
      var actId := activity.id;
      if actId.Some? && actId.value in updatesMap {
        var newVals := updatesMap[actId.value];
        db := db[i := Apply(activity, newVals)];
      }
    }
  }

  /** The updates map holds, for every id, the last update with that id. */
  lemma {:induction false} LastUpdateWins(updates: seq<ActivityUpdate>, j: int)
    requires 0 <= j < |updates|
    requires forall k :: j < k < |updates| ==> updates[k].id != updates[j].id
    ensures UpdatesMap(updates)[updates[j].id] == updates[j]
  {
    if j < |updates| - 1 {
      var init := updates[..|updates| - 1];
      assert init[j] == updates[j];
      forall k | j < k < |init|
        ensures init[k].id != init[j].id
      {
        assert init[k] == updates[k];
      }
      LastUpdateWins(init, j);
    }
  }

  /** Overwrite mode keeps the list's length; an activity whose id no update names is left as it
      was; a named one gets the last update with its id, with only the keys that update holds
      replaced, every other key kept and `last_updated` set. */
  lemma OverwriteEffect(db: seq<StoredActivity>, updates: seq<ActivityUpdate>, i: int)
    requires 0 <= i < |db|
    ensures |Overwritten(db, UpdatesMap(updates))| == |db|
    ensures var r := Overwritten(db, UpdatesMap(updates))[i];
            (db[i].id.None? || forall j :: 0 <= j < |updates| ==> updates[j].id != db[i].id.value) ==> r == db[i]
    ensures var r := Overwritten(db, UpdatesMap(updates))[i];
            forall j :: 0 <= j < |updates| && db[i].id == Some(updates[j].id) &&
                        (forall k :: j < k < |updates| ==> updates[k].id != updates[j].id) ==>
              var u := updates[j];
              r.id == db[i].id && r.rest == db[i].rest &&
              r.progress == (if u.progress.Some? then u.progress else db[i].progress) &&
              r.status == (if u.status.Some? then u.status else db[i].status) &&
              r.notes == (if u.notes.Some? then u.notes else db[i].notes) &&
              r.lastUpdated == Some(if u.dateExtracted.Some? then u.dateExtracted.value else "Unknown")
  {
    forall j | 0 <= j < |updates| && db[i].id == Some(updates[j].id) &&
               (forall k :: j < k < |updates| ==> updates[k].id != updates[j].id)
      ensures UpdatesMap(updates)[updates[j].id] == updates[j]
    {
      LastUpdateWins(updates, j);
    }
  }

  /** An update whose id matches no stored activity changes nothing, wherever it stands. */
  lemma UnknownUpdateIgnored(db: seq<StoredActivity>, before: seq<ActivityUpdate>, u: ActivityUpdate, after: seq<ActivityUpdate>)
    requires forall i :: 0 <= i < |db| ==> db[i].id != Some(u.id)
    ensures Overwritten(db, UpdatesMap(before + [u] + after)) == Overwritten(db, UpdatesMap(before + after))
  {
    var m1 := UpdatesMap(before + [u] + after);
    var m2 := UpdatesMap(before + after);
    forall i | 0 <= i < |db|
      ensures ApplyIfListed(db[i], m1) == ApplyIfListed(db[i], m2)
    {
      if db[i].id.Some? {
        var id := db[i].id.value;
        assert id != u.id;
        UpdatesMapWithout(before, u, after, id);
      }
    }
  }

  /** Leaving out an update changes nothing about the other ids. */
  lemma {:induction false} UpdatesMapWithout(before: seq<ActivityUpdate>, u: ActivityUpdate, after: seq<ActivityUpdate>, id: string)
    requires id != u.id
    ensures (id in UpdatesMap(before + [u] + after)) == (id in UpdatesMap(before + after))
    ensures id in UpdatesMap(before + after) ==> UpdatesMap(before + [u] + after)[id] == UpdatesMap(before + after)[id]
    decreases |after|
  {
    if after == [] {
      assert before + [u] + after == before + [u];
      assert before + after == before;
      assert (before + [u])[..|before + [u]| - 1] == before;
    } else {
      var init := after[..|after| - 1];
      var last := after[|after| - 1];
      assert (before + [u] + after)[..|before + [u] + after| - 1] == before + [u] + init;
      assert (before + after)[..|before + after| - 1] == before + init;
      UpdatesMapWithout(before, u, init, id);
    }
  }

  /** Applying the same update twice is the same as applying it once. */
  lemma ApplyIdempotent(a: StoredActivity, u: ActivityUpdate)
    ensures Apply(Apply(a, u), u) == Apply(a, u)
  {
  }

  /** Running overwrite mode twice with the same updates gives the same file as running it once. */
  lemma OverwriteIdempotent(db: seq<StoredActivity>, updates: seq<ActivityUpdate>)
    ensures Overwritten(Overwritten(db, UpdatesMap(updates)), UpdatesMap(updates)) == Overwritten(db, UpdatesMap(updates))
  {
    var m := UpdatesMap(updates);
    var once := Overwritten(db, m);
    forall i | 0 <= i < |db|
      ensures ApplyIfListed(once[i], m) == once[i]
    {
      if db[i].id.Some? && db[i].id.value in m {
        ApplyIdempotent(db[i], m[db[i].id.value]);
      }
    }
  }

  /** `commit_data` stamps every activity update with the report's date before overwriting. */
  method StampDate(updates: seq<ActivityUpdate>, date: string) returns (stamped: seq<ActivityUpdate>)
    ensures |stamped| == |updates|
    ensures forall i :: 0 <= i < |updates| ==> stamped[i] == updates[i].(dateExtracted := Some(date))
  {
    stamped := updates;
    for i := 0 to |stamped|
      invariant |stamped| == |updates|
      invariant forall j :: 0 <= j < i ==> stamped[j] == updates[j].(dateExtracted := Some(date))
      invariant forall j :: i <= j < |stamped| ==> stamped[j] == updates[j]
    {
      stamped := stamped[i := stamped[i].(dateExtracted := Some(date))];
    }
  }

  /** Through the commit endpoint every matched activity's `last_updated` is the report's date,
      never "Unknown". */
  lemma CommittedActivityDated(db: seq<StoredActivity>, updates: seq<ActivityUpdate>, date: string, stamped: seq<ActivityUpdate>, i: int)
    requires |stamped| == |updates|
    requires forall k :: 0 <= k < |updates| ==> stamped[k] == updates[k].(dateExtracted := Some(date))
    requires 0 <= i < |db| && db[i].id.Some? && exists j :: 0 <= j < |updates| && updates[j].id == db[i].id.value
    ensures Overwritten(db, UpdatesMap(stamped))[i].lastUpdated == Some(date)
  {
    var j :| 0 <= j < |updates| && updates[j].id == db[i].id.value;
    assert stamped[j].id == db[i].id.value;
    var m := UpdatesMap(stamped);
    assert db[i].id.value in m;
    var u := m[db[i].id.value];
    assert u in stamped by {
      UpdatesMapValues(stamped, db[i].id.value);
    }
  }

  /** Every entry of the updates map is one of the updates. */
  lemma {:induction false} UpdatesMapValues(updates: seq<ActivityUpdate>, id: string)
    requires id in UpdatesMap(updates)
    ensures UpdatesMap(updates)[id] in updates && UpdatesMap(updates)[id].id == id
  {
    var init := updates[..|updates| - 1];
    var last := updates[|updates| - 1];
    if id != last.id {
      UpdatesMapValues(init, id);
      assert UpdatesMap(init)[id] in updates;
    }
  }

  /** The data files the commit endpoint writes when every step succeeds, in order: indicator
      updates append to the performance and narrative logs, activity updates overwrite
      activities.json, and budget updates rewrite budget_spent.json when that file exists and
      holds an `expenditure_summary` (without one the update raises before its write). */
  function CommittedFiles(indicatorUpdates: nat, activityUpdates: nat, budgetUpdates: nat,
                          spentFile: Option<SpentUpdate.SpentDoc>): (files: seq<string>)
    ensures "performance_actuals.json" in files <==> indicatorUpdates > 0
    ensures "narratives.json" in files <==> indicatorUpdates > 0
    ensures "activities.json" in files <==> activityUpdates > 0
    ensures "budget_spent.json" in files <==> budgetUpdates > 0 && spentFile.Some? && spentFile.value.summary.Some?
    ensures |files| <= 4
  {
    (if indicatorUpdates > 0 then ["performance_actuals.json", "narratives.json"] else [])
    + (if activityUpdates > 0 then ["activities.json"] else [])
    + (if budgetUpdates > 0 && spentFile.Some? && spentFile.value.summary.Some? then ["budget_spent.json"] else [])
  }

  /** What a commit leaves behind: the files written, in order, and whether it answered with
      success or with HTTP 500. */
  datatype CommitOutcome = CommitOutcome(written: seq<string>, succeeded: bool)

  /** `commit_data` with its failure points. An indicator update without `narrative` raises
      after the performance log was appended; a spent file without `expenditure_summary` raises
      before budget_spent.json is written. Nothing is rolled back: the files written before the
      exception stay written. */
  function Commit(indicatorUpdates: nat, narrativesPresent: bool, activityUpdates: nat, budgetUpdates: nat,
                  spentFile: Option<SpentUpdate.SpentDoc>): (c: CommitOutcome)
    ensures c.succeeded <==> (indicatorUpdates == 0 || narrativesPresent) &&
                             !(budgetUpdates > 0 && spentFile.Some? && spentFile.value.summary.None?)
    ensures c.written <= CommittedFiles(indicatorUpdates, activityUpdates, budgetUpdates, spentFile)
    ensures (indicatorUpdates == 0 || narrativesPresent) ==>
              c.written == CommittedFiles(indicatorUpdates, activityUpdates, budgetUpdates, spentFile)
    ensures indicatorUpdates > 0 && !narrativesPresent ==> c.written == ["performance_actuals.json"]
  {
    if indicatorUpdates > 0 && !narrativesPresent then
      CommitOutcome(["performance_actuals.json"], false)
    else
      var failsAtBudget := budgetUpdates > 0 && spentFile.Some? && spentFile.value.summary.None?;
      CommitOutcome(CommittedFiles(indicatorUpdates, activityUpdates, budgetUpdates, spentFile), !failsAtBudget)
  }
}
