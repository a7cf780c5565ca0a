/** The Gantt chart (src/components/GanttChart.tsx): its own copy of the bar geometry, with a
    minimum width of 1%, the progress fill without a cap, and the grouping of activities by
    output in a `Map`. The year markers and today marker are Timeline's. */
module GanttChart {
  import opened Seqs
  import opened Text
  import opened Numeric
  import opened Activities
  import opened Timeline
  import ActivitySection

  /** `calculateBarPosition`: the left edge clamped to [0, 100]; the width at least 1 and at
      most 100 minus the unclamped left edge. */
  function CalculateBarPosition(plannedStart: int, plannedEnd: int, projectStart: int, projectEnd: int): (b: Bar)
    requires projectEnd != projectStart
    ensures 0.0 <= b.left <= 100.0
    ensures b.width >= 1.0
    ensures var l := RawLeft(plannedStart, projectStart, projectEnd);
            (0.0 <= l <= 100.0 ==> b.left == l) && (l < 0.0 ==> b.left == 0.0) && (l > 100.0 ==> b.left == 100.0)
    ensures var l := RawLeft(plannedStart, projectStart, projectEnd);
            var w := RawWidth(plannedStart, plannedEnd, projectStart, projectEnd);
            (1.0 <= w <= 100.0 - l ==> b.width == w) && (w > 100.0 - l >= 1.0 ==> b.width == 100.0 - l)
            && (Min(100.0 - l, w) < 1.0 ==> b.width == 1.0)
    ensures 0.0 <= RawLeft(plannedStart, projectStart, projectEnd) <= 99.0 ==> b.left + b.width <= 100.0
  {
    var left := RawLeft(plannedStart, projectStart, projectEnd);
    var width := RawWidth(plannedStart, plannedEnd, projectStart, projectEnd);
    Bar(Max(0.0, Min(100.0, left)), Max(1.0, Min(100.0 - left, width)))
  }

  /** The two copies draw the same bar unless the minimum width decides: a bar of 1.5% is
      widened to 2% by the section and kept by the chart; at 99% only the section's bar
      passes the end. */
  lemma BarCopiesCompared(plannedStart: int, plannedEnd: int, projectStart: int, projectEnd: int)
    requires projectEnd != projectStart
    ensures Min(100.0 - RawLeft(plannedStart, projectStart, projectEnd), RawWidth(plannedStart, plannedEnd, projectStart, projectEnd)) >= 2.0
            ==> CalculateBarPosition(plannedStart, plannedEnd, projectStart, projectEnd)
                == ActivitySection.CalculateBarPosition(plannedStart, plannedEnd, projectStart, projectEnd)
    ensures CalculateBarPosition(0, 15, 0, 1000).width == 1.5
    ensures ActivitySection.CalculateBarPosition(0, 15, 0, 1000).width == 2.0
    ensures CalculateBarPosition(99, 100, 0, 100).left + CalculateBarPosition(99, 100, 0, 100).width == 100.0
    ensures ActivitySection.CalculateBarPosition(99, 100, 0, 100).left + ActivitySection.CalculateBarPosition(99, 100, 0, 100).width == 101.0
  {
  }

  /** `barPos.width * (activity.progress / 100)`: no cap, so progress beyond 100% overflows. */
  function ProgressFill(barWidth: real, progress: real): (w: real)
    ensures 0.0 <= barWidth && 0.0 <= progress <= 100.0 ==> 0.0 <= w <= barWidth
    ensures 0.0 < barWidth && progress > 100.0 ==> w > barWidth
  {
    barWidth * (progress / 100.0)
  }

  /** Up to 100% the chart's fill equals the section's; beyond it only the section caps. */
  lemma FillsCompared(barWidth: real, progress: real)
    ensures progress <= 100.0 ==> ProgressFill(barWidth, progress) == ActivitySection.ProgressWidth(barWidth, progress)
    ensures 0.0 < barWidth && progress > 100.0 ==> ProgressFill(barWidth, progress) > ActivitySection.ProgressWidth(barWidth, progress)
  {
  }

  // ---------------------------------------------------------------- grouping

  /** The group of each key in `keys`, one after another. */
  function ConcatGroups(keys: seq<string>, s: seq<Activity>): seq<Activity>
  {
    if keys == [] then [] else Filter(s, HasOutput(keys[0])) + ConcatGroups(keys[1..], s)
  }

  function OutputIn(keys: seq<string>): Activity -> bool { (a: Activity) => a.output in keys }

  /** The groups of distinct keys together hold the activities whose output is a key. */
  lemma {:induction false} ConcatGroupsElements(keys: seq<string>, s: seq<Activity>)
    requires Distinct(keys)
    ensures multiset(ConcatGroups(keys, s)) == multiset(Filter(s, OutputIn(keys)))
  {
    if keys == [] {
      FilterNone(s, OutputIn(keys));
    } else {
      var rest := keys[1..];
      assert Distinct(rest) by {
        forall i, j | 0 <= i < j < |rest|
          ensures rest[i] != rest[j]
        {
          assert rest[i] == keys[i + 1] && rest[j] == keys[j + 1];
        }
      }
      assert keys[0] !in rest by {
        forall j | 0 <= j < |rest|
          ensures rest[j] != keys[0]
        {
          assert rest[j] == keys[j + 1];
        }
      }
      ConcatGroupsElements(rest, s);
      assert forall x: Activity :: OutputIn(keys)(x) == (HasOutput(keys[0])(x) || OutputIn(rest)(x)) by {
        assert keys == [keys[0]] + rest;
      }
      FilterDisjointUnion(s, HasOutput(keys[0]), OutputIn(rest), OutputIn(keys));
    }
  }

  /** Grouping under every output, in any order, hands back each activity exactly once. */
  lemma GroupsArePermutation(keys: seq<string>, s: seq<Activity>)
    requires Distinct(keys)
    requires forall i :: 0 <= i < |s| ==> s[i].output in keys
    ensures multiset(ConcatGroups(keys, s)) == multiset(s)
  {
    ConcatGroupsElements(keys, s);
    FilterAll(s, OutputIn(keys));
  }

  /** The map's groups in its iteration order, one after another. */
  function Flatten(keys: seq<string>, grouped: map<string, seq<Activity>>): seq<Activity>
    requires forall i :: 0 <= i < |keys| ==> keys[i] in grouped
  {
    if keys == [] then [] else grouped[keys[0]] + Flatten(keys[1..], grouped)
  }

  lemma {:induction false} FlattenOfFilters(keys: seq<string>, grouped: map<string, seq<Activity>>, s: seq<Activity>)
    requires forall i :: 0 <= i < |keys| ==> keys[i] in grouped && grouped[keys[i]] == Filter(s, HasOutput(keys[i]))
    ensures Flatten(keys, grouped) == ConcatGroups(keys, s)
  {
    if keys != [] {
      FlattenOfFilters(keys[1..], grouped, s);
    }
  }

  /** The map and its insertion order after the activities `seen`. */
  ghost predicate Grouped(keys: seq<string>, grouped: map<string, seq<Activity>>, seen: seq<Activity>)
  {
    && keys == Dedup(Outputs(seen))
    && (forall k :: k in grouped <==> k in keys)
    && (forall k :: k in grouped ==> grouped[k] == Filter(seen, HasOutput(k)))
  }

  /** `groupByOutput`: a `Map` that gains an empty list the first time an output is seen and
      then has the activity pushed onto that output's list. `keys` is the map's insertion
      order, the order in which the chart iterates it. */
  method GroupByOutput(activities: seq<Activity>) returns (keys: seq<string>, grouped: map<string, seq<Activity>>)
    ensures keys == Dedup(Outputs(activities))
    ensures forall k :: k in grouped <==> k in keys
    ensures forall k :: k in grouped ==> grouped[k] == Filter(activities, HasOutput(k))
    ensures multiset(Flatten(keys, grouped)) == multiset(activities)
  {
    keys := [];
    grouped := map[];
    var i := 0;
    while i < |activities|
      invariant 0 <= i <= |activities|
      invariant Grouped(keys, grouped, activities[..i])
    {
      PrefixStep(activities, i);
      keys, grouped := AddActivity(keys, grouped, activities[..i], activities[i]);
      i := i + 1;
    }
    assert activities[..i] == activities;
    GroupingComplete(keys, grouped, activities);
  }

  /** Once every activity has been seen, the groups in insertion order are a permutation. */
  lemma GroupingComplete(keys: seq<string>, grouped: map<string, seq<Activity>>, activities: seq<Activity>)
    requires Grouped(keys, grouped, activities)
    ensures multiset(Flatten(keys, grouped)) == multiset(activities)
  {
    FlattenOfFilters(keys, grouped, activities);
    DedupMembers(Outputs(activities));
    forall j | 0 <= j < |activities|
      ensures activities[j].output in keys
    {
      assert Outputs(activities)[j] == activities[j].output;
    }
    GroupsArePermutation(keys, activities);
  }

  lemma PrefixStep<T>(s: seq<T>, i: int)
    requires 0 <= i < |s|
    ensures s[..i + 1] == s[..i] + [s[i]]
  {
  }

  /** The `forEach` callback: `if (!grouped.has(key)) grouped.set(key, [])`, then a push. */
  method AddActivity(keys: seq<string>, grouped: map<string, seq<Activity>>, ghost seen: seq<Activity>, activity: Activity)
      returns (keys': seq<string>, grouped': map<string, seq<Activity>>)
    requires Grouped(keys, grouped, seen)
    ensures Grouped(keys', grouped', seen + [activity])
  {
    var key := activity.output;
    keys', grouped' := keys, grouped;
    if key !in grouped' {
      grouped' := grouped'[key := []];
      keys' := keys' + [key];
    }
    grouped' := grouped'[key := grouped'[key] + [activity]];
    KeysStep(keys, grouped, seen, activity);
    GroupsStep(keys, grouped, seen, activity);
  }

  /** The insertion order gains the output the first time it is seen. */
  lemma KeysStep(keys: seq<string>, grouped: map<string, seq<Activity>>, seen: seq<Activity>, activity: Activity)
    requires Grouped(keys, grouped, seen)
    ensures (if activity.output in grouped then keys else keys + [activity.output]) == Dedup(Outputs(seen + [activity]))
  {
    assert Outputs(seen + [activity]) == Outputs(seen) + [activity.output];
    DedupOfPrefix(Outputs(seen), activity.output);
  }

  /** The output's list gains the activity, and every other list stays its filter. */
  lemma GroupsStep(keys: seq<string>, grouped: map<string, seq<Activity>>, seen: seq<Activity>, activity: Activity)
    requires Grouped(keys, grouped, seen)
    ensures var key := activity.output;
            var g := if key in grouped then grouped else grouped[key := []];
            var g' := g[key := g[key] + [activity]];
            (forall k :: k in g' <==> k in grouped || k == key) &&
            (forall k :: k in g' ==> g'[k] == Filter(seen + [activity], HasOutput(k)))
  {
    var key := activity.output;
    var g := if key in grouped then grouped else grouped[key := []];
    var g' := g[key := g[key] + [activity]];
    forall k | k in g'
      ensures g'[k] == Filter(seen + [activity], HasOutput(k))
    {
      FilterSnoc(seen, activity, k);
      if k == key {
        if key !in grouped {
          UnseenOutputHasNoGroup(seen, key);
        }
        assert g'[k] == Filter(seen, HasOutput(key)) + [activity];
      } else {
        assert g'[k] == grouped[k];
      }
    }
  }

  lemma FilterSnoc(seen: seq<Activity>, activity: Activity, k: string)
    ensures Filter(seen + [activity], HasOutput(k)) == Filter(seen, HasOutput(k)) + (if activity.output == k then [activity] else [])
  {
    FilterConcat(seen, [activity], HasOutput(k));
    FilterSingleton(activity, HasOutput(k));
  }

  lemma UnseenOutputHasNoGroup(seen: seq<Activity>, key: string)
    requires key !in Dedup(Outputs(seen))
    ensures Filter(seen, HasOutput(key)) == []
  {
    DedupMembers(Outputs(seen));
    forall x | x in seen
      ensures !HasOutput(key)(x)
    {
      var i :| 0 <= i < |seen| && seen[i] == x;
      assert Outputs(seen)[i] == x.output;
    }
    FilterNone(seen, HasOutput(key));
  }
}
