/**
 * The derived data of the dashboard (src/components/Dashboard.tsx): the
 * 75-point chart series, the summary statistics, the workout-type split and
 * the seven most recent entries.
 */
module Dashboard {
  import opened Wrappers
  import opened Types
  import opened EntryOrder
  import ChallengeStore

  /** `entries[dateString]`: the entry logged on a day, if any. */
  function Lookup(entries: map<Date, DailyEntry>, d: Date): (r: Option<DailyEntry>)
    ensures r.Some? <==> d in entries
    ensures r.Some? ==> r.value == entries[d]
  {
    if d in entries then Some(entries[d]) else None
  }

  /**
   * `Math.round(time / 60 * 10)`: a run time in tenths of a minute, to the
   * nearest tenth, halves rounded up as `Math.round` does.
   */
  function RunTimeTenths(time: int): (q: int)
    ensures 6 * q - 3 <= time < 6 * q + 3
  {
    (time + 3) / 6
  }

  /** What the chart must show on day `day` for the entry logged then, if any. */
  ghost predicate PlotsDay(p: ChartDataPoint, day: int, entry: Option<DailyEntry>)
  {
    p.day == day &&
    match entry
    case None =>
      p.weight.None? && p.calories.None? && p.runTime.None? && p.runDistance.None?
      && p.totalCalories.None? && p.workoutCalories == Some(0)
    case Some(e) =>
      p.weight == Some(e.weight) && p.calories == Some(e.calories)
      && p.totalCalories == Some(e.calories) && p.runDistance == Some(e.run.distance)
      && p.workoutCalories == Some(e.run.calories + e.additionalWorkout.calories)
      && (if e.run.time == 0 then p.runTime.None?
          else p.runTime == Some(RunTimeTenths(e.run.time) as real / 10.0))
  }

  /**
   * `chartData`: one point for each of the 75 days from the start date. An
   * empty start date makes the date arithmetic fail (`toISOString` of an
   * invalid date throws), so there is no series then.
   */
  method ChartData(data: ChallengeData) returns (points: Option<seq<ChartDataPoint>>)
    ensures points.None? <==> data.startDate.None?
    ensures points.Some? ==> |points.value| == ChallengeLength
    ensures points.Some? ==> forall i :: 0 <= i < |points.value| ==>
              PlotsDay(points.value[i], i + 1, Lookup(data.entries, data.startDate.value + i))
  {
    if data.startDate.None? {
      return None;
    }
    var start := data.startDate.value;
    var series: seq<ChartDataPoint> := [];
    var i := 0;
    while i < ChallengeLength
      invariant 0 <= i <= ChallengeLength && |series| == i
      invariant forall k :: 0 <= k < i ==> PlotsDay(series[k], k + 1, Lookup(data.entries, start + k))
    {
      var entry := Lookup(data.entries, start + i);
      var p;
      if entry.None? {
        p := ChartDataPoint(i + 1, None, None, None, None, Some(0), None);
      } else {
        var e := entry.value;
        var runTime := if e.run.time == 0 then None else Some(RunTimeTenths(e.run.time) as real / 10.0);
        p := ChartDataPoint(i + 1, Some(e.weight), Some(e.calories), runTime, Some(e.run.distance),
                            Some(e.run.calories + e.additionalWorkout.calories), Some(e.calories));
      }
      series := series + [p];
      i := i + 1;
    }
    return Some(series);
  }

  /** A 30-minute run plots as 30.0 minutes; 1275 seconds (21.25 minutes) as 21.3. */
  lemma RunTimeTenthsExamples()
    ensures RunTimeTenths(1800) == 300
    ensures RunTimeTenths(1275) == 213
  {
  }

  function RunTimeOf(e: DailyEntry): int { e.run.time }
  function DistanceOf(e: DailyEntry): real { e.run.distance }
  function BurnedOf(e: DailyEntry): int { e.run.calories + e.additionalWorkout.calories }
  function ConsumedOf(e: DailyEntry): int { e.calories }

  /** `completedDays`: the number of logged days. */
  function CompletedDays(entries: map<Date, DailyEntry>): (n: nat)
    ensures n == |entries|
  {
    |Values(entries)|
  }

  /** `totalRunTime`, in seconds. */
  function TotalRunTime(entries: map<Date, DailyEntry>): int
  {
    SumInt(Values(entries), RunTimeOf)
  }

  /** `totalDistance`, in miles. */
  function TotalDistance(entries: map<Date, DailyEntry>): real
  {
    SumReal(Values(entries), DistanceOf)
  }

  /** `totalCaloriesBurned`: run calories plus workout calories over all days. */
  function TotalCaloriesBurned(entries: map<Date, DailyEntry>): int
  {
    SumInt(Values(entries), BurnedOf)
  }

  function TotalCaloriesConsumed(entries: map<Date, DailyEntry>): int
  {
    SumInt(Values(entries), ConsumedOf)
  }

  /**
   * `completionPercentage`: logged days over 75, as a percentage. It is not
   * clamped: more than 75 logged days give more than 100.
   */
  function CompletionPercentage(entries: map<Date, DailyEntry>): (p: real)
    ensures p * (ChallengeLength as real) == (|entries| as real) * 100.0
    ensures p == 0.0 <==> entries == map[]
    ensures p <= 100.0 <==> |entries| <= ChallengeLength
  {
    (CompletedDays(entries) as real / ChallengeLength as real) * 100.0
  }

  /** The mean of `total` over `n` days, 0 for no days. */
  function Mean(total: int, n: nat): (avg: real)
    ensures n == 0 ==> avg == 0.0
    ensures n > 0 ==> avg * (n as real) == total as real
  {
    if n > 0 then (total as real) / (n as real) else 0.0
  }

  /** `averageCaloriesConsumed`: the mean intake over logged days, 0 with none. */
  function AverageCaloriesConsumed(entries: map<Date, DailyEntry>): real
  {
    Mean(TotalCaloriesConsumed(entries), CompletedDays(entries))
  }

  /** `latest` is one of the logged entries and none is dated after it. */
  predicate IsLatest(latest: DailyEntry, entries: map<Date, DailyEntry>)
  {
    latest in entries.Values && forall d :: d in entries ==> entries[d].date <= latest.date
  }

  /** `sortedEntries[0]` after sorting by date, newest first: an entry with the latest date. */
  function LatestEntry(entries: map<Date, DailyEntry>): (latest: DailyEntry)
    requires entries != map[]
    ensures IsLatest(latest, entries)
  {
    var sorted := SortDesc(Values(entries), ByDate);
    var vs := Values(entries);
    assert vs[0] in multiset(sorted);
    assert sorted[0] in multiset(vs);
    forall d | d in entries ensures entries[d].date <= sorted[0].date {
      assert entries[d] in multiset(sorted);
      var j :| 0 <= j < |sorted| && sorted[j] == entries[d];
      SortedDescPairs(sorted, ByDate, 0, j);
    }
    sorted[0]
  }

  /**
   * `totalWeightLost`: the start day's weight minus the newest entry's
   * weight, or 0 when the start day was never logged.
   */
  function TotalWeightLost(data: ChallengeData): (lost: real)
    ensures !(data.startDate.Some? && data.startDate.value in data.entries) ==> lost == 0.0
    ensures data.startDate.Some? && data.startDate.value in data.entries ==>
              exists latest :: IsLatest(latest, data.entries)
                && lost == data.entries[data.startDate.value].weight - latest.weight
  {
    match data.startDate
    case None => 0.0
    case Some(start) =>
      if start in data.entries then
        var latest := LatestEntry(data.entries);
        assert IsLatest(latest, data.entries);
        data.entries[start].weight - latest.weight
      else 0.0
  }

  /** With keys matching dates, the weight lost is measured against the last logged day. */
  lemma WeightLostToLastDay(data: ChallengeData, last: Date)
    requires KeysMatchDates(data.entries)
    requires data.startDate.Some? && data.startDate.value in data.entries
    requires last in data.entries && forall d :: d in data.entries ==> d <= last
    ensures TotalWeightLost(data) == data.entries[data.startDate.value].weight - data.entries[last].weight
  {
    var latest :| IsLatest(latest, data.entries)
      && TotalWeightLost(data) == data.entries[data.startDate.value].weight - latest.weight;
    LatestIsLastDay(data.entries, last, latest);
  }

  /** With keys matching dates, the latest entry is the one of the last logged day. */
  lemma LatestIsLastDay(entries: map<Date, DailyEntry>, last: Date, latest: DailyEntry)
    requires KeysMatchDates(entries) && IsLatest(latest, entries)
    requires last in entries && forall d :: d in entries ==> d <= last
    ensures latest == entries[last]
  {
    assert entries[last].date <= latest.date;
    DateOfListedEntry(entries, latest);
    var k :| k in entries && entries[k] == latest;
    assert latest.date == k && entries[last].date == last;
    assert k <= last && last <= k;
  }

  /** Logged from 200 lb on 2024-01-01 to 195 lb on 2024-01-05: five pounds lost. */
  lemma WeightLostExample(first: DailyEntry, fifth: DailyEntry)
    requires first.date == 19723 && first.weight == 200.0
    requires fifth.date == 19727 && fifth.weight == 195.0
    ensures TotalWeightLost(ChallengeData(Some(19723), map[19723 := first, 19727 := fifth], 2000)) == 5.0
  {
    var data := ChallengeData(Some(19723), map[19723 := first, 19727 := fifth], 2000);
    WeightLostToLastDay(data, 19727);
  }

  /** The workout-type pie: how many days used each type. */
  datatype WorkoutCounts = WorkoutCounts(strength: nat, recovery: nat)

  /** `workoutTypeData`: the strength days and the recovery days, which together cover every logged day. */
  function WorkoutTypeData(entries: map<Date, DailyEntry>): (counts: WorkoutCounts)
    ensures counts.strength == CountKind(Values(entries), Strength)
    ensures counts.recovery == CountKind(Values(entries), Recovery)
    ensures counts.strength + counts.recovery == |entries|
  {
    var vs := Values(entries);
    KindCountsCover(vs);
    WorkoutCounts(CountKind(vs, Strength), CountKind(vs, Recovery))
  }

  /**
   * `recentEntries`: at most seven entries, newest first, and no entry left
   * out is newer than one shown.
   */
  function RecentEntries(entries: map<Date, DailyEntry>): (recent: seq<DailyEntry>)
    ensures |recent| == if |entries| < 7 then |entries| else 7
    ensures SortedDesc(recent, ByDate)
    ensures multiset(recent) <= multiset(Values(entries))
    ensures forall x, y :: x in recent && y in multiset(Values(entries)) - multiset(recent) ==> y.date <= x.date
  {
    var sorted := SortDesc(Values(entries), ByDate);
    var k := if |sorted| < 7 then |sorted| else 7;
    PrefixOfSorted(sorted, k);
    var recent := sorted[..k];
    forall x, y | x in recent && y in multiset(Values(entries)) - multiset(recent) ensures y.date <= x.date {
      assert y in sorted[k..];
    }
    recent
  }

  /** A prefix of a date-descending list is date-descending and no later entry is newer than one in it. */
  lemma PrefixOfSorted(s: seq<DailyEntry>, k: nat)
    requires SortedDesc(s, ByDate) && k <= |s|
    ensures SortedDesc(s[..k], ByDate)
    ensures multiset(s[..k]) <= multiset(s)
    ensures multiset(s) - multiset(s[..k]) == multiset(s[k..])
    ensures forall x, y :: x in s[..k] && y in s[k..] ==> y.date <= x.date
  {
    PrefixMultiset(s, k);
    forall i | 0 < i < k ensures Key(s[..k][i - 1], ByDate) >= Key(s[..k][i], ByDate) {
      assert s[..k][i - 1] == s[i - 1] && s[..k][i] == s[i];
    }
    forall x, y | x in s[..k] && y in s[k..] ensures y.date <= x.date {
      var i :| 0 <= i < k && s[..k][i] == x;
      var j :| 0 <= j < |s| - k && s[k..][j] == y;
      SortedDescPairs(s, ByDate, i, k + j);
    }
  }

  /** The entries of a list are those of its first `k` and those of the rest. */
  lemma PrefixMultiset(s: seq<DailyEntry>, k: nat)
    requires k <= |s|
    ensures multiset(s[..k]) <= multiset(s)
    ensures multiset(s) - multiset(s[..k]) == multiset(s[k..])
  {
    assert s == s[..k] + s[k..];
  }

  /** Saving a day that was not logged adds its figures to every total. */
  lemma SaveNewDayAddsToTotals(data: ChallengeData, e: DailyEntry)
    requires e.date !in data.entries
    ensures var after := ChallengeStore.Upsert(data, e).entries;
      CompletedDays(after) == CompletedDays(data.entries) + 1
      && TotalRunTime(after) == TotalRunTime(data.entries) + e.run.time
      && TotalDistance(after) == TotalDistance(data.entries) + e.run.distance
      && TotalCaloriesBurned(after) == TotalCaloriesBurned(data.entries) + e.run.calories + e.additionalWorkout.calories
      && TotalCaloriesConsumed(after) == TotalCaloriesConsumed(data.entries) + e.calories
  {
    var after := ChallengeStore.Upsert(data, e).entries;
    assert after - {e.date} == data.entries;
    SumIntRemove(after, e.date, RunTimeOf);
    SumRealRemove(after, e.date, DistanceOf);
    SumIntRemove(after, e.date, BurnedOf);
    SumIntRemove(after, e.date, ConsumedOf);
  }

  /** Re-saving a logged day replaces its figures in every total. */
  lemma UpdateDayReplacesInTotals(data: ChallengeData, e: DailyEntry)
    requires e.date in data.entries
    ensures var before := data.entries[e.date];
      var after := ChallengeStore.Upsert(data, e).entries;
      CompletedDays(after) == CompletedDays(data.entries)
      && TotalRunTime(after) == TotalRunTime(data.entries) - before.run.time + e.run.time
      && TotalDistance(after) == TotalDistance(data.entries) - before.run.distance + e.run.distance
      && TotalCaloriesBurned(after) == TotalCaloriesBurned(data.entries)
           - (before.run.calories + before.additionalWorkout.calories) + (e.run.calories + e.additionalWorkout.calories)
      && TotalCaloriesConsumed(after) == TotalCaloriesConsumed(data.entries) - before.calories + e.calories
  {
    var after := ChallengeStore.Upsert(data, e).entries;
    assert after - {e.date} == data.entries - {e.date};
    SumIntRemove(after, e.date, RunTimeOf);
    SumIntRemove(data.entries, e.date, RunTimeOf);
    SumRealRemove(after, e.date, DistanceOf);
    SumRealRemove(data.entries, e.date, DistanceOf);
    SumIntRemove(after, e.date, BurnedOf);
    SumIntRemove(data.entries, e.date, BurnedOf);
    SumIntRemove(after, e.date, ConsumedOf);
    SumIntRemove(data.entries, e.date, ConsumedOf);
  }

  /** Deleting a logged day takes its figures out of every total. */
  lemma DeleteDaySubtractsFromTotals(data: ChallengeData, d: Date)
    requires d in data.entries
    ensures var e := data.entries[d];
      var after := ChallengeStore.Remove(data, d).entries;
      CompletedDays(after) == CompletedDays(data.entries) - 1
      && TotalRunTime(after) == TotalRunTime(data.entries) - e.run.time
      && TotalDistance(after) == TotalDistance(data.entries) - e.run.distance
      && TotalCaloriesBurned(after) == TotalCaloriesBurned(data.entries) - e.run.calories - e.additionalWorkout.calories
      && TotalCaloriesConsumed(after) == TotalCaloriesConsumed(data.entries) - e.calories
  {
    SumIntRemove(data.entries, d, RunTimeOf);
    SumRealRemove(data.entries, d, DistanceOf);
    SumIntRemove(data.entries, d, BurnedOf);
    SumIntRemove(data.entries, d, ConsumedOf);
  }

  /** Deleting a logged day takes one away from its workout type's count only. */
  lemma DeleteDayUncountsItsType(data: ChallengeData, d: Date)
    requires d in data.entries
    ensures var before := Values(data.entries);
      var after := Values(ChallengeStore.Remove(data, d).entries);
      var kind := data.entries[d].additionalWorkout.kind;
      var other := if kind == Strength then Recovery else Strength;
      CountKind(after, kind) == CountKind(before, kind) - 1
      && CountKind(after, other) == CountKind(before, other)
  {
    CountKindRemove(data.entries, d, Strength);
    CountKindRemove(data.entries, d, Recovery);
  }

  /** An empty log shows no progress: no days, 0 %, no average and no weight lost. */
  lemma EmptyLogStats(startDate: Option<Date>, target: int)
    ensures var data := ChallengeData(startDate, map[], target);
      CompletedDays(data.entries) == 0 && CompletionPercentage(data.entries) == 0.0
      && AverageCaloriesConsumed(data.entries) == 0.0 && TotalWeightLost(data) == 0.0
      && TotalRunTime(data.entries) == 0 && RecentEntries(data.entries) == []
  {
  }
}
