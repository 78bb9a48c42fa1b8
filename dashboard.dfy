/**
 * The dashboard's derived numbers: each habit's progress today (0 or 100),
 * the 90-day heatmap of completion percentages, and the summary tiles
 * (active habits, completed today, summed current streaks, best streak).
 */
module Dashboard {
  import opened JsBase
  import opened HabitTypes

  /** A habit as the dashboard holds it: the record, its first streak record, and
      its entries as the habits endpoint returns them. */
  datatype HabitView = HabitView(habit: Habit, streak: Option<Streak>, entries: seq<HabitEntry>)

  // ---------------------------------------------------------------------
  // Progress today
  // ---------------------------------------------------------------------

  /** `entries.find(e => sameDay(e.date, day))`: the index of the first entry dated `day`. */
  function FirstEntryOn(entries: seq<HabitEntry>, day: Day): (r: Option<nat>)
    ensures r.Some? ==> r.value < |entries| && entries[r.value].date == day
    ensures r.Some? ==> forall j :: 0 <= j < r.value ==> entries[j].date != day
    ensures r.None? ==> forall j :: 0 <= j < |entries| ==> entries[j].date != day
  {
    if entries == [] then None
    else if entries[0].date == day then Some(0)
    else match FirstEntryOn(entries[1..], day)
      case None => None
      case Some(k) => Some(k + 1)
  }

  /** `entry?.completed` for the first entry dated `day`. */
  predicate CompletedOn(entries: seq<HabitEntry>, day: Day)
  {
    match FirstEntryOn(entries, day)
    case Some(k) => entries[k].completed
    case None => false
  }

  /** `calculateTodayProgress` */
  function TodayProgress(entries: seq<HabitEntry>, today: Day): int
  {
    if CompletedOn(entries, today) then 100 else 0
  }

  /** Progress today is all or nothing, and it is 100 exactly when the first
      entry dated today exists and is marked completed. */
  lemma TodayProgressMeaning(entries: seq<HabitEntry>, today: Day)
    ensures TodayProgress(entries, today) == 0 || TodayProgress(entries, today) == 100
    ensures TodayProgress(entries, today) == 100 <==>
      exists k :: 0 <= k < |entries| && entries[k].date == today && entries[k].completed
        && (forall j :: 0 <= j < k ==> entries[j].date != today)
  {
    if TodayProgress(entries, today) != 100 {
      forall k | 0 <= k < |entries| && entries[k].date == today && entries[k].completed
        ensures exists j :: 0 <= j < k && entries[j].date == today
      {
        var f := FirstEntryOn(entries, today);
        assert f.Some? && f.value != k;
      }
    }
  }

  // ---------------------------------------------------------------------
  // Heatmap
  // ---------------------------------------------------------------------

  /** The number of days the heatmap covers, today included. */
  const HeatmapDays: nat := 90

  /** `habits.filter(h => firstEntryOn(day)?.completed).length` */
  function CompletedCount(habits: seq<HabitView>, day: Day): (n: nat)
    ensures n <= |habits|
  {
    if habits == [] then 0
    else (if CompletedOn(habits[0].entries, day) then 1 else 0) + CompletedCount(habits[1..], day)
  }

  /** A day's completion percentage: completed habits over all habits, 0 with no habits. */
  function DayPercentage(habits: seq<HabitView>, day: Day): real
  {
    if |habits| > 0 then (CompletedCount(habits, day) as real / |habits| as real) * 100.0 else 0.0
  }

  predicate InRange(d: Day, lo: Day, hi: Day)
  {
    lo <= d < hi
  }

  /** The days in `[lo, hi)`. */
  function Days(lo: Day, hi: Day): set<Day>
  {
    set d | lo <= d < hi && InRange(d, lo, hi)
  }

  /** The days the heatmap covers: today and the 89 before it. */
  function Window(today: Day): set<Day>
  {
    Days(today - (HeatmapDays - 1), today + 1)
  }

  /** `generateHeatmapData`: one key per day of the window, oldest first. */
  method GenerateHeatmapData(habits: seq<HabitView>, today: Day) returns (data: map<Day, real>)
    ensures data.Keys == Window(today)
    ensures forall d :: d in data ==> data[d] == DayPercentage(habits, d)
  {
    data := map[];
    var i := HeatmapDays as int - 1;
    while i >= 0
      invariant -1 <= i <= HeatmapDays - 1
      invariant data.Keys == Days(today - (HeatmapDays - 1), today - i)
      invariant forall d :: d in data ==> data[d] == DayPercentage(habits, d)
    {
      var date := today - i;
      var completedHabits := CompletedCount(habits, date);
      var completionPercentage := if |habits| > 0 then (completedHabits as real / |habits| as real) * 100.0 else 0.0;
      data := data[date := completionPercentage];
      i := i - 1;
    }
  }

  lemma {:induction false} IntervalSize(lo: int, n: nat)
    ensures |Days(lo, lo + n)| == n
    decreases n
  {
    if n > 0 {
      IntervalSize(lo, n - 1);
      assert Days(lo, lo + n) == Days(lo, lo + n - 1) + {lo + n - 1};
    } else {
      assert Days(lo, lo + n) == {};
    }
  }

  /** The heatmap has exactly 90 keys. */
  lemma WindowHasNinetyDays(today: Day)
    ensures |Window(today)| == 90
    ensures today in Window(today) && today - 89 in Window(today) && today - 90 !in Window(today)
  {
    IntervalSize(today - 89, 90);
    assert InRange(today, today - 89, today + 1) && InRange(today - 89, today - 89, today + 1);
  }

  lemma {:induction false} CompletedCountAll(habits: seq<HabitView>, day: Day)
    ensures CompletedCount(habits, day) == |habits| <==>
      forall i :: 0 <= i < |habits| ==> CompletedOn(habits[i].entries, day)
    ensures CompletedCount(habits, day) == 0 <==>
      forall i :: 0 <= i < |habits| ==> !CompletedOn(habits[i].entries, day)
  {
    if habits != [] {
      CompletedCountAll(habits[1..], day);
      assert forall i :: 1 <= i < |habits| ==> habits[i] == habits[1..][i - 1];
    }
  }

  lemma RatioBounds(c: nat, n: nat)
    requires 0 < n && c <= n
    ensures 0.0 <= (c as real / n as real) * 100.0 <= 100.0
    ensures (c as real / n as real) * 100.0 == 100.0 <==> c == n
    ensures (c as real / n as real) * 100.0 == 0.0 <==> c == 0
  {
    var q, cr, nr := c as real / n as real, c as real, n as real;
    assert q * nr == cr;
    assert 0.0 <= q <= 1.0;
    assert q == 1.0 <==> cr == nr;
    assert q == 0.0 <==> cr == 0.0;
  }

  /** Every heatmap value is a percentage; it is 100 exactly when every habit has a
      completed entry that day, 0 exactly when none has, and 0 with no habits. */
  lemma DayPercentageMeaning(habits: seq<HabitView>, day: Day)
    ensures 0.0 <= DayPercentage(habits, day) <= 100.0
    ensures |habits| == 0 ==> DayPercentage(habits, day) == 0.0
    ensures |habits| > 0 ==>
      (DayPercentage(habits, day) == 100.0 <==> forall i :: 0 <= i < |habits| ==> CompletedOn(habits[i].entries, day))
    ensures DayPercentage(habits, day) == 0.0 <==> forall i :: 0 <= i < |habits| ==> !CompletedOn(habits[i].entries, day)
  {
    CompletedCountAll(habits, day);
    if |habits| > 0 {
      RatioBounds(CompletedCount(habits, day), |habits|);
    }
  }

  // ---------------------------------------------------------------------
  // Summary tiles
  // ---------------------------------------------------------------------

  function ActiveHabits(habits: seq<HabitView>): seq<HabitView>
  {
    Filter(habits, (h: HabitView) => h.habit.isActive)
  }

  /** `activeHabits.filter(h => h.todayProgress === 100).length` */
  function CompletedToday(habits: seq<HabitView>, today: Day): nat
  {
    |Filter(ActiveHabits(habits), (h: HabitView) => TodayProgress(h.entries, today) == 100)|
  }

  /** Only active habits count, so the tile never exceeds the number of active habits. */
  lemma CompletedTodayBounded(habits: seq<HabitView>, today: Day)
    ensures CompletedToday(habits, today) <= |ActiveHabits(habits)| <= |habits|
  {
  }

  /** `h.streak?.current || 0` */
  function CurrentOf(h: HabitView): int
  {
    match h.streak
    case Some(s) => s.current
    case None => 0
  }

  /** `h.streak?.best || 0` */
  function BestOf(h: HabitView): int
  {
    match h.streak
    case Some(s) => s.best
    case None => 0
  }

  function SumCurrent(hs: seq<HabitView>): int
  {
    if hs == [] then 0 else CurrentOf(hs[0]) + SumCurrent(hs[1..])
  }

  /** `activeHabits.reduce((sum, h) => sum + (h.streak?.current || 0), 0)` */
  function CurrentStreaks(habits: seq<HabitView>): int
  {
    SumCurrent(ActiveHabits(habits))
  }

  function MaxBest(hs: seq<HabitView>): int
  {
    if hs == [] then 0
    else var rest := MaxBest(hs[1..]); if BestOf(hs[0]) > rest then BestOf(hs[0]) else rest
  }

  /** `Math.max(...activeHabits.map(h => h.streak?.best || 0), 0)` */
  function BestStreak(habits: seq<HabitView>): int
  {
    MaxBest(ActiveHabits(habits))
  }

  lemma {:induction false} MaxBestIsMaximum(hs: seq<HabitView>)
    ensures MaxBest(hs) >= 0
    ensures forall h :: h in hs ==> BestOf(h) <= MaxBest(hs)
    ensures MaxBest(hs) == 0 || exists h :: h in hs && BestOf(h) == MaxBest(hs)
  {
    if hs != [] {
      MaxBestIsMaximum(hs[1..]);
      assert forall h :: h in hs ==> h == hs[0] || h in hs[1..];
    }
  }

  /** The best-streak tile is the largest best run among the active habits,
      or 0 when there is none (or every best run is at most 0). */
  lemma BestStreakIsMaximum(habits: seq<HabitView>)
    ensures BestStreak(habits) >= 0
    ensures forall h :: h in habits && h.habit.isActive ==> BestOf(h) <= BestStreak(habits)
    ensures BestStreak(habits) == 0 ||
      exists h :: h in habits && h.habit.isActive && BestOf(h) == BestStreak(habits)
  {
    MaxBestIsMaximum(ActiveHabits(habits));
  }

  ghost predicate StreaksConsistent(hs: seq<HabitView>)
  {
    forall h :: h in hs && h.streak.Some? ==> 0 <= h.streak.value.current <= h.streak.value.best
  }

  lemma {:induction false} SumCurrentBound(hs: seq<HabitView>)
    requires StreaksConsistent(hs)
    ensures 0 <= SumCurrent(hs) <= |hs| * MaxBest(hs)
  {
    if hs != [] {
      SumCurrentBound(hs[1..]);
      MaxBestIsMaximum(hs);
      MaxBestIsMaximum(hs[1..]);
      assert BestOf(hs[0]) <= MaxBest(hs);
      BoundStep(|hs|, CurrentOf(hs[0]), SumCurrent(hs[1..]), MaxBest(hs[1..]), MaxBest(hs));
    }
  }

  /** The arithmetic step of the bound: one more term of at most `m` added to a
      sum of `n - 1` terms of at most `m' <= m`. */
  lemma BoundStep(n: nat, c: int, s: int, m': int, m: int)
    requires n >= 1 && 0 <= c <= m && 0 <= s <= (n - 1) * m' && m' <= m
    ensures 0 <= c + s <= n * m
  {
    MulMonotone(n - 1, m', m);
    assert n * m == m + (n - 1) * m;
  }

  lemma MulMonotone(a: nat, b: int, c: int)
    requires b <= c
    ensures a * b <= a * c
  {
  }

  /** When every stored streak keeps 0 <= current <= best, the summed current
      streaks tile is at most the number of active habits times the best-streak tile. */
  lemma CurrentStreaksBounded(habits: seq<HabitView>)
    requires StreaksConsistent(habits)
    ensures 0 <= CurrentStreaks(habits) <= |ActiveHabits(habits)| * BestStreak(habits)
  {
    SumCurrentBound(ActiveHabits(habits));
  }
}
