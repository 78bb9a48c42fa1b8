/**
 * The gym analytics view: the per-workout volume series, the progress series
 * of each exercise (best set per logged exercise), the total / average / best
 * workout figures and the "recent personal records" list.
 *
 * Workouts arrive newest first, as the habits endpoint orders them.
 */
module GymAnalytics {
  import opened JsBase
  import opened HabitTypes

  /** A set as the workout tracker logs it. */
  datatype LoggedSet = LoggedSet(reps: int, weight: int, completed: bool)

  /** An exercise inside a logged workout; the tracker stores `totalVolume`,
      `completedSets` may be absent. */
  datatype LoggedExercise = LoggedExercise(name: string, sets: seq<LoggedSet>, totalVolume: Option<int>, completedSets: Option<int>)

  /** A logged gym workout: an entry's date and its `value` payload
      (an absent exercise list reads as the empty list). */
  datatype WorkoutEntry = WorkoutEntry(date: Day, exercises: seq<LoggedExercise>, duration: Option<int>)

  /** One point of the volume chart. */
  datatype VolumePoint = VolumePoint(date: Day, volume: int, sets: int, duration: int)

  // ---------------------------------------------------------------------
  // Volume series and stats
  // ---------------------------------------------------------------------

  /** `exercises.reduce((sum, ex) => sum + (ex.totalVolume || 0), 0)` */
  function StoredVolume(exs: seq<LoggedExercise>): int
  {
    if exs == [] then 0 else GetOr(exs[0].totalVolume, 0) + StoredVolume(exs[1..])
  }

  /** `exercises.reduce((sum, ex) => sum + (ex.completedSets || 0), 0)` */
  function StoredCompletedSets(exs: seq<LoggedExercise>): int
  {
    if exs == [] then 0 else GetOr(exs[0].completedSets, 0) + StoredCompletedSets(exs[1..])
  }

  function EntryPoint(e: WorkoutEntry): VolumePoint
  {
    VolumePoint(e.date, StoredVolume(e.exercises), StoredCompletedSets(e.exercises), GetOr(e.duration, 0))
  }

  /** `processVolumeData`: one point per workout, in reverse input order,
      so oldest first for newest-first input. */
  function VolumeSeries(es: seq<WorkoutEntry>): (r: seq<VolumePoint>)
    ensures |r| == |es|
    ensures forall i :: 0 <= i < |es| ==> r[i] == EntryPoint(es[|es| - 1 - i])
  {
    if es == [] then []
    else
      var rest := VolumeSeries(es[1..]);
      assert forall i :: 0 <= i < |es| - 1 ==> rest[i] == EntryPoint(es[|es| - 1 - i]);
      rest + [EntryPoint(es[0])]
  }

  function SumVolume(ps: seq<VolumePoint>): int
  {
    if ps == [] then 0 else ps[0].volume + SumVolume(ps[1..])
  }

  function SumDuration(ps: seq<VolumePoint>): int
  {
    if ps == [] then 0 else ps[0].duration + SumDuration(ps[1..])
  }

  /** `volumeData.reduce((sum, day) => sum + day.volume, 0)` */
  function TotalVolume(es: seq<WorkoutEntry>): int
  {
    SumVolume(VolumeSeries(es))
  }

  /** `volumeData.reduce((sum, day) => sum + day.duration, 0)` */
  function TotalDuration(es: seq<WorkoutEntry>): int
  {
    SumDuration(VolumeSeries(es))
  }

  /** `totalWorkouts > 0 ? totalVolume / totalWorkouts : 0` */
  function AvgVolumePerWorkout(es: seq<WorkoutEntry>): real
  {
    if |es| > 0 then TotalVolume(es) as real / |es| as real else 0.0
  }

  /** The stored volumes and durations of the workouts, summed in input order. */
  function EntryVolumes(es: seq<WorkoutEntry>): int
  {
    if es == [] then 0 else StoredVolume(es[0].exercises) + EntryVolumes(es[1..])
  }

  function EntryDurations(es: seq<WorkoutEntry>): int
  {
    if es == [] then 0 else GetOr(es[0].duration, 0) + EntryDurations(es[1..])
  }

  lemma {:induction false} SumsOfSnoc(ps: seq<VolumePoint>, p: VolumePoint)
    ensures SumVolume(ps + [p]) == SumVolume(ps) + p.volume
    ensures SumDuration(ps + [p]) == SumDuration(ps) + p.duration
  {
    if ps != [] {
      assert (ps + [p])[1..] == ps[1..] + [p];
      SumsOfSnoc(ps[1..], p);
    }
  }

  /** The reversal does not change the totals: the total volume is the sum of
      every workout's stored exercise volumes, and the total duration the sum of
      the durations (absent ones counting 0). */
  lemma {:induction false} TotalsAreSumsOverWorkouts(es: seq<WorkoutEntry>)
    ensures TotalVolume(es) == EntryVolumes(es)
    ensures TotalDuration(es) == EntryDurations(es)
  {
    if es != [] {
      TotalsAreSumsOverWorkouts(es[1..]);
      var rest := VolumeSeries(es[1..]);
      assert VolumeSeries(es) == rest + [EntryPoint(es[0])];
      SumsOfSnoc(rest, EntryPoint(es[0]));
    }
  }

  /** The average times the number of workouts gives the total back; with no
      workouts the average is 0. */
  lemma AverageVolumeMeaning(es: seq<WorkoutEntry>)
    ensures |es| > 0 ==> AvgVolumePerWorkout(es) * |es| as real == TotalVolume(es) as real
    ensures |es| == 0 ==> AvgVolumePerWorkout(es) == 0.0 && TotalVolume(es) == 0
  {
  }

  /** The running best of `volumeData.reduce(..., { volume: 0 })`: either the
      seed object or one of the points. */
  datatype Best = Seed | Point(p: VolumePoint)

  function BestVolume(b: Best): int
  {
    match b
    case Seed => 0
    case Point(p) => p.volume
  }

  function BestFrom(acc: Best, ps: seq<VolumePoint>): Best
    decreases |ps|
  {
    if ps == [] then acc
    else BestFrom(if ps[0].volume > BestVolume(acc) then Point(ps[0]) else acc, ps[1..])
  }

  /** `bestWorkout`, folded with a strict `>` from the seed `{ volume: 0 }`. */
  function BestWorkout(ps: seq<VolumePoint>): Best
  {
    BestFrom(Seed, ps)
  }

  lemma {:induction false} BestFromSpec(acc: Best, ps: seq<VolumePoint>)
    ensures var r := BestFrom(acc, ps);
      && BestVolume(r) >= BestVolume(acc)
      && (forall i :: 0 <= i < |ps| ==> ps[i].volume <= BestVolume(r))
      && ((forall i :: 0 <= i < |ps| ==> ps[i].volume <= BestVolume(acc)) ==> r == acc)
      && (r == acc || exists i :: (0 <= i < |ps| && r == Point(ps[i]) && ps[i].volume > BestVolume(acc)
            && forall j :: 0 <= j < i ==> ps[j].volume < ps[i].volume))
    decreases |ps|
  {
    if ps != [] {
      var acc' := if ps[0].volume > BestVolume(acc) then Point(ps[0]) else acc;
      BestFromSpec(acc', ps[1..]);
      var r := BestFrom(acc, ps);
      assert forall i :: 1 <= i < |ps| ==> ps[i] == ps[1..][i - 1];
      if r != acc && r != acc' {
        var i :| 0 <= i < |ps| - 1 && r == Point(ps[1..][i]) && ps[1..][i].volume > BestVolume(acc')
          && forall j :: 0 <= j < i ==> ps[1..][j].volume < ps[1..][i].volume;
        assert r == Point(ps[i + 1]);
        assert forall j :: 0 <= j < i + 1 ==> ps[j].volume < ps[i + 1].volume;
      }
    }
  }

  /** The best workout is the seed exactly when no workout has positive volume;
      otherwise it is the earliest point of maximal volume in the series. */
  lemma BestWorkoutIsEarliestMaximum(ps: seq<VolumePoint>)
    ensures BestVolume(BestWorkout(ps)) >= 0
    ensures forall i :: 0 <= i < |ps| ==> ps[i].volume <= BestVolume(BestWorkout(ps))
    ensures BestWorkout(ps) == Seed <==> forall i :: 0 <= i < |ps| ==> ps[i].volume <= 0
    ensures BestWorkout(ps).Point? ==> exists i :: (0 <= i < |ps| && BestWorkout(ps).p == ps[i] && ps[i].volume > 0
      && forall j :: 0 <= j < i ==> ps[j].volume < ps[i].volume)
  {
    BestFromSpec(Seed, ps);
  }

  // ---------------------------------------------------------------------
  // Exercise progress
  // ---------------------------------------------------------------------

  function SetVolume(s: LoggedSet): int
  {
    s.reps * s.weight
  }

  function BestIndexFrom(sets: seq<LoggedSet>, acc: nat, k: nat): nat
    requires acc < |sets| && k <= |sets|
    decreases |sets| - k
  {
    if k == |sets| then acc
    else BestIndexFrom(sets, if SetVolume(sets[k]) > SetVolume(sets[acc]) then k else acc, k + 1)
  }

  /** `ex.sets.reduce((best, set) => volume > bestVolume ? set : best, ex.sets[0] || {})`,
      as the index of the chosen set; `None` stands for the empty seed object. */
  function BestSetIndex(sets: seq<LoggedSet>): (r: Option<nat>)
    ensures r.None? <==> sets == []
    ensures r.Some? ==> r.value < |sets|
  {
    if sets == [] then None else Some(BestIndexFromBounded(sets, 0, 0))
  }

  function BestIndexFromBounded(sets: seq<LoggedSet>, acc: nat, k: nat): (r: nat)
    requires acc < |sets| && k <= |sets|
    ensures r == BestIndexFrom(sets, acc, k) && r < |sets|
    decreases |sets| - k
  {
    if k == |sets| then acc
    else BestIndexFromBounded(sets, if SetVolume(sets[k]) > SetVolume(sets[acc]) then k else acc, k + 1)
  }

  lemma {:induction false} BestIndexFromSpec(sets: seq<LoggedSet>, acc: nat, k: nat)
    requires acc < |sets| && acc <= k <= |sets|
    requires forall j :: 0 <= j < k ==> SetVolume(sets[j]) <= SetVolume(sets[acc])
    requires forall j :: 0 <= j < acc ==> SetVolume(sets[j]) < SetVolume(sets[acc])
    ensures var r := BestIndexFrom(sets, acc, k);
      && r < |sets|
      && (forall j :: 0 <= j < |sets| ==> SetVolume(sets[j]) <= SetVolume(sets[r]))
      && (forall j :: 0 <= j < r ==> SetVolume(sets[j]) < SetVolume(sets[r]))
    decreases |sets| - k
  {
    if k < |sets| {
      var acc' := if SetVolume(sets[k]) > SetVolume(sets[acc]) then k else acc;
      BestIndexFromSpec(sets, acc', k + 1);
    }
  }

  /** The best set is the first set of maximal reps × weight. */
  lemma BestSetIsFirstMaximum(sets: seq<LoggedSet>)
    requires sets != []
    ensures var b := BestSetIndex(sets).value;
      && (forall j :: 0 <= j < |sets| ==> SetVolume(sets[j]) <= SetVolume(sets[b]))
      && (forall j :: 0 <= j < b ==> SetVolume(sets[j]) < SetVolume(sets[b]))
  {
    BestIndexFromSpec(sets, 0, 0);
  }

  /** One point of an exercise's progress chart; `volume` is `None` where the
      source computes `undefined * undefined`, that is `NaN`. */
  datatype ProgressPoint = ProgressPoint(date: Day, weight: int, reps: int, volume: Option<int>)

  /** The point pushed for one logged exercise: its best set's weight, reps and volume. */
  function ExercisePoint(date: Day, ex: LoggedExercise): (r: ProgressPoint)
    ensures r.date == date
    ensures r.volume.None? <==> ex.sets == []
    ensures r.volume.Some? ==> exists b :: (0 <= b < |ex.sets| && r.weight == ex.sets[b].weight
      && r.reps == ex.sets[b].reps && r.volume.value == SetVolume(ex.sets[b]))
  {
    match BestSetIndex(ex.sets)
    case None => ProgressPoint(date, 0, 0, None)
    case Some(b) => ProgressPoint(date, ex.sets[b].weight, ex.sets[b].reps, Some(SetVolume(ex.sets[b])))
  }

  /** The points one workout adds to the series of `name`, in exercise order. */
  function ExSeries(date: Day, exs: seq<LoggedExercise>, name: string): seq<ProgressPoint>
  {
    if exs == [] then []
    else
      var last := exs[|exs| - 1];
      ExSeries(date, exs[..|exs| - 1], name) + (if last.name == name then [ExercisePoint(date, last)] else [])
  }

  /** The series of `name`: one point per occurrence of the exercise, in input
      order of the workouts. */
  function SeriesOf(es: seq<WorkoutEntry>, name: string): seq<ProgressPoint>
  {
    if es == [] then []
    else SeriesOf(es[..|es| - 1], name) + ExSeries(es[|es| - 1].date, es[|es| - 1].exercises, name)
  }

  datatype ExerciseProgress = ExerciseProgress(name: string, data: seq<ProgressPoint>)

  predicate DistinctNames(ps: seq<ExerciseProgress>)
  {
    forall i, j :: 0 <= i < j < |ps| ==> ps[i].name != ps[j].name
  }

  /** The invariant of the dictionary being filled: its keys are the names
      whose series so far is non-empty, each holding that series, and `order`
      lists the keys once each. */
  ghost predicate Filled(data: map<string, seq<ProgressPoint>>, order: seq<string>, done: seq<WorkoutEntry>)
  {
    && (forall k :: k in data <==> SeriesOf(done, k) != [])
    && (forall k :: k in data ==> data[k] == SeriesOf(done, k))
    && (forall a, b :: 0 <= a < b < |order| ==> order[a] != order[b])
    && (forall k :: k in order <==> k in data)
  }

  lemma ExSeriesSnoc(date: Day, exs: seq<LoggedExercise>, j: nat, name: string)
    requires j < |exs|
    ensures ExSeries(date, exs[..j + 1], name) ==
      ExSeries(date, exs[..j], name) + (if exs[j].name == name then [ExercisePoint(date, exs[j])] else [])
  {
    assert exs[..j + 1][..j] == exs[..j];
  }

  lemma SeriesSnoc(es: seq<WorkoutEntry>, e: WorkoutEntry, name: string)
    ensures SeriesOf(es + [e], name) == SeriesOf(es, name) + ExSeries(e.date, e.exercises, name)
  {
    assert (es + [e])[..|es|] == es;
  }

  /** The series of `k` once the workouts `done` and the first `j` exercises
      of `entry` have been processed. */
  ghost function Pending(done: seq<WorkoutEntry>, entry: WorkoutEntry, j: nat, k: string): seq<ProgressPoint>
    requires j <= |entry.exercises|
  {
    SeriesOf(done, k) + ExSeries(entry.date, entry.exercises[..j], k)
  }

  lemma PendingStep(done: seq<WorkoutEntry>, entry: WorkoutEntry, j: nat, k: string)
    requires j < |entry.exercises|
    ensures Pending(done, entry, j + 1, k) == Pending(done, entry, j, k)
      + (if entry.exercises[j].name == k then [ExercisePoint(entry.date, entry.exercises[j])] else [])
  {
    ExSeriesSnoc(entry.date, entry.exercises, j, k);
  }

  lemma PendingDone(done: seq<WorkoutEntry>, entry: WorkoutEntry, k: string)
    ensures Pending(done, entry, |entry.exercises|, k) == SeriesOf(done + [entry], k)
    ensures Pending(done, entry, 0, k) == SeriesOf(done, k)
  {
    assert entry.exercises[..|entry.exercises|] == entry.exercises;
    assert entry.exercises[..0] == [];
    SeriesSnoc(done, entry, k);
  }

  /** The invariant of the inner loop: the dictionary holds every series over
      the workouts `done` and the first `j` exercises of `entry`. */
  ghost predicate PartFilled(data: map<string, seq<ProgressPoint>>, order: seq<string>,
                             done: seq<WorkoutEntry>, entry: WorkoutEntry, j: nat)
    requires j <= |entry.exercises|
  {
    && (forall k :: k in data <==> Pending(done, entry, j, k) != [])
    && (forall k :: k in data ==> data[k] == Pending(done, entry, j, k))
    && (forall a, b :: 0 <= a < b < |order| ==> order[a] != order[b])
    && (forall k :: k in order <==> k in data)
  }

  lemma PartFilledStart(data: map<string, seq<ProgressPoint>>, order: seq<string>, done: seq<WorkoutEntry>, entry: WorkoutEntry)
    requires Filled(data, order, done)
    ensures PartFilled(data, order, done, entry, 0)
  {
    forall k ensures Pending(done, entry, 0, k) == SeriesOf(done, k) {
      PendingDone(done, entry, k);
    }
  }

  lemma PartFilledEnd(data: map<string, seq<ProgressPoint>>, order: seq<string>, done: seq<WorkoutEntry>, entry: WorkoutEntry)
    requires PartFilled(data, order, done, entry, |entry.exercises|)
    ensures Filled(data, order, done + [entry])
  {
    forall k ensures Pending(done, entry, |entry.exercises|, k) == SeriesOf(done + [entry], k) {
      PendingDone(done, entry, k);
    }
  }

  /** Pushing the point of exercise `j` under its name keeps the invariant. */
  lemma PartFilledStep(data: map<string, seq<ProgressPoint>>, order: seq<string>, done: seq<WorkoutEntry>, entry: WorkoutEntry, j: nat,
                       data': map<string, seq<ProgressPoint>>, order': seq<string>)
    requires j < |entry.exercises| && PartFilled(data, order, done, entry, j)
    requires var ex := entry.exercises[j];
      data' == data[ex.name := (if ex.name in data then data[ex.name] else []) + [ExercisePoint(entry.date, ex)]]
    requires var ex := entry.exercises[j];
      order' == if ex.name in data then order else order + [ex.name]
    ensures PartFilled(data', order', done, entry, j + 1)
  {
    var ex := entry.exercises[j];
    forall k ensures Pending(done, entry, j + 1, k) == Pending(done, entry, j, k)
      + (if ex.name == k then [ExercisePoint(entry.date, ex)] else [])
    {
      PendingStep(done, entry, j, k);
    }
  }

  /** The inner `exercises.forEach` of `processExerciseProgress` for one workout:
      pushes one point per exercise under its name, creating the key on first use. */
  method AddWorkout(data: map<string, seq<ProgressPoint>>, order: seq<string>, ghost done: seq<WorkoutEntry>, entry: WorkoutEntry)
    returns (data': map<string, seq<ProgressPoint>>, order': seq<string>)
    requires Filled(data, order, done)
    ensures Filled(data', order', done + [entry])
  {
    data', order' := data, order;
    PartFilledStart(data, order, done, entry);
    var j := 0;
    while j < |entry.exercises|
      invariant 0 <= j <= |entry.exercises|
      invariant PartFilled(data', order', done, entry, j)
    {
      var ex := entry.exercises[j];
      var current := if ex.name in data' then data'[ex.name] else [];
      var nextOrder := if ex.name in data' then order' else order' + [ex.name];
      var nextData := data'[ex.name := current + [ExercisePoint(entry.date, ex)]];
      PartFilledStep(data', order', done, entry, j, nextData, nextOrder);
      data', order' := nextData, nextOrder;
      j := j + 1;
    }
    PartFilledEnd(data', order', done, entry);
  }

  /** Before any workout the empty dictionary is filled. */
  lemma NothingFilled()
    ensures Filled(map[], [], [])
  {
  }

  /** `Object.entries(exerciseData).map(([name, data]) => ({ name, data }))`,
      keys in first-insertion order. */
  function Listed(data: map<string, seq<ProgressPoint>>, order: seq<string>): (r: seq<ExerciseProgress>)
    requires forall k :: k in order ==> k in data
    ensures |r| == |order| && forall n :: 0 <= n < |r| ==> r[n] == ExerciseProgress(order[n], data[order[n]])
  {
    seq(|order|, n requires 0 <= n < |order| => ExerciseProgress(order[n], data[order[n]]))
  }

  /** Listing a filled dictionary gives each exercise once, with its series. */
  lemma ListedMeaning(data: map<string, seq<ProgressPoint>>, order: seq<string>, entries: seq<WorkoutEntry>)
    requires Filled(data, order, entries)
    ensures DistinctNames(Listed(data, order))
    ensures forall n :: 0 <= n < |order| ==>
      Listed(data, order)[n].data == SeriesOf(entries, Listed(data, order)[n].name) && Listed(data, order)[n].data != []
    ensures forall name :: SeriesOf(entries, name) != [] ==>
      exists n :: 0 <= n < |order| && Listed(data, order)[n].name == name
  {
    var progress := Listed(data, order);
    forall name | SeriesOf(entries, name) != []
      ensures exists n :: 0 <= n < |order| && progress[n].name == name
    {
      var n :| 0 <= n < |order| && order[n] == name;
      assert progress[n].name == name;
    }
  }

  /** `processExerciseProgress`: fills a dictionary from exercise name to its
      points in nested loops over the workouts and their exercises, then lists
      the dictionary. */
  method ProcessExerciseProgress(entries: seq<WorkoutEntry>) returns (progress: seq<ExerciseProgress>)
    ensures DistinctNames(progress)
    ensures forall n :: 0 <= n < |progress| ==>
      progress[n].data == SeriesOf(entries, progress[n].name) && progress[n].data != []
    ensures forall name :: SeriesOf(entries, name) != [] ==>
      exists n :: 0 <= n < |progress| && progress[n].name == name
  {
    var exerciseData: map<string, seq<ProgressPoint>> := map[];
    var order: seq<string> := [];
    ghost var done: seq<WorkoutEntry> := [];
    NothingFilled();
    var i := 0;
    while i < |entries|
      invariant 0 <= i <= |entries| && done == entries[..i]
      invariant Filled(exerciseData, order, done)
    {
      exerciseData, order := AddWorkout(exerciseData, order, done, entries[i]);
      done := done + [entries[i]];
      i := i + 1;
    }
    assert done == entries;
    progress := Listed(exerciseData, order);
    ListedMeaning(exerciseData, order, done);
  }

  lemma {:induction false} ExSeriesMeaning(date: Day, exs: seq<LoggedExercise>, name: string)
    ensures ExSeries(date, exs, name) != [] <==> exists ex :: ex in exs && ex.name == name
    ensures forall p :: p in ExSeries(date, exs, name) ==>
      exists ex :: ex in exs && ex.name == name && p == ExercisePoint(date, ex)
  {
    if exs != [] {
      var init := exs[..|exs| - 1];
      ExSeriesMeaning(date, init, name);
      assert forall ex :: ex in exs <==> ex in init || ex == exs[|exs| - 1] by {
        assert exs == init + [exs[|exs| - 1]];
      }
    }
  }

  /** An exercise has a series exactly when some workout logged it, and each
      point of the series is the best-set point of one such logged exercise,
      dated with its workout. */
  lemma {:induction false} SeriesMeaning(es: seq<WorkoutEntry>, name: string)
    ensures SeriesOf(es, name) != [] <==>
      exists e, ex :: e in es && ex in e.exercises && ex.name == name
    ensures forall p :: p in SeriesOf(es, name) ==>
      exists e, ex :: e in es && ex in e.exercises && ex.name == name && p == ExercisePoint(e.date, ex)
  {
    if es != [] {
      var init, last := es[..|es| - 1], es[|es| - 1];
      SeriesMeaning(init, name);
      ExSeriesMeaning(last.date, last.exercises, name);
      assert forall e :: e in es <==> e in init || e == last by {
        assert es == init + [last];
      }
    }
  }

  // ---------------------------------------------------------------------
  // Recent personal records
  // ---------------------------------------------------------------------

  datatype PersonalRecord = PersonalRecord(exercise: string, weight: int, reps: int, date: Day)

  /** What `getRecentPRs` reports for one exercise: its last point, when there is
      no point before it or the last weight is strictly above the one before. */
  function RecentPR(ex: ExerciseProgress): (r: Option<PersonalRecord>)
    ensures r.Some? <==> |ex.data| == 1 || (|ex.data| >= 2 && ex.data[|ex.data| - 1].weight > ex.data[|ex.data| - 2].weight)
    ensures r.Some? ==> (r.value.exercise == ex.name && r.value.weight == ex.data[|ex.data| - 1].weight
      && r.value.date == ex.data[|ex.data| - 1].date)
  {
    if |ex.data| > 0 then
      var recent := ex.data[|ex.data| - 1];
      if |ex.data| == 1 || recent.weight > ex.data[|ex.data| - 2].weight then
        Some(PersonalRecord(ex.name, recent.weight, recent.reps, recent.date))
      else None
    else None
  }

  function CollectPRs(ps: seq<ExerciseProgress>): seq<PersonalRecord>
  {
    if ps == [] then []
    else
      var found := match RecentPR(ps[|ps| - 1]) case Some(pr) => [pr] case None => [];
      CollectPRs(ps[..|ps| - 1]) + found
  }

  /** `getRecentPRs`: pushes at most one record per exercise, in exercise order. */
  method GetRecentPRs(exerciseProgress: seq<ExerciseProgress>) returns (prs: seq<PersonalRecord>)
    ensures prs == CollectPRs(exerciseProgress)
  {
    prs := [];
    var i := 0;
    while i < |exerciseProgress|
      invariant 0 <= i <= |exerciseProgress|
      invariant prs == CollectPRs(exerciseProgress[..i])
    {
      var exercise := exerciseProgress[i];
      assert exerciseProgress[..i + 1][..i] == exerciseProgress[..i];
      if |exercise.data| > 0 {
        var recent := exercise.data[|exercise.data| - 1];
        if |exercise.data| == 1 || recent.weight > exercise.data[|exercise.data| - 2].weight {
          prs := prs + [PersonalRecord(exercise.name, recent.weight, recent.reps, recent.date)];
        }
      }
      i := i + 1;
    }
    assert exerciseProgress[..i] == exerciseProgress;
  }

  /** Each reported record is the one some exercise yields, and there are no
      more records than exercises. */
  lemma {:induction false} PRsComeFromExercises(ps: seq<ExerciseProgress>)
    ensures |CollectPRs(ps)| <= |ps|
    ensures forall pr :: pr in CollectPRs(ps) ==> exists ex :: ex in ps && RecentPR(ex) == Some(pr)
  {
    if ps != [] {
      var init, last := ps[..|ps| - 1], ps[|ps| - 1];
      PRsComeFromExercises(init);
      assert forall ex :: ex in init ==> ex in ps by {
        assert ps == init + [last];
      }
    }
  }

  /** At most one record per exercise: each reported record is the one its
      exercise yields, and when the exercise names are distinct so are the
      records' exercise names. */
  lemma {:induction false} AtMostOnePRPerExercise(ps: seq<ExerciseProgress>)
    ensures |CollectPRs(ps)| <= |ps|
    ensures forall pr :: pr in CollectPRs(ps) ==> exists ex :: ex in ps && RecentPR(ex) == Some(pr)
    ensures DistinctNames(ps) ==>
      forall a, b :: 0 <= a < b < |CollectPRs(ps)| ==> CollectPRs(ps)[a].exercise != CollectPRs(ps)[b].exercise
  {
    PRsComeFromExercises(ps);
    if ps != [] && DistinctNames(ps) {
      var init, last := ps[..|ps| - 1], ps[|ps| - 1];
      assert DistinctNames(init);
      AtMostOnePRPerExercise(init);
      forall pr | pr in CollectPRs(init) ensures pr.exercise != last.name {
        var ex :| ex in init && RecentPR(ex) == Some(pr);
        var k :| 0 <= k < |init| && init[k] == ex;
        assert ps[k] == ex;
      }
    }
  }

  // ---------------------------------------------------------------------
  // The order of the progress series
  // ---------------------------------------------------------------------

  function Reversed<T>(xs: seq<T>): (r: seq<T>)
    ensures |r| == |xs|
    ensures forall i :: 0 <= i < |xs| ==> r[i] == xs[|xs| - 1 - i]
  {
    if xs == [] then [] else Reversed(xs[1..]) + [xs[0]]
  }

  /** Workouts ordered newest first, as the habits endpoint returns them. */
  predicate NewestFirst(es: seq<WorkoutEntry>)
  {
    forall i, j :: 0 <= i < j < |es| ==> es[i].date >= es[j].date
  }

  predicate OldestFirst(es: seq<WorkoutEntry>)
  {
    forall i, j :: 0 <= i < j < |es| ==> es[i].date <= es[j].date
  }

  predicate PointsAscending(ps: seq<ProgressPoint>)
  {
    forall i, j :: 0 <= i < j < |ps| ==> ps[i].date <= ps[j].date
  }

  predicate PointsDescending(ps: seq<ProgressPoint>)
  {
    forall i, j :: 0 <= i < j < |ps| ==> ps[i].date >= ps[j].date
  }

  lemma {:induction false} ExSeriesDates(date: Day, exs: seq<LoggedExercise>, name: string)
    ensures forall p :: p in ExSeries(date, exs, name) ==> p.date == date
  {
    if exs != [] {
      ExSeriesDates(date, exs[..|exs| - 1], name);
    }
  }

  lemma {:induction false} SeriesAscending(es: seq<WorkoutEntry>, name: string)
    requires OldestFirst(es)
    ensures PointsAscending(SeriesOf(es, name))
    ensures es != [] ==> forall p :: p in SeriesOf(es, name) ==> p.date <= es[|es| - 1].date
  {
    if es != [] {
      var init, last := es[..|es| - 1], es[|es| - 1];
      SeriesAscending(init, name);
      ExSeriesDates(last.date, last.exercises, name);
      var a, b := SeriesOf(init, name), ExSeries(last.date, last.exercises, name);
      assert forall p :: p in a ==> p.date <= last.date by {
        if init != [] {
          assert init[|init| - 1] == es[|es| - 2];
        }
      }
      forall i, j | 0 <= i < j < |a + b| ensures (a + b)[i].date <= (a + b)[j].date {
        if j < |a| {
        } else if i < |a| {
          assert a[i] in a && b[j - |a|] in b;
        } else {
          assert b[i - |a|] in b && b[j - |a|] in b;
        }
      }
    }
  }

  lemma {:induction false} SeriesDescending(es: seq<WorkoutEntry>, name: string)
    requires NewestFirst(es)
    ensures PointsDescending(SeriesOf(es, name))
    ensures es != [] ==> forall p :: p in SeriesOf(es, name) ==> p.date >= es[|es| - 1].date
  {
    if es != [] {
      var init, last := es[..|es| - 1], es[|es| - 1];
      SeriesDescending(init, name);
      ExSeriesDates(last.date, last.exercises, name);
      var a, b := SeriesOf(init, name), ExSeries(last.date, last.exercises, name);
      assert forall p :: p in a ==> p.date >= last.date by {
        if init != [] {
          assert init[|init| - 1] == es[|es| - 2];
        }
      }
      forall i, j | 0 <= i < j < |a + b| ensures (a + b)[i].date >= (a + b)[j].date {
        if j < |a| {
        } else if i < |a| {
          assert a[i] in a && b[j - |a|] in b;
        } else {
          assert b[i - |a|] in b && b[j - |a|] in b;
        }
      }
    }
  }

  /** As written, the series are built from newest-first workouts without
      reversing them, so each series runs from newest to oldest and the point
      `getRecentPRs` treats as the most recent is the oldest one. */
  lemma AsWrittenSeriesNewestFirst(entries: seq<WorkoutEntry>, name: string)
    requires NewestFirst(entries)
    ensures PointsDescending(SeriesOf(entries, name))
  {
    SeriesDescending(entries, name);
  }

  lemma OneExerciseSeries(date: Day, ex: LoggedExercise)
    ensures ExSeries(date, [ex], ex.name) == [ExercisePoint(date, ex)]
  {
    assert [ex][..0] == [];
  }

  lemma TwoWorkoutSeries(a: WorkoutEntry, b: WorkoutEntry, name: string)
    ensures SeriesOf([a, b], name) == ExSeries(a.date, a.exercises, name) + ExSeries(b.date, b.exercises, name)
  {
    assert [a, b][..1] == [a];
    assert [a][..0] == [];
    assert SeriesOf([a], name) == ExSeries(a.date, a.exercises, name);
  }

  /** A workout holding one exercise done as one set. */
  predicate OneSetWorkout(e: WorkoutEntry)
  {
    |e.exercises| == 1 && |e.exercises[0].sets| == 1
  }

  /** The point of a one-set exercise is that set. */
  lemma OneSetPoint(date: Day, ex: LoggedExercise)
    requires |ex.sets| == 1
    ensures ExercisePoint(date, ex) == ProgressPoint(date, ex.sets[0].weight, ex.sets[0].reps, Some(SetVolume(ex.sets[0])))
  {
    assert BestIndexFromBounded(ex.sets, 0, 1) == 0;
  }

  /** The series of two one-set workouts of the same exercise: their two points,
      in the order the workouts are given. */
  lemma TwoOneSetSeries(first: WorkoutEntry, second: WorkoutEntry)
    requires OneSetWorkout(first) && OneSetWorkout(second)
    requires first.exercises[0].name == second.exercises[0].name
    ensures var name := first.exercises[0].name;
      SeriesOf([first, second], name) == [ExercisePoint(first.date, first.exercises[0]), ExercisePoint(second.date, second.exercises[0])]
  {
    var name := first.exercises[0].name;
    assert first.exercises == [first.exercises[0]];
    assert second.exercises == [second.exercises[0]];
    OneExerciseSeries(first.date, first.exercises[0]);
    OneExerciseSeries(second.date, second.exercises[0]);
    TwoWorkoutSeries(first, second, name);
  }

  /** As written, for two one-set workouts of one exercise given newest first,
      the record check compares the older lift against the newer one: it reports
      the OLDER lift, dated on the older day, exactly when it is the heavier. */
  lemma AsWrittenComparesOlderToNewer(newer: WorkoutEntry, older: WorkoutEntry)
    requires OneSetWorkout(newer) && OneSetWorkout(older)
    requires newer.exercises[0].name == older.exercises[0].name
    ensures var name := newer.exercises[0].name;
      var n, o := newer.exercises[0].sets[0], older.exercises[0].sets[0];
      RecentPR(ExerciseProgress(name, SeriesOf([newer, older], name)))
        == if o.weight > n.weight then Some(PersonalRecord(name, o.weight, o.reps, older.date)) else None
  {
    TwoOneSetSeries(newer, older);
    OneSetPoint(newer.date, newer.exercises[0]);
    OneSetPoint(older.date, older.exercises[0]);
  }

  /** A concrete case: the latest workout lifted 200 after 100 the day before,
      yet no record is reported; with the weights swapped, the older 200 is
      reported as a new record dated on the older day. */
  lemma AsWrittenMissesLatestPR()
    ensures var newer := WorkoutEntry(2, [LoggedExercise("Bench Press", [LoggedSet(5, 200, true)], Some(1000), None)], None);
      var older := WorkoutEntry(1, [LoggedExercise("Bench Press", [LoggedSet(5, 100, true)], Some(500), None)], None);
      && NewestFirst([newer, older])
      && RecentPR(ExerciseProgress("Bench Press", SeriesOf([newer, older], "Bench Press"))) == None
    ensures var newer := WorkoutEntry(2, [LoggedExercise("Bench Press", [LoggedSet(5, 100, true)], Some(500), None)], None);
      var older := WorkoutEntry(1, [LoggedExercise("Bench Press", [LoggedSet(5, 200, true)], Some(1000), None)], None);
      && NewestFirst([newer, older])
      && RecentPR(ExerciseProgress("Bench Press", SeriesOf([newer, older], "Bench Press")))
        == Some(PersonalRecord("Bench Press", 200, 5, 1))
  {
    var hi := LoggedExercise("Bench Press", [LoggedSet(5, 200, true)], Some(1000), None);
    var lo := LoggedExercise("Bench Press", [LoggedSet(5, 100, true)], Some(500), None);
    AsWrittenComparesOlderToNewer(WorkoutEntry(2, [hi], None), WorkoutEntry(1, [lo], None));
    AsWrittenComparesOlderToNewer(WorkoutEntry(2, [lo], None), WorkoutEntry(1, [hi], None));
  }

  /** The series in chronological order: the newest-first workouts reversed
      first, as the volume chart already does. */
  function ChronologicalSeries(entries: seq<WorkoutEntry>, name: string): seq<ProgressPoint>
  {
    SeriesOf(Reversed(entries), name)
  }

  /** The record check applied to the chronological series. */
  function CorrectedRecentPR(entries: seq<WorkoutEntry>, name: string): Option<PersonalRecord>
  {
    RecentPR(ExerciseProgress(name, ChronologicalSeries(entries, name)))
  }

  /** With the workouts reversed first, every series runs from oldest to newest,
      so a reported record is dated on the newest workout that logged the
      exercise, and the two concrete cases above come out as intended. */
  lemma CorrectedRecentIsNewest(entries: seq<WorkoutEntry>, name: string)
    requires NewestFirst(entries)
    ensures PointsAscending(ChronologicalSeries(entries, name))
    ensures CorrectedRecentPR(entries, name).Some? ==>
      forall p :: p in ChronologicalSeries(entries, name) ==> p.date <= CorrectedRecentPR(entries, name).value.date
  {
    var r := Reversed(entries);
    assert OldestFirst(r) by {
      forall i, j | 0 <= i < j < |r| ensures r[i].date <= r[j].date {
        assert r[i] == entries[|entries| - 1 - i] && r[j] == entries[|entries| - 1 - j];
      }
    }
    SeriesAscending(r, name);
    var s := ChronologicalSeries(entries, name);
    if CorrectedRecentPR(entries, name).Some? {
      forall p | p in s ensures p.date <= s[|s| - 1].date {
        var k :| 0 <= k < |s| && s[k] == p;
      }
    }
  }

  /** Corrected, for two one-set workouts of one exercise given newest first,
      the newer lift is reported, dated on the newer day, exactly when it is
      heavier than the older one. */
  lemma CorrectedComparesNewerToOlder(newer: WorkoutEntry, older: WorkoutEntry)
    requires OneSetWorkout(newer) && OneSetWorkout(older)
    requires newer.exercises[0].name == older.exercises[0].name
    ensures var name := newer.exercises[0].name;
      var n, o := newer.exercises[0].sets[0], older.exercises[0].sets[0];
      CorrectedRecentPR([newer, older], name)
        == if n.weight > o.weight then Some(PersonalRecord(name, n.weight, n.reps, newer.date)) else None
  {
    assert Reversed([newer, older]) == [older, newer];
    TwoOneSetSeries(older, newer);
    OneSetPoint(newer.date, newer.exercises[0]);
    OneSetPoint(older.date, older.exercises[0]);
  }
}
