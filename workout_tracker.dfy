/**
 * The live gym workout session: a list of exercises whose sets are edited in
 * place, an (exercise, set) cursor that walks through the workout, a running
 * volume total, the rest countdown's tick, and the workout record handed to
 * the log callback when the workout finishes.
 */
module WorkoutTracker {
  import opened JsBase
  import opened GymAnalytics

  /** An exercise of the session; its sets are `LoggedSet`s (reps, weight, completed). */
  datatype TrackedExercise = TrackedExercise(id: string, name: string, sets: seq<LoggedSet>, restTime: int)

  datatype SetField = Reps | Weight

  /** The payload of `finishWorkout`, as passed to the log callback. */
  datatype WorkoutData = WorkoutData(
    exercises: seq<LoggedExercise>,
    totalVolume: int,
    duration: int,
    completedSets: nat,
    totalSets: nat)

  /** The session's opening exercises. */
  function DefaultExercises(): seq<TrackedExercise>
  {
    [ TrackedExercise("1", "Bench Press",
        [LoggedSet(12, 135, false), LoggedSet(10, 155, false), LoggedSet(8, 175, false)], 90),
      TrackedExercise("2", "Squats",
        [LoggedSet(12, 185, false), LoggedSet(10, 205, false), LoggedSet(8, 225, false)], 120),
      TrackedExercise("3", "Deadlifts",
        [LoggedSet(8, 225, false), LoggedSet(6, 245, false), LoggedSet(4, 265, false)], 180) ]
  }

  // ---------------------------------------------------------------------
  // Counts and volumes
  // ---------------------------------------------------------------------

  /** `sets.reduce((sum, set) => sum + set.reps * set.weight, 0)`, completed or not. */
  function SetsVolume(sets: seq<LoggedSet>): int
  {
    if sets == [] then 0 else SetVolume(sets[0]) + SetsVolume(sets[1..])
  }

  function CountCompleted(sets: seq<LoggedSet>): (n: nat)
    ensures n <= |sets|
  {
    if sets == [] then 0 else (if sets[0].completed then 1 else 0) + CountCompleted(sets[1..])
  }

  /** `exercises.flatMap(ex => ex.sets).filter(set => set.completed).length` */
  function CompletedSets(exs: seq<TrackedExercise>): nat
  {
    if exs == [] then 0 else CompletedSets(exs[..|exs| - 1]) + CountCompleted(exs[|exs| - 1].sets)
  }

  /** `exercises.flatMap(ex => ex.sets).length` */
  function TotalSets(exs: seq<TrackedExercise>): nat
  {
    if exs == [] then 0 else TotalSets(exs[..|exs| - 1]) + |exs[|exs| - 1].sets|
  }

  /** A workout never counts more completed sets than it has sets. */
  lemma {:induction false} CompletedAtMostTotal(exs: seq<TrackedExercise>)
    ensures CompletedSets(exs) <= TotalSets(exs)
  {
    if exs != [] {
      CompletedAtMostTotal(exs[..|exs| - 1]);
    }
  }

  predicate AllHaveSets(exs: seq<TrackedExercise>)
  {
    forall i :: 0 <= i < |exs| ==> |exs[i].sets| >= 1
  }

  // ---------------------------------------------------------------------
  // Set edits
  // ---------------------------------------------------------------------

  /** `x || fallback` on a number. */
  function OrDefault(x: int, fallback: int): int
  {
    if x == 0 then fallback else x
  }

  /** The sets after `addSet`: one uncompleted set appended that copies the last
      set's reps and weight (10 and 135 where those are 0), or a single
      `{10, 135}` set for an exercise without sets. */
  function AddedSets(sets: seq<LoggedSet>): (r: seq<LoggedSet>)
    ensures |r| == |sets| + 1 && r[..|sets|] == sets
    ensures !r[|sets|].completed
    ensures sets == [] ==> r[0] == LoggedSet(10, 135, false)
    ensures sets != [] ==> (r[|sets|].reps == OrDefault(sets[|sets| - 1].reps, 10)
      && r[|sets|].weight == OrDefault(sets[|sets| - 1].weight, 135))
  {
    if sets == [] then [LoggedSet(10, 135, false)]
    else
      var lastSet := sets[|sets| - 1];
      sets + [LoggedSet(OrDefault(lastSet.reps, 10), OrDefault(lastSet.weight, 135), false)]
  }

  /** Where `splice(start, 1)` removes an element of a list of length `len`:
      a negative start counts from the end. */
  function SpliceStart(len: nat, start: int): nat
  {
    if start >= 0 then start else if len + start >= 0 then len + start else 0
  }

  /** The sets after `removeSet`: one set removed by `splice(setIndex, 1)`, but
      only when the exercise has more than one set. */
  function RemovedSets(sets: seq<LoggedSet>, setIndex: int): (r: seq<LoggedSet>)
    ensures |sets| >= 1 ==> |r| >= 1
    ensures |sets| <= 1 ==> r == sets
    ensures |r| == |sets| || |r| == |sets| - 1
    ensures |sets| > 1 && 0 <= setIndex < |sets| ==> r == sets[..setIndex] + sets[setIndex + 1..]
    ensures setIndex >= |sets| ==> r == sets
  {
    var start := SpliceStart(|sets|, setIndex);
    if |sets| > 1 && start < |sets| then sets[..start] + sets[start + 1..] else sets
  }

  function WithField(s: LoggedSet, field: SetField, value: int): LoggedSet
  {
    match field
    case Reps => s.(reps := value)
    case Weight => s.(weight := value)
  }

  /** The exercises after `updateSet`: the named field of the addressed set, and
      nothing else, is changed; out-of-range indices change nothing. */
  function UpdatedExercises(exs: seq<TrackedExercise>, exerciseIndex: int, setIndex: int, field: SetField, value: int)
    : (r: seq<TrackedExercise>)
    ensures |r| == |exs|
    ensures forall i :: 0 <= i < |exs| && i != exerciseIndex ==> r[i] == exs[i]
    ensures forall i :: 0 <= i < |exs| ==> (r[i].name == exs[i].name && r[i].id == exs[i].id
      && r[i].restTime == exs[i].restTime && |r[i].sets| == |exs[i].sets|)
    ensures forall i, j :: 0 <= i < |exs| && 0 <= j < |exs[i].sets| && (i, j) != (exerciseIndex, setIndex) ==>
      r[i].sets[j] == exs[i].sets[j]
    ensures 0 <= exerciseIndex < |exs| && 0 <= setIndex < |exs[exerciseIndex].sets| ==>
      r[exerciseIndex].sets[setIndex] == WithField(exs[exerciseIndex].sets[setIndex], field, value)
  {
    if 0 <= exerciseIndex < |exs| && 0 <= setIndex < |exs[exerciseIndex].sets| then
      var ex := exs[exerciseIndex];
      exs[exerciseIndex := ex.(sets := ex.sets[setIndex := WithField(ex.sets[setIndex], field, value)])]
    else exs
  }

  /** The exercises with the addressed set marked completed. */
  function MarkCompleted(exs: seq<TrackedExercise>, e: nat, s: nat): seq<TrackedExercise>
    requires e < |exs| && s < |exs[e].sets|
  {
    exs[e := exs[e].(sets := exs[e].sets[s := exs[e].sets[s].(completed := true)])]
  }

  lemma {:induction false} CountCompletedMark(sets: seq<LoggedSet>, s: nat)
    requires s < |sets|
    ensures CountCompleted(sets[s := sets[s].(completed := true)]) ==
      CountCompleted(sets) + (if sets[s].completed then 0 else 1)
  {
    if s > 0 {
      CountCompletedMark(sets[1..], s - 1);
      assert sets[s := sets[s].(completed := true)][1..] == sets[1..][s - 1 := sets[s].(completed := true)];
    }
  }

  lemma {:induction false} SumsUnderReplace(exs: seq<TrackedExercise>, e: nat, ex: TrackedExercise)
    requires e < |exs|
    ensures TotalSets(exs[e := ex]) == TotalSets(exs) - |exs[e].sets| + |ex.sets|
    ensures CompletedSets(exs[e := ex]) == CompletedSets(exs) - CountCompleted(exs[e].sets) + CountCompleted(ex.sets)
  {
    var n := |exs|;
    if e == n - 1 {
      assert exs[e := ex][..n - 1] == exs[..n - 1];
    } else {
      SumsUnderReplace(exs[..n - 1], e, ex);
      assert exs[e := ex][..n - 1] == exs[..n - 1][e := ex];
    }
  }

  /** Marking a set completed adds one completed set, unless it already was,
      and keeps the number of sets. */
  lemma MarkCompletedCounts(exs: seq<TrackedExercise>, e: nat, s: nat)
    requires e < |exs| && s < |exs[e].sets|
    ensures TotalSets(MarkCompleted(exs, e, s)) == TotalSets(exs)
    ensures CompletedSets(MarkCompleted(exs, e, s)) ==
      CompletedSets(exs) + (if exs[e].sets[s].completed then 0 else 1)
  {
    var sets := exs[e].sets;
    CountCompletedMark(sets, s);
    SumsUnderReplace(exs, e, exs[e].(sets := sets[s := sets[s].(completed := true)]));
  }

  // ---------------------------------------------------------------------
  // The cursor
  // ---------------------------------------------------------------------

  datatype Step = NextSet | NextExercise | Finish

  /** `moveToNextSet`'s three branches. */
  function StepFrom(exs: seq<TrackedExercise>, e: nat, s: nat): Step
    requires e < |exs|
  {
    if s < |exs[e].sets| - 1 then NextSet
    else if e < |exs| - 1 then NextExercise
    else Finish
  }

  /** The rank of set `s` of exercise `e` in the whole workout. */
  function Position(exs: seq<TrackedExercise>, e: nat, s: nat): nat
    requires e <= |exs|
  {
    TotalSets(exs[..e]) + s
  }

  lemma {:induction false} TotalSetsPrefix(exs: seq<TrackedExercise>, e: nat)
    requires e < |exs|
    ensures TotalSets(exs[..e + 1]) == TotalSets(exs[..e]) + |exs[e].sets|
    ensures TotalSets(exs[..e + 1]) <= TotalSets(exs)
    decreases |exs| - e
  {
    assert exs[..e + 1][..e] == exs[..e];
    if e + 1 < |exs| {
      TotalSetsPrefix(exs, e + 1);
    } else {
      assert exs[..e + 1] == exs;
    }
  }

  /** When every exercise has a set, the cursor visits every set once, in
      order: each step moves to the next position of the workout, and the
      workout finishes exactly at the last one. */
  lemma CursorWalksEverySet(exs: seq<TrackedExercise>, e: nat, s: nat)
    requires AllHaveSets(exs) && e < |exs| && s < |exs[e].sets|
    ensures Position(exs, e, s) < TotalSets(exs)
    ensures StepFrom(exs, e, s) == Finish <==> Position(exs, e, s) == TotalSets(exs) - 1
    ensures StepFrom(exs, e, s) == NextSet ==> Position(exs, e, s + 1) == Position(exs, e, s) + 1
    ensures StepFrom(exs, e, s) == NextExercise ==>
      e + 1 < |exs| && Position(exs, e + 1, 0) == Position(exs, e, s) + 1
  {
    TotalSetsPrefix(exs, e);
    match StepFrom(exs, e, s)
    case NextSet =>
    case NextExercise =>
      TotalSetsPrefix(exs, e + 1);
    case Finish =>
      assert exs[..e + 1] == exs;
  }

  // ---------------------------------------------------------------------
  // Formatting and the record
  // ---------------------------------------------------------------------

  /** `formatTime`: whole minutes, a colon, and the seconds padded to two digits. */
  function FormatTime(seconds: nat): string
  {
    NatToString(seconds / 60) + ":" + Pad2(seconds % 60)
  }

  /** The text reads back as the time: the part before the colon parses to the
      minutes, the last two characters are the seconds, and 60 × minutes +
      seconds is the input. */
  lemma FormatTimeReadsBack(seconds: nat)
    ensures var t := FormatTime(seconds);
      && |t| >= 4
      && ParseInt(t) == Some(seconds / 60)
      && t[|t| - 3] == ':'
      && AllDigits(t[|t| - 2..])
      && 60 * (seconds / 60) + DigitsValue(t[|t| - 2..]) == seconds
  {
    var m, p := NatToString(seconds / 60), Pad2(seconds % 60);
    Pad2Value(seconds % 60);
    var t := m + ":" + p;
    assert t == m + (":" + p);
    ParseIntOfNatToString(seconds / 60, ":" + p);
    assert t[|t| - 2..] == p;
  }

  /** `Math.floor((now - start) / 60000)` minutes since the start, 0 when not started. */
  function Duration(start: Option<int>, now: int): int
  {
    match start
    case Some(t) => (now - t) / 60000
    case None => 0
  }

  /** An exercise as `finishWorkout` logs it: its name, all its sets and their volume. */
  function ToLogged(ex: TrackedExercise): LoggedExercise
  {
    LoggedExercise(ex.name, ex.sets, Some(SetsVolume(ex.sets)), None)
  }

  function LogExercises(exs: seq<TrackedExercise>): (r: seq<LoggedExercise>)
    ensures |r| == |exs| && forall i :: 0 <= i < |exs| ==> r[i] == ToLogged(exs[i])
  {
    if exs == [] then [] else [ToLogged(exs[0])] + LogExercises(exs[1..])
  }

  function FinishRecord(exs: seq<TrackedExercise>, totalVolume: int, start: Option<int>, now: int): WorkoutData
  {
    WorkoutData(LogExercises(exs), totalVolume, Duration(start, now), CompletedSets(exs), TotalSets(exs))
  }

  function AllSetsVolume(exs: seq<TrackedExercise>): int
  {
    if exs == [] then 0 else SetsVolume(exs[0].sets) + AllSetsVolume(exs[1..])
  }

  /** Once logged, a workout's volume as the analytics read it is the volume of
      every set, completed or not: the stored per-exercise totals count them all. */
  lemma {:induction false} LoggedVolumeCountsEverySet(exs: seq<TrackedExercise>)
    ensures StoredVolume(LogExercises(exs)) == AllSetsVolume(exs)
  {
    if exs != [] {
      LoggedVolumeCountsEverySet(exs[1..]);
      assert LogExercises(exs)[1..] == LogExercises(exs[1..]);
    }
  }

  // ---------------------------------------------------------------------
  // The session
  // ---------------------------------------------------------------------

  class WorkoutSession {
    var exercises: seq<TrackedExercise>
    var currentExerciseIndex: int
    var currentSetIndex: int
    var isResting: bool
    var restTimeLeft: int
    var workoutStartTime: Option<int>
    var totalVolume: int
    /** The workouts handed to the log callback, oldest first. */
    var logged: seq<WorkoutData>

    /** The exercise cursor stays on an exercise, and no exercise ever loses its last set. */
    ghost predicate Valid()
      reads this
    {
      && |exercises| >= 1
      && 0 <= currentExerciseIndex < |exercises|
      && currentSetIndex >= 0
      && AllHaveSets(exercises)
    }

    constructor ()
      ensures Valid()
      ensures exercises == DefaultExercises()
      ensures currentExerciseIndex == 0 && currentSetIndex == 0
      ensures !isResting && restTimeLeft == 0 && workoutStartTime == None
      ensures totalVolume == 0 && logged == []
    {
      exercises := DefaultExercises();
      currentExerciseIndex := 0;
      currentSetIndex := 0;
      isResting := false;
      restTimeLeft := 0;
      workoutStartTime := None;
      totalVolume := 0;
      logged := [];
    }

    /** The cursor points at an existing set. */
    predicate HasCurrentSet()
      reads this
    {
      0 <= currentExerciseIndex < |exercises| && 0 <= currentSetIndex < |exercises[currentExerciseIndex].sets|
    }

    method StartWorkout(now: int)
      modifies this
      ensures workoutStartTime == Some(now)
      ensures exercises == old(exercises) && totalVolume == old(totalVolume) && logged == old(logged)
      ensures currentExerciseIndex == old(currentExerciseIndex) && currentSetIndex == old(currentSetIndex)
      ensures isResting == old(isResting) && restTimeLeft == old(restTimeLeft)
    {
      workoutStartTime := Some(now);
    }

    /** `finishWorkout`: hands one record to the log callback. */
    method FinishWorkout(now: int)
      modifies this
      ensures logged == old(logged) + [FinishRecord(exercises, totalVolume, workoutStartTime, now)]
      ensures exercises == old(exercises) && totalVolume == old(totalVolume)
      ensures workoutStartTime == old(workoutStartTime)
      ensures currentExerciseIndex == old(currentExerciseIndex) && currentSetIndex == old(currentSetIndex)
      ensures isResting == old(isResting) && restTimeLeft == old(restTimeLeft)
    {
      var duration := match workoutStartTime case Some(t) => (now - t) / 60000 case None => 0;
      var workoutData := WorkoutData(LogExercises(exercises), totalVolume, duration,
        CompletedSets(exercises), TotalSets(exercises));
      logged := logged + [workoutData];
    }

    /** `moveToNextSet`: the next set of this exercise, else the first set of the
        next exercise, else the end of the workout. */
    method MoveToNextSet(now: int)
      requires Valid()
      modifies this
      ensures Valid()
      ensures exercises == old(exercises) && totalVolume == old(totalVolume)
      ensures workoutStartTime == old(workoutStartTime)
      ensures isResting == old(isResting) && restTimeLeft == old(restTimeLeft)
      ensures match StepFrom(old(exercises), old(currentExerciseIndex), old(currentSetIndex))
        case NextSet =>
          currentExerciseIndex == old(currentExerciseIndex) && currentSetIndex == old(currentSetIndex) + 1
          && logged == old(logged)
        case NextExercise =>
          currentExerciseIndex == old(currentExerciseIndex) + 1 && currentSetIndex == 0
          && logged == old(logged)
        case Finish =>
          currentExerciseIndex == old(currentExerciseIndex) && currentSetIndex == old(currentSetIndex)
          && logged == old(logged) + [FinishRecord(exercises, totalVolume, workoutStartTime, now)]
    {
      if currentSetIndex < |exercises[currentExerciseIndex].sets| - 1 {
        currentSetIndex := currentSetIndex + 1;
      } else if currentExerciseIndex < |exercises| - 1 {
        currentExerciseIndex := currentExerciseIndex + 1;
        currentSetIndex := 0;
      } else {
        FinishWorkout(now);
      }
    }

    /** `completeSet`: without a current set nothing happens; otherwise the set is
        marked completed, its reps × weight is added to the running volume, and
        either the rest countdown starts or, without rest, the cursor moves on. */
    method CompleteSet(now: int)
      requires Valid()
      modifies this
      ensures Valid()
      ensures !old(HasCurrentSet()) ==>
        exercises == old(exercises) && totalVolume == old(totalVolume) && logged == old(logged)
        && currentExerciseIndex == old(currentExerciseIndex) && currentSetIndex == old(currentSetIndex)
        && isResting == old(isResting) && restTimeLeft == old(restTimeLeft)
      ensures old(HasCurrentSet()) ==>
        exercises == MarkCompleted(old(exercises), old(currentExerciseIndex), old(currentSetIndex))
        && totalVolume == old(totalVolume) + SetVolume(old(exercises)[old(currentExerciseIndex)].sets[old(currentSetIndex)])
      ensures old(HasCurrentSet()) && old(exercises)[old(currentExerciseIndex)].restTime > 0 ==>
        isResting && restTimeLeft == old(exercises)[old(currentExerciseIndex)].restTime
        && logged == old(logged)
        && currentExerciseIndex == old(currentExerciseIndex) && currentSetIndex == old(currentSetIndex)
      ensures old(HasCurrentSet()) && old(exercises)[old(currentExerciseIndex)].restTime <= 0 ==>
        isResting == old(isResting) && restTimeLeft == old(restTimeLeft)
        && match StepFrom(old(exercises), old(currentExerciseIndex), old(currentSetIndex))
          case NextSet =>
            currentExerciseIndex == old(currentExerciseIndex) && currentSetIndex == old(currentSetIndex) + 1
            && logged == old(logged)
          case NextExercise =>
            currentExerciseIndex == old(currentExerciseIndex) + 1 && currentSetIndex == 0
            && logged == old(logged)
          case Finish =>
            currentExerciseIndex == old(currentExerciseIndex) && currentSetIndex == old(currentSetIndex)
            && logged == old(logged) + [FinishRecord(exercises, totalVolume, workoutStartTime, now)]
      ensures workoutStartTime == old(workoutStartTime)
    {
      if !HasCurrentSet() {
        return;
      }
      var e, s := currentExerciseIndex, currentSetIndex;
      var currentSet := exercises[e].sets[s];
      exercises := MarkCompleted(exercises, e, s);
      var setVolume := currentSet.reps * currentSet.weight;
      totalVolume := totalVolume + setVolume;
      if exercises[e].restTime > 0 {
        isResting := true;
        restTimeLeft := exercises[e].restTime;
      } else {
        MoveToNextSet(now);
      }
    }

    /** One tick of the rest countdown: at 1 or below the rest ends and the
        cursor moves on, otherwise one second is taken off. */
    method RestTick(now: int)
      requires Valid()
      modifies this
      ensures Valid()
      ensures exercises == old(exercises) && totalVolume == old(totalVolume)
      ensures workoutStartTime == old(workoutStartTime)
      ensures old(restTimeLeft) > 1 ==>
        restTimeLeft == old(restTimeLeft) - 1 && isResting == old(isResting) && logged == old(logged)
        && currentExerciseIndex == old(currentExerciseIndex) && currentSetIndex == old(currentSetIndex)
      ensures old(restTimeLeft) <= 1 ==> restTimeLeft == 0 && !isResting
      ensures old(restTimeLeft) <= 1 ==>
        match StepFrom(old(exercises), old(currentExerciseIndex), old(currentSetIndex))
        case NextSet =>
          currentExerciseIndex == old(currentExerciseIndex) && currentSetIndex == old(currentSetIndex) + 1
          && logged == old(logged)
        case NextExercise =>
          currentExerciseIndex == old(currentExerciseIndex) + 1 && currentSetIndex == 0
          && logged == old(logged)
        case Finish =>
          currentExerciseIndex == old(currentExerciseIndex) && currentSetIndex == old(currentSetIndex)
          && logged == old(logged) + [FinishRecord(exercises, totalVolume, workoutStartTime, now)]
    {
      if restTimeLeft <= 1 {
        isResting := false;
        MoveToNextSet(now);
        restTimeLeft := 0;
      } else {
        restTimeLeft := restTimeLeft - 1;
      }
    }

    /** "Skip Rest": hides the countdown; the countdown itself keeps ticking. */
    method SkipRest()
      modifies this
      ensures !isResting
      ensures exercises == old(exercises) && totalVolume == old(totalVolume) && logged == old(logged)
      ensures restTimeLeft == old(restTimeLeft) && workoutStartTime == old(workoutStartTime)
      ensures currentExerciseIndex == old(currentExerciseIndex) && currentSetIndex == old(currentSetIndex)
    {
      isResting := false;
    }

    /** `addSet`: appends one set to the addressed exercise; an index with no
        exercise leaves everything as it was. */
    method AddSet(exerciseIndex: int)
      requires Valid()
      modifies this
      ensures Valid()
      ensures 0 <= exerciseIndex < |old(exercises)| ==>
        exercises == old(exercises)[exerciseIndex := old(exercises)[exerciseIndex].(sets := AddedSets(old(exercises)[exerciseIndex].sets))]
      ensures !(0 <= exerciseIndex < |old(exercises)|) ==> exercises == old(exercises)
      ensures TotalSets(exercises) == TotalSets(old(exercises)) + (if 0 <= exerciseIndex < |old(exercises)| then 1 else 0)
      ensures totalVolume == old(totalVolume) && logged == old(logged)
      ensures currentExerciseIndex == old(currentExerciseIndex) && currentSetIndex == old(currentSetIndex)
      ensures isResting == old(isResting) && restTimeLeft == old(restTimeLeft)
      ensures workoutStartTime == old(workoutStartTime)
    {
      if 0 <= exerciseIndex < |exercises| {
        var ex := exercises[exerciseIndex];
        var updated := ex.(sets := AddedSets(ex.sets));
        SumsUnderReplace(exercises, exerciseIndex, updated);
        exercises := exercises[exerciseIndex := updated];
      }
    }

    /** `removeSet`: drops one set of the addressed exercise, but never its last
        one; other exercises are untouched. */
    method RemoveSet(exerciseIndex: int, setIndex: int)
      requires Valid()
      modifies this
      ensures Valid()
      ensures 0 <= exerciseIndex < |old(exercises)| ==>
        exercises == old(exercises)[exerciseIndex := old(exercises)[exerciseIndex].(sets := RemovedSets(old(exercises)[exerciseIndex].sets, setIndex))]
      ensures !(0 <= exerciseIndex < |old(exercises)|) ==> exercises == old(exercises)
      ensures |exercises| == |old(exercises)|
      ensures forall i :: 0 <= i < |exercises| && i != exerciseIndex ==> exercises[i] == old(exercises)[i]
      ensures totalVolume == old(totalVolume) && logged == old(logged)
      ensures currentExerciseIndex == old(currentExerciseIndex) && currentSetIndex == old(currentSetIndex)
      ensures isResting == old(isResting) && restTimeLeft == old(restTimeLeft)
      ensures workoutStartTime == old(workoutStartTime)
    {
      if 0 <= exerciseIndex < |exercises| {
        var ex := exercises[exerciseIndex];
        exercises := exercises[exerciseIndex := ex.(sets := RemovedSets(ex.sets, setIndex))];
      }
    }

    /** `updateSet`: writes one field of one set. */
    method UpdateSet(exerciseIndex: int, setIndex: int, field: SetField, value: int)
      requires Valid()
      modifies this
      ensures Valid()
      ensures exercises == UpdatedExercises(old(exercises), exerciseIndex, setIndex, field, value)
      ensures totalVolume == old(totalVolume) && logged == old(logged)
      ensures currentExerciseIndex == old(currentExerciseIndex) && currentSetIndex == old(currentSetIndex)
      ensures isResting == old(isResting) && restTimeLeft == old(restTimeLeft)
      ensures workoutStartTime == old(workoutStartTime)
    {
      if 0 <= exerciseIndex < |exercises| && 0 <= setIndex < |exercises[exerciseIndex].sets| {
        var ex := exercises[exerciseIndex];
        exercises := exercises[exerciseIndex := ex.(sets := ex.sets[setIndex := WithField(ex.sets[setIndex], field, value)])];
      }
    }
  }

  // ---------------------------------------------------------------------
  // The final set, as written
  // ---------------------------------------------------------------------

  /** The record logged when the last set is completed, as written: the finish
      runs inside the handlers of the render in which the set was completed, so
      it reads that render's running volume and completed-set count, taken
      before the set was added, while the set list itself was changed in place. */
  function AsWrittenLastSetRecord(exs: seq<TrackedExercise>, e: nat, s: nat, totalVolume: int, start: Option<int>, now: int): WorkoutData
    requires e < |exs| && s < |exs[e].sets|
  {
    WorkoutData(LogExercises(MarkCompleted(exs, e, s)), totalVolume, Duration(start, now), CompletedSets(exs), TotalSets(exs))
  }

  /** The record logged with the values current after the completion. */
  function CorrectedLastSetRecord(exs: seq<TrackedExercise>, e: nat, s: nat, totalVolume: int, start: Option<int>, now: int): WorkoutData
    requires e < |exs| && s < |exs[e].sets|
  {
    FinishRecord(MarkCompleted(exs, e, s), totalVolume + SetVolume(exs[e].sets[s]), start, now)
  }

  /** As written, the logged record leaves out the final set: its volume is
      missing from the total and it is not counted as completed. */
  lemma AsWrittenMissesLastSet(exs: seq<TrackedExercise>, e: nat, s: nat, totalVolume: int, start: Option<int>, now: int)
    requires e < |exs| && s < |exs[e].sets| && !exs[e].sets[s].completed
    ensures var a := AsWrittenLastSetRecord(exs, e, s, totalVolume, start, now);
      var c := CorrectedLastSetRecord(exs, e, s, totalVolume, start, now);
      && a.totalVolume == c.totalVolume - SetVolume(exs[e].sets[s])
      && a.completedSets + 1 == c.completedSets
      && a.exercises == c.exercises && a.totalSets == c.totalSets
  {
    MarkCompletedCounts(exs, e, s);
  }

  /** A one-set workout with no rest: as written it logs volume 0 and no
      completed set, though its only set, 10 × 20, was completed. */
  lemma AsWrittenOneSetExample()
    ensures var exs := [TrackedExercise("1", "Curl", [LoggedSet(10, 20, false)], 0)];
      var a := AsWrittenLastSetRecord(exs, 0, 0, 0, None, 0);
      StepFrom(exs, 0, 0) == Finish && a.totalVolume == 0 && a.completedSets == 0
  {
    var exs := [TrackedExercise("1", "Curl", [LoggedSet(10, 20, false)], 0)];
    assert exs[..0] == [];
    assert CountCompleted([LoggedSet(10, 20, false)]) == 0;
  }

  /** With the values current after the completion, which the session above
      uses, the finishing record counts the final set as completed, out of an
      unchanged number of sets. */
  lemma CorrectedCountsLastSet(exs: seq<TrackedExercise>, e: nat, s: nat, totalVolume: int, start: Option<int>, now: int)
    requires e < |exs| && s < |exs[e].sets| && !exs[e].sets[s].completed
    ensures CorrectedLastSetRecord(exs, e, s, totalVolume, start, now).completedSets == CompletedSets(exs) + 1
    ensures CorrectedLastSetRecord(exs, e, s, totalVolume, start, now).totalSets == TotalSets(exs)
  {
    MarkCompletedCounts(exs, e, s);
  }
}
