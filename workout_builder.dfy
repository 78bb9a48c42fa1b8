/**
 * The custom workout template builder: a weekly plan mapping each of the
 * seven weekdays to a list of planned exercises, edited by adding, removing,
 * updating and copying exercises, with per-day rep and volume totals and the
 * save guard on the template name.
 */
module WorkoutBuilder {
  import opened JsBase

  datatype Weekday = Monday | Tuesday | Wednesday | Thursday | Friday | Saturday | Sunday

  /** The builder's `weekDays` list, Monday first. */
  const WeekDays: seq<Weekday> := [Monday, Tuesday, Wednesday, Thursday, Friday, Saturday, Sunday]

  datatype PlannedExercise = PlannedExercise(
    id: string, name: string, sets: int, reps: int, weight: int, restTime: int, notes: Option<string>)

  datatype Category = Strength | Hypertrophy | Endurance | CustomCategory

  datatype Difficulty = Beginner | Intermediate | Advanced

  type Plan = map<Weekday, seq<PlannedExercise>>

  datatype WorkoutTemplate = WorkoutTemplate(
    id: string, name: string, description: string, category: Category, difficulty: Difficulty,
    weeklyPlan: Plan, createdAt: string)

  /** Every weekday has a list. */
  predicate FullPlan(p: Plan)
  {
    forall d: Weekday :: d in p
  }

  /** The position of a weekday in the Monday-first list. */
  function IndexOf(d: Weekday): (i: nat)
    ensures i < |WeekDays| && WeekDays[i] == d
  {
    match d
    case Monday => 0
    case Tuesday => 1
    case Wednesday => 2
    case Thursday => 3
    case Friday => 4
    case Saturday => 5
    case Sunday => 6
  }

  lemma WeekDaysAreAllDays()
    ensures forall d: Weekday :: d in WeekDays
    ensures forall i, j :: 0 <= i < j < |WeekDays| ==> WeekDays[i] != WeekDays[j]
  {
    forall d: Weekday ensures d in WeekDays {
      assert WeekDays[IndexOf(d)] == d;
    }
  }

  /** The template a new builder starts from: custom, intermediate, every day empty. */
  function NewTemplate(id: string, createdAt: string): (t: WorkoutTemplate)
    ensures FullPlan(t.weeklyPlan)
    ensures forall d :: t.weeklyPlan[d] == []
    ensures t.name == "" && t.category == CustomCategory && t.difficulty == Intermediate
  {
    WeekDaysAreAllDays();
    WorkoutTemplate(id, "", "", CustomCategory, Intermediate,
      map d: Weekday | d in WeekDays :: [], createdAt)
  }

  /** The plan of `t` with the list of `day` replaced, every other part kept. */
  function WithDay(t: WorkoutTemplate, day: Weekday, xs: seq<PlannedExercise>): (r: WorkoutTemplate)
    requires FullPlan(t.weeklyPlan)
    ensures FullPlan(r.weeklyPlan) && r.weeklyPlan[day] == xs
    ensures forall d :: d != day ==> r.weeklyPlan[d] == t.weeklyPlan[d]
    ensures r.(weeklyPlan := t.weeklyPlan) == t
  {
    t.(weeklyPlan := t.weeklyPlan[day := xs])
  }

  // ---------------------------------------------------------------------
  // Editing one day
  // ---------------------------------------------------------------------

  /** `addExercise`: append to the chosen day only. */
  function AddExercise(t: WorkoutTemplate, day: Weekday, ex: PlannedExercise): (r: WorkoutTemplate)
    requires FullPlan(t.weeklyPlan)
    ensures FullPlan(r.weeklyPlan)
    ensures |r.weeklyPlan[day]| == |t.weeklyPlan[day]| + 1
    ensures r.weeklyPlan[day][..|t.weeklyPlan[day]|] == t.weeklyPlan[day]
    ensures r.weeklyPlan[day][|t.weeklyPlan[day]|] == ex
    ensures forall d :: d != day ==> r.weeklyPlan[d] == t.weeklyPlan[d]
    ensures r.(weeklyPlan := t.weeklyPlan) == t
  {
    WithDay(t, day, t.weeklyPlan[day] + [ex])
  }

  /** `filter((_, index) => index !== i)`: the list without position `i`; an
      index outside the list removes nothing. */
  function RemoveIndex(xs: seq<PlannedExercise>, i: int): (r: seq<PlannedExercise>)
    ensures 0 <= i < |xs| ==> |r| == |xs| - 1
    ensures 0 <= i < |xs| ==> forall j :: 0 <= j < i ==> r[j] == xs[j]
    ensures 0 <= i < |xs| ==> forall j :: i <= j < |r| ==> r[j] == xs[j + 1]
    ensures !(0 <= i < |xs|) ==> r == xs
    ensures 0 <= i < |xs| ==> multiset(r) + multiset{xs[i]} == multiset(xs)
  {
    if xs == [] then []
    else if i == 0 then xs[1..]
    else
      assert xs == [xs[0]] + xs[1..];
      [xs[0]] + RemoveIndex(xs[1..], i - 1)
  }

  /** `removeExercise` */
  function RemoveExercise(t: WorkoutTemplate, day: Weekday, i: int): (r: WorkoutTemplate)
    requires FullPlan(t.weeklyPlan)
    ensures FullPlan(r.weeklyPlan)
    ensures r.weeklyPlan[day] == RemoveIndex(t.weeklyPlan[day], i)
    ensures forall d :: d != day ==> r.weeklyPlan[d] == t.weeklyPlan[d]
    ensures r.(weeklyPlan := t.weeklyPlan) == t
  {
    WithDay(t, day, RemoveIndex(t.weeklyPlan[day], i))
  }

  /** Removing the exercise just added restores the template. */
  lemma RemoveUndoesAdd(t: WorkoutTemplate, day: Weekday, ex: PlannedExercise)
    requires FullPlan(t.weeklyPlan)
    ensures RemoveExercise(AddExercise(t, day, ex), day, |t.weeklyPlan[day]|) == t
  {
    var xs := t.weeklyPlan[day];
    var a := AddExercise(t, day, ex);
    assert a.weeklyPlan[day] == xs + [ex];
    RemoveLast(xs, ex);
    SameDayRestores(a, t, day);
  }

  /** Replacing a day of `a` by what `t` has there, where `a` and `t` differ at
      most on that day, gives `t`. */
  lemma SameDayRestores(a: WorkoutTemplate, t: WorkoutTemplate, day: Weekday)
    requires FullPlan(a.weeklyPlan) && FullPlan(t.weeklyPlan)
    requires forall d :: d != day ==> a.weeklyPlan[d] == t.weeklyPlan[d]
    requires a.(weeklyPlan := t.weeklyPlan) == t
    ensures WithDay(a, day, t.weeklyPlan[day]) == t
  {
    var w := WithDay(a, day, t.weeklyPlan[day]);
    assert forall d :: w.weeklyPlan[d] == t.weeklyPlan[d];
    assert w.weeklyPlan.Keys == t.weeklyPlan.Keys;
    assert w.weeklyPlan == t.weeklyPlan;
  }

  lemma {:induction false} RemoveLast(xs: seq<PlannedExercise>, ex: PlannedExercise)
    ensures RemoveIndex(xs + [ex], |xs|) == xs
  {
    if xs == [] {
      assert ([] + [ex])[1..] == [];
    } else {
      assert (xs + [ex])[1..] == xs[1..] + [ex];
      RemoveLast(xs[1..], ex);
      assert [xs[0]] + xs[1..] == xs;
    }
  }

  /** The numeric fields the plan editor changes. */
  datatype ExerciseField = SetsField | RepsField | WeightField | RestTimeField

  function SetField(ex: PlannedExercise, field: ExerciseField, value: int): (r: PlannedExercise)
    ensures r.id == ex.id && r.name == ex.name && r.notes == ex.notes
    ensures field != SetsField ==> r.sets == ex.sets
    ensures field != RepsField ==> r.reps == ex.reps
    ensures field != WeightField ==> r.weight == ex.weight
    ensures field != RestTimeField ==> r.restTime == ex.restTime
  {
    match field
    case SetsField => ex.(sets := value)
    case RepsField => ex.(reps := value)
    case WeightField => ex.(weight := value)
    case RestTimeField => ex.(restTime := value)
  }

  /** Reading back the field just written gives the value written. */
  function GetField(ex: PlannedExercise, field: ExerciseField): int
  {
    match field
    case SetsField => ex.sets
    case RepsField => ex.reps
    case WeightField => ex.weight
    case RestTimeField => ex.restTime
  }

  lemma SetFieldReadsBack(ex: PlannedExercise, field: ExerciseField, value: int)
    ensures GetField(SetField(ex, field, value), field) == value
    ensures forall g :: g != field ==> GetField(SetField(ex, field, value), g) == GetField(ex, g)
  {
  }

  /** `map((exercise, index) => index === i ? { ...exercise, [field]: value } : exercise)` */
  function UpdateAt(xs: seq<PlannedExercise>, i: int, field: ExerciseField, value: int): (r: seq<PlannedExercise>)
    ensures |r| == |xs|
    ensures forall j :: 0 <= j < |xs| && j != i ==> r[j] == xs[j]
    ensures 0 <= i < |xs| ==> r[i] == SetField(xs[i], field, value)
    ensures !(0 <= i < |xs|) ==> r == xs
  {
    if xs == [] then []
    else [if i == 0 then SetField(xs[0], field, value) else xs[0]] + UpdateAt(xs[1..], i - 1, field, value)
  }

  /** `updateExercise`: one field of one exercise on one day; an index outside
      the day's list changes nothing. */
  function UpdateExercise(t: WorkoutTemplate, day: Weekday, i: int, field: ExerciseField, value: int): (r: WorkoutTemplate)
    requires FullPlan(t.weeklyPlan)
    ensures FullPlan(r.weeklyPlan)
    ensures |r.weeklyPlan[day]| == |t.weeklyPlan[day]|
    ensures forall j :: 0 <= j < |t.weeklyPlan[day]| && j != i ==> r.weeklyPlan[day][j] == t.weeklyPlan[day][j]
    ensures 0 <= i < |t.weeklyPlan[day]| ==> r.weeklyPlan[day][i] == SetField(t.weeklyPlan[day][i], field, value)
    ensures forall d :: d != day ==> r.weeklyPlan[d] == t.weeklyPlan[d]
    ensures !(0 <= i < |t.weeklyPlan[day]|) ==> r == t
    ensures r.(weeklyPlan := t.weeklyPlan) == t
  {
    WithDay(t, day, UpdateAt(t.weeklyPlan[day], i, field, value))
  }

  /** The exercise both add buttons create: 3 sets of 10 at 135, 90 s rest, empty notes. */
  function NewExercise(id: string, name: string): (ex: PlannedExercise)
    ensures ex.id == id && ex.name == name && ex.notes == Some("")
    ensures ex.sets == 3 && ex.reps == 10 && ex.weight == 135 && ex.restTime == 90
  {
    PlannedExercise(id, name, 3, 10, 135, 90, Some(""))
  }

  /** `addExerciseFromLibrary`: the library entry's name, added to the selected day. */
  function AddExerciseFromLibrary(t: WorkoutTemplate, selectedDay: Weekday, libraryName: string, id: string): (r: WorkoutTemplate)
    requires FullPlan(t.weeklyPlan)
    ensures FullPlan(r.weeklyPlan)
    ensures |r.weeklyPlan[selectedDay]| == |t.weeklyPlan[selectedDay]| + 1
    ensures r.weeklyPlan[selectedDay][..|t.weeklyPlan[selectedDay]|] == t.weeklyPlan[selectedDay]
    ensures var ex := r.weeklyPlan[selectedDay][|t.weeklyPlan[selectedDay]|];
      && ex.id == id && ex.name == libraryName && ex.notes == Some("")
      && ex.sets == 3 && ex.reps == 10 && ex.weight == 135 && ex.restTime == 90
    ensures forall d :: d != selectedDay ==> r.weeklyPlan[d] == t.weeklyPlan[d]
    ensures r.name == t.name && r.description == t.description
    ensures r.(weeklyPlan := t.weeklyPlan) == t
  {
    AddExercise(t, selectedDay, NewExercise(id, libraryName))
  }

  /** `addCustomExercise`: the new template and the new contents of the name box. */
  function AddCustomExercise(t: WorkoutTemplate, selectedDay: Weekday, customName: string, id: string): (r: (WorkoutTemplate, string))
    requires FullPlan(t.weeklyPlan)
  {
    if Trim(customName) == "" then (t, customName)
    else (AddExercise(t, selectedDay, NewExercise(id, Trim(customName))), "")
  }

  /** A blank or whitespace-only name is refused and changes nothing; any other
      name is added, trimmed, with the default numbers, and the box is cleared. */
  lemma AddCustomExerciseMeaning(t: WorkoutTemplate, selectedDay: Weekday, customName: string, id: string)
    requires FullPlan(t.weeklyPlan)
    ensures AllSpace(customName) ==> AddCustomExercise(t, selectedDay, customName, id) == (t, customName)
    ensures !AllSpace(customName) ==>
      var (r, box) := AddCustomExercise(t, selectedDay, customName, id);
      && box == ""
      && |r.weeklyPlan[selectedDay]| == |t.weeklyPlan[selectedDay]| + 1
      && r.weeklyPlan[selectedDay][|t.weeklyPlan[selectedDay]|] == NewExercise(id, Trim(customName))
      && Trim(customName) != ""
      && (forall d :: d != selectedDay ==> r.weeklyPlan[d] == t.weeklyPlan[d])
  {
    TrimEmptyIffBlank(customName);
  }

  // ---------------------------------------------------------------------
  // Copy a day to the other six
  // ---------------------------------------------------------------------

  /** The same exercises with fresh ids. */
  predicate SameExceptIds(xs: seq<PlannedExercise>, ys: seq<PlannedExercise>)
  {
    |xs| == |ys| && forall k :: 0 <= k < |xs| ==> xs[k].(id := ys[k].id) == ys[k]
  }

  /** `exercisesToCopy.map(exercise => ({ ...exercise, id: <fresh> }))`, the fresh
      ids drawn from `newId(day, position)`. */
  function Recopied(src: seq<PlannedExercise>, day: Weekday, newId: (Weekday, nat) -> string): (r: seq<PlannedExercise>)
    ensures SameExceptIds(src, r)
    ensures forall k :: 0 <= k < |r| ==> r[k].id == newId(day, k)
  {
    seq(|src|, k requires 0 <= k < |src| => src[k].(id := newId(day, k)))
  }

  /** `copyDayToOtherDays`: every other weekday becomes a copy of `fromDay` with
      fresh ids; `fromDay` and the rest of the template are unchanged. The ids
      Date.now() and Math.random() make are the parameter `newId`. */
  method CopyDayToOtherDays(t: WorkoutTemplate, fromDay: Weekday, newId: (Weekday, nat) -> string)
    returns (r: WorkoutTemplate)
    requires FullPlan(t.weeklyPlan)
    ensures FullPlan(r.weeklyPlan)
    ensures r.weeklyPlan[fromDay] == t.weeklyPlan[fromDay]
    ensures forall d :: d != fromDay ==> r.weeklyPlan[d] == Recopied(t.weeklyPlan[fromDay], d, newId)
    ensures r.(weeklyPlan := t.weeklyPlan) == t
  {
    var exercisesToCopy := t.weeklyPlan[fromDay];
    var newPlan := t.weeklyPlan;
    var i := 0;
    while i < |WeekDays|
      invariant 0 <= i <= |WeekDays|
      invariant FullPlan(newPlan)
      invariant newPlan[fromDay] == exercisesToCopy
      invariant forall j :: 0 <= j < i && WeekDays[j] != fromDay ==>
        newPlan[WeekDays[j]] == Recopied(exercisesToCopy, WeekDays[j], newId)
      invariant forall j :: i <= j < |WeekDays| ==> newPlan[WeekDays[j]] == t.weeklyPlan[WeekDays[j]]
    {
      var day := WeekDays[i];
      if day != fromDay {
        newPlan := newPlan[day := Recopied(exercisesToCopy, day, newId)];
      }
      i := i + 1;
    }
    WeekDaysAreAllDays();
    forall d | d != fromDay
      ensures newPlan[d] == Recopied(exercisesToCopy, d, newId)
    {
      assert d == WeekDays[IndexOf(d)];
    }
    r := t.(weeklyPlan := newPlan);
  }

  // ---------------------------------------------------------------------
  // Day totals
  // ---------------------------------------------------------------------

  /** `reduce((total, e) => total + e.sets * e.reps, 0)` */
  function SumReps(xs: seq<PlannedExercise>): int
  {
    if xs == [] then 0 else SumReps(xs[..|xs| - 1]) + xs[|xs| - 1].sets * xs[|xs| - 1].reps
  }

  /** `reduce((total, e) => total + e.sets * e.reps * e.weight, 0)` */
  function SumVolume(xs: seq<PlannedExercise>): int
  {
    if xs == [] then 0
    else SumVolume(xs[..|xs| - 1]) + xs[|xs| - 1].sets * xs[|xs| - 1].reps * xs[|xs| - 1].weight
  }

  /** `getDayTotal`: the planned reps of the day. */
  function DayTotal(t: WorkoutTemplate, day: Weekday): int
    requires FullPlan(t.weeklyPlan)
  {
    SumReps(t.weeklyPlan[day])
  }

  /** `getDayVolume`: the planned volume of the day. */
  function DayVolume(t: WorkoutTemplate, day: Weekday): int
    requires FullPlan(t.weeklyPlan)
  {
    SumVolume(t.weeklyPlan[day])
  }

  /** The totals of a list only depend on the fields the copy keeps. */
  lemma {:induction false} TotalsIgnoreIds(xs: seq<PlannedExercise>, ys: seq<PlannedExercise>)
    requires SameExceptIds(xs, ys)
    ensures SumReps(xs) == SumReps(ys) && SumVolume(xs) == SumVolume(ys)
  {
    if xs != [] {
      var n := |xs|;
      assert SameExceptIds(xs[..n - 1], ys[..n - 1]) by {
        forall k | 0 <= k < n - 1 ensures xs[..n - 1][k] == xs[k] && ys[..n - 1][k] == ys[k] { }
      }
      TotalsIgnoreIds(xs[..n - 1], ys[..n - 1]);
      assert xs[n - 1].(id := ys[n - 1].id) == ys[n - 1];
    }
  }

  /** After copying a day, every weekday shows the source day's totals. */
  lemma CopiedDaysHaveSameTotals(t: WorkoutTemplate, fromDay: Weekday, newId: (Weekday, nat) -> string, r: WorkoutTemplate)
    requires FullPlan(t.weeklyPlan) && FullPlan(r.weeklyPlan)
    requires r.weeklyPlan[fromDay] == t.weeklyPlan[fromDay]
    requires forall d :: d != fromDay ==> r.weeklyPlan[d] == Recopied(t.weeklyPlan[fromDay], d, newId)
    ensures forall d :: DayTotal(r, d) == DayTotal(t, fromDay) && DayVolume(r, d) == DayVolume(t, fromDay)
  {
    forall d ensures DayTotal(r, d) == DayTotal(t, fromDay) && DayVolume(r, d) == DayVolume(t, fromDay) {
      if d != fromDay {
        TotalsIgnoreIds(t.weeklyPlan[fromDay], r.weeklyPlan[d]);
      }
    }
  }

  /** Adding an exercise raises the day's totals by its own reps and volume and
      leaves the other days' totals alone; an empty day totals 0. */
  lemma AddExerciseTotals(t: WorkoutTemplate, day: Weekday, ex: PlannedExercise)
    requires FullPlan(t.weeklyPlan)
    ensures DayTotal(AddExercise(t, day, ex), day) == DayTotal(t, day) + ex.sets * ex.reps
    ensures DayVolume(AddExercise(t, day, ex), day) == DayVolume(t, day) + ex.sets * ex.reps * ex.weight
    ensures t.weeklyPlan[day] == [] ==> DayTotal(t, day) == 0 && DayVolume(t, day) == 0
  {
    var xs := AddExercise(t, day, ex).weeklyPlan[day];
    assert xs[..|xs| - 1] == t.weeklyPlan[day];
  }

  /** With non-negative sets, reps and weights the totals are non-negative. */
  predicate NonNegative(xs: seq<PlannedExercise>)
  {
    forall k :: 0 <= k < |xs| ==> xs[k].sets >= 0 && xs[k].reps >= 0 && xs[k].weight >= 0
  }

  lemma {:induction false} TotalsNonNegative(xs: seq<PlannedExercise>)
    requires NonNegative(xs)
    ensures SumReps(xs) >= 0 && SumVolume(xs) >= 0
  {
    if xs != [] {
      var n := |xs|;
      assert NonNegative(xs[..n - 1]) by {
        forall k | 0 <= k < n - 1 ensures xs[..n - 1][k] == xs[k] { }
      }
      TotalsNonNegative(xs[..n - 1]);
      var e := xs[n - 1];
      assert e.sets * e.reps >= 0;
      assert e.sets * e.reps * e.weight >= 0;
    }
  }

  // ---------------------------------------------------------------------
  // Saving and the number inputs
  // ---------------------------------------------------------------------

  /** `saveTemplate`: the template handed to the save callback, if any. */
  function SaveTemplate(t: WorkoutTemplate): (saved: Option<WorkoutTemplate>)
  {
    if Trim(t.name) == "" then None else Some(t)
  }

  /** The callback runs exactly when the name has a non-space character, and it
      receives the template unchanged. */
  lemma SaveTemplateMeaning(t: WorkoutTemplate)
    ensures SaveTemplate(t).Some? <==> !AllSpace(t.name)
    ensures SaveTemplate(t).Some? ==> SaveTemplate(t).value == t
  {
    TrimEmptyIffBlank(t.name);
  }

  /** The value an edit of a number box writes: `parseInt(text) || fallback`,
      with fallback 1 for sets and reps and 0 for weight and rest. */
  function FieldInput(field: ExerciseField, text: string): (v: int)
    ensures field == SetsField || field == RepsField ==> v != 0
    ensures ParseInt(text).Some? && ParseInt(text).value != 0 ==> v == ParseInt(text).value
  {
    match field
    case SetsField => ParseIntOr(text, 1)
    case RepsField => ParseIntOr(text, 1)
    case WeightField => ParseIntOr(text, 0)
    case RestTimeField => ParseIntOr(text, 0)
  }

  /** Unparsable text or 0 falls back to 1 sets or reps and to 0 weight or rest. */
  lemma FieldInputFallback(field: ExerciseField, text: string)
    requires ParseInt(text).None? || ParseInt(text).value == 0
    ensures FieldInput(field, text) == (if field == SetsField || field == RepsField then 1 else 0)
  {
  }
}
