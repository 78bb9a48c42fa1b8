/**
 * POST /api/entries: log today's entry for a habit (at most one entry per
 * habit and day, updated in place when it exists), then bring the habit's
 * streak record up to date. The entry and streak tables are the fields of
 * `EntryStore`; "today" is a parameter instead of the wall clock, and the
 * identifiers the database would generate are parameters too.
 */
module EntriesRoute {
  import opened JsBase
  import opened HabitTypes

  // ---------------------------------------------------------------------
  // The streak rule
  // ---------------------------------------------------------------------

  function Max(a: int, b: int): int
  {
    if a >= b then a else b
  }

  /** The run length after a log on `today`: kept on a same-day re-log,
      extended when the last completion was yesterday, restarted otherwise. */
  function NextCurrent(s: Streak, today: Day): int
  {
    match s.lastCompleted
    case Some(last) =>
      if last == today then s.current
      else if last == today - 1 then s.current + 1
      else 1
    case None => 1
  }

  /** The streak record after a log on `today`, when one already exists. */
  function LogOnExisting(s: Streak, today: Day): (r: Streak)
    ensures r.id == s.id && r.habitId == s.habitId
    ensures r.lastCompleted == Some(today)
    ensures r.best >= r.current && r.best >= s.best
  {
    var c := NextCurrent(s, today);
    s.(current := c, best := Max(c, s.best), lastCompleted := Some(today))
  }

  /** The streak record after a log on `today`: a missing record starts a run of one. */
  function StreakAfterLog(existing: Option<Streak>, habitId: string, newId: string, today: Day): (r: Streak)
    ensures r.habitId == (if existing.Some? then existing.value.habitId else habitId)
    ensures r.lastCompleted == Some(today)
    ensures existing.None? ==> r.current == 1 && r.best == 1
  {
    match existing
    case None => Streak(newId, habitId, 1, 1, Some(today))
    case Some(s) => LogOnExisting(s, today)
  }

  /** The three outcomes of a log, one per relation between the last completion and today. */
  lemma NextCurrentCases(s: Streak, today: Day)
    ensures s.lastCompleted == Some(today) ==> LogOnExisting(s, today).current == s.current
    ensures s.lastCompleted == Some(today - 1) ==> LogOnExisting(s, today).current == s.current + 1
    ensures s.lastCompleted.None? || s.lastCompleted.value < today - 1 || s.lastCompleted.value > today
      ==> LogOnExisting(s, today).current == 1
    ensures LogOnExisting(s, today).best == Max(LogOnExisting(s, today).current, s.best)
  {
  }

  /** A second log on the same day changes nothing, once best >= current holds. */
  lemma SameDayLogIsIdempotent(s: Streak, today: Day)
    requires s.best >= s.current
    requires s.lastCompleted == Some(today)
    ensures LogOnExisting(s, today) == s
  {
  }

  /** Logging the same day twice is the same as logging it once. */
  lemma LogTwiceSameDay(s: Streak, today: Day)
    ensures LogOnExisting(LogOnExisting(s, today), today) == LogOnExisting(s, today)
  {
  }

  /** The streak after a sequence of logs, one per day in `days`, in order. */
  function Replay(s: Streak, days: seq<Day>): Streak
    decreases |days|
  {
    if days == [] then s else Replay(LogOnExisting(s, days[0]), days[1..])
  }

  /** Over any sequence of logs the best run never decreases and stays at least the current run. */
  lemma {:induction false} ReplayKeepsBest(s: Streak, days: seq<Day>)
    ensures Replay(s, days).best >= s.best
    ensures days != [] ==> Replay(s, days).best >= Replay(s, days).current
    decreases |days|
  {
    if days != [] {
      ReplayKeepsBest(LogOnExisting(s, days[0]), days[1..]);
    }
  }

  /** `n` logs on consecutive days extend a run that was live the day before by `n`. */
  lemma {:induction false} ConsecutiveDaysExtend(s: Streak, first: Day, n: nat)
    requires s.lastCompleted == Some(first - 1)
    requires s.best >= s.current
    ensures Replay(s, seq(n, i => first + i)).current == s.current + n
    ensures Replay(s, seq(n, i => first + i)).best == Max(s.best, s.current + n)
    ensures n > 0 ==> Replay(s, seq(n, i => first + i)).lastCompleted == Some(first + n - 1)
    decreases n
  {
    if n > 0 {
      var days := seq(n, i => first + i);
      var t := LogOnExisting(s, first);
      assert days[1..] == seq(n - 1, i => (first + 1) + i);
      ConsecutiveDaysExtend(t, first + 1, n - 1);
    } else {
      assert seq(n, i => first + i) == [];
    }
  }

  /** The record a new habit starts with: no run, no completion yet. */
  function InitialStreak(id: string, habitId: string): Streak
  {
    Streak(id, habitId, 0, 0, None)
  }

  /** From a new habit's record, logs on `n >= 1` consecutive days give current = best = n. */
  lemma ConsecutiveDaysFromNewHabit(id: string, habitId: string, first: Day, n: nat)
    requires n >= 1
    ensures Replay(InitialStreak(id, habitId), seq(n, i => first + i)).current == n
    ensures Replay(InitialStreak(id, habitId), seq(n, i => first + i)).best == n
  {
    var s := InitialStreak(id, habitId);
    var days := seq(n, i => first + i);
    var t := LogOnExisting(s, first);
    assert t.current == 1 && t.best == 1 && t.lastCompleted == Some(first);
    assert days[1..] == seq(n - 1, i => (first + 1) + i);
    ConsecutiveDaysExtend(t, first + 1, n - 1);
  }

  /** Skipping a day restarts the run at one and keeps the best run reached so far. */
  lemma GapRestartsRun(s: Streak, last: Day, today: Day)
    requires s.lastCompleted == Some(last) && today >= last + 2
    requires s.best >= 1
    ensures LogOnExisting(s, today).current == 1
    ensures LogOnExisting(s, today).best == s.best
  {
  }

  // ---------------------------------------------------------------------
  // The entry table
  // ---------------------------------------------------------------------

  predicate IsEntryFor(e: HabitEntry, habitId: string, day: Day)
  {
    e.habitId == habitId && e.date == day
  }

  /** `findFirst({ where: { habitId, date } })`: the index of the first matching row. */
  function FindEntry(entries: seq<HabitEntry>, habitId: string, day: Day): (r: Option<nat>)
    ensures r.Some? ==> r.value < |entries| && IsEntryFor(entries[r.value], habitId, day)
    ensures r.Some? ==> forall j :: 0 <= j < r.value ==> !IsEntryFor(entries[j], habitId, day)
    ensures r.None? ==> forall j :: 0 <= j < |entries| ==> !IsEntryFor(entries[j], habitId, day)
  {
    if entries == [] then None
    else if IsEntryFor(entries[0], habitId, day) then Some(0)
    else match FindEntry(entries[1..], habitId, day)
      case None => None
      case Some(k) => Some(k + 1)
  }

  /** The number of rows for one habit and day. */
  function CountFor(entries: seq<HabitEntry>, habitId: string, day: Day): nat
  {
    if entries == [] then 0
    else (if IsEntryFor(entries[0], habitId, day) then 1 else 0) + CountFor(entries[1..], habitId, day)
  }

  /** At most one row per habit and day, and distinct row ids. */
  ghost predicate TableInvariant(entries: seq<HabitEntry>)
  {
    && (forall i, j :: 0 <= i < j < |entries| ==> entries[i].id != entries[j].id)
    && (forall i, j :: 0 <= i < j < |entries| ==>
          !(entries[i].habitId == entries[j].habitId && entries[i].date == entries[j].date))
  }

  lemma {:induction false} CountForAppend(entries: seq<HabitEntry>, e: HabitEntry, habitId: string, day: Day)
    ensures CountFor(entries + [e], habitId, day)
         == CountFor(entries, habitId, day) + (if IsEntryFor(e, habitId, day) then 1 else 0)
  {
    if entries != [] {
      assert (entries + [e])[1..] == entries[1..] + [e];
      CountForAppend(entries[1..], e, habitId, day);
    } else {
      assert ([] + [e])[1..] == [];
    }
  }

  lemma {:induction false} CountForNone(entries: seq<HabitEntry>, habitId: string, day: Day)
    requires forall j :: 0 <= j < |entries| ==> !IsEntryFor(entries[j], habitId, day)
    ensures CountFor(entries, habitId, day) == 0
  {
    if entries != [] {
      CountForNone(entries[1..], habitId, day);
    }
  }

  lemma {:induction false} CountForOnly(entries: seq<HabitEntry>, k: nat, habitId: string, day: Day)
    requires k < |entries| && IsEntryFor(entries[k], habitId, day)
    requires forall j :: 0 <= j < |entries| && j != k ==> !IsEntryFor(entries[j], habitId, day)
    ensures CountFor(entries, habitId, day) == 1
  {
    if k == 0 {
      CountForNone(entries[1..], habitId, day);
    } else {
      CountForOnly(entries[1..], k - 1, habitId, day);
    }
  }

  /** The row a POST leaves behind for `habitId` today. */
  function PostedEntry(entries: seq<HabitEntry>, habitId: string, value: map<string, JsValue>,
                       notes: Option<string>, today: Day, newId: string): HabitEntry
  {
    match FindEntry(entries, habitId, today)
    case Some(k) => entries[k].(value := value, notes := notes, completed := true)
    case None => HabitEntry(newId, habitId, today, value, notes, true)
  }

  class EntryStore {
    var entries: seq<HabitEntry>
    /** Streak records keyed by habit id (`habitId` is unique in the streak table). */
    var streaks: map<string, Streak>

    ghost predicate Valid()
      reads this
    {
      && TableInvariant(entries)
      && (forall h :: h in streaks ==> streaks[h].habitId == h && streaks[h].best >= streaks[h].current)
    }

    constructor ()
      ensures Valid() && entries == [] && streaks == map[]
    {
      entries := [];
      streaks := map[];
    }

    /** Creating a habit creates its streak record with no run yet. */
    method CreateHabitStreak(habitId: string, streakId: string)
      requires Valid()
      requires habitId !in streaks
      modifies this
      ensures Valid()
      ensures entries == old(entries)
      ensures streaks == old(streaks)[habitId := InitialStreak(streakId, habitId)]
    {
      streaks := streaks[habitId := InitialStreak(streakId, habitId)];
    }

    /** `updateStreak`: read the record, compute the new run, write it back. */
    method UpdateStreak(habitId: string, today: Day, newStreakId: string)
      requires Valid()
      modifies this
      ensures Valid()
      ensures entries == old(entries)
      ensures streaks == old(streaks)[habitId := StreakAfterLog(
        if habitId in old(streaks) then Some(old(streaks)[habitId]) else None, habitId, newStreakId, today)]
      ensures habitId in old(streaks) ==>
        streaks[habitId].best >= old(streaks)[habitId].best && streaks[habitId].best >= streaks[habitId].current
    {
      if habitId !in streaks {
        streaks := streaks[habitId := Streak(newStreakId, habitId, 1, 1, Some(today))];
        return;
      }
      var streak := streaks[habitId];
      var yesterday := today - 1;
      var newCurrent := 1;
      if streak.lastCompleted.Some? && (streak.lastCompleted.value == today || streak.lastCompleted.value == yesterday) {
        newCurrent := if streak.lastCompleted.value == today then streak.current else streak.current + 1;
      }
      var newBest := Max(newCurrent, streak.best);
      streaks := streaks[habitId := streak.(current := newCurrent, best := newBest, lastCompleted := Some(today))];
    }

    /** The POST handler: update today's row for the habit or create it, then update the streak.
        `created` tells which of the two happened (201 versus 200). */
    method Post(habitId: string, value: map<string, JsValue>, notes: Option<string>, today: Day,
                newEntryId: string, newStreakId: string) returns (entry: HabitEntry, created: bool)
      requires Valid()
      requires forall i :: 0 <= i < |entries| ==> entries[i].id != newEntryId
      modifies this
      ensures Valid()
      ensures entry == PostedEntry(old(entries), habitId, value, notes, today, newEntryId)
      ensures entry.completed && IsEntryFor(entry, habitId, today) && entry.value == value
      ensures created <==> FindEntry(old(entries), habitId, today).None?
      ensures created ==> entries == old(entries) + [entry]
      ensures !created ==> var k := FindEntry(old(entries), habitId, today).value;
        entries == old(entries)[k := entry] && entry.id == old(entries)[k].id
      ensures CountFor(entries, habitId, today) == 1
      ensures streaks == old(streaks)[habitId := StreakAfterLog(
        if habitId in old(streaks) then Some(old(streaks)[habitId]) else None, habitId, newStreakId, today)]
    {
      var existing := FindEntry(entries, habitId, today);
      if existing.Some? {
        var k := existing.value;
        entry := entries[k].(value := value, notes := notes, completed := true);
        entries := entries[k := entry];
        created := false;
        CountForOnly(entries, k, habitId, today);
      } else {
        entry := HabitEntry(newEntryId, habitId, today, value, notes, true);
        CountForNone(entries, habitId, today);
        CountForAppend(entries, entry, habitId, today);
        entries := entries + [entry];
        created := true;
      }
      UpdateStreak(habitId, today, newStreakId);
    }
  }
}
