# Win-or-WIN habit tracker: a Dafny model of its core

Win-or-WIN is a habit tracker. A user creates habits from templates or by hand,
logs one entry per habit per day, and watches streaks, a completion heatmap,
achievements and levels. A gym section adds these parts:

- a live workout tracker that logs sets and rest periods;
- analytics over logged workouts: volume, best workout, progress per exercise and recent personal records;
- a weekly workout builder and a catalogue of ready-made programmes;
- reminder alarms.

This project models the logic of that core in Dafny and proves what it promises:

- **Entries endpoint.** Today's entry is updated or created, so each habit keeps one row per day. The streak record is then updated: a same-day re-log keeps the run, a log the day after a completion extends it, and any other log restarts it at one. The best run is the larger of the old best and the new run.
- **Dashboard.** It computes today's progress per habit, the 90-day heatmap of daily completion percentages, the completed-today count, the sum of current streaks and the best streak.
- **Achievements.** The endpoint gives 50 points per earned achievement and sets the level to floor(points / 100) + 1. The panel splits the achievements into earned and available and draws the progress bar.
- **Gym analytics.** The volume series, its totals, average and best workout. Per-exercise progress from each logged exercise's best set, and the recent personal records.
- **Workout tracker.** A session object with a set cursor, a rest countdown, a running volume and the record it logs when the workout finishes. It also edits sets: add, remove and update.
- **Workout builder and programmes.** Editing a weekly plan, copying a day to the other days, day totals and saving. Filtering the programme catalogue by category, and the conversion of a programme into tracker exercises, including how its rep text such as "8-10" becomes a number.
- **Dialogs.** Logging an entry: metric values, the `completed` flag and the required-metric guard. Creating a habit from a template and editing a habit.
- **Small components.** Reminder alarms, the month calendar heatmap and the theme toggle.

Browser and server effects are not modelled:

- Dates are whole days, given as parameters.
- "Now" (a clock reading or a weekday number) is a parameter.
- Fresh ids are parameters.
- The database is a value or a class field.
- React state updates are functions from the old state to the new one. The workout session is a class whose fields change in place.

JavaScript's own semantics are written out where the code relies on them:

- `parseInt` reads an optional sign and the leading decimal digits, and yields nothing otherwise;
- `x || d` falls back on 0, `""` and absent values, while `x ?? d` falls back only on absent values;
- `trim` (over ECMAScript's WhiteSpace and LineTerminator characters), `padStart(2, '0')`, `indexOf` returning -1, and `splice` with a negative start.

## Model

| member | source | states |
|---|---|---|
| EntriesRoute.LogOnExisting | src/app/api/entries/route.ts:75-98 | the record keeps its id and habit, is stamped with today, and its best run never decreases and is at least the new current run |
| EntriesRoute.StreakAfterLog | src/app/api/entries/route.ts:57-73 | a habit without a streak record gets one with current = best = 1 completed today |
| EntriesRoute.NextCurrentCases | src/app/api/entries/route.ts:82-89 | same-day re-log keeps the run, a log the day after the last completion extends it by one, any other log (no completion, a gap, a future date) restarts it at one; best = max(current, old best) |
| EntriesRoute.SameDayLogIsIdempotent | src/app/api/entries/route.ts:84-89 | logging again on the day of the last completion leaves the record unchanged |
| EntriesRoute.LogTwiceSameDay | src/app/api/entries/route.ts:75-98 | two logs on the same day give the same record as one |
| EntriesRoute.ReplayKeepsBest | src/app/api/entries/route.ts:89 | over any sequence of logs the best run never decreases and ends at least the current run |
| EntriesRoute.ConsecutiveDaysExtend | src/app/api/entries/route.ts:79-89 | n logs on consecutive days after a live run extend it by n and raise best to max(best, current + n) |
| EntriesRoute.ConsecutiveDaysFromNewHabit | src/app/api/habits/route.ts:66-74 | from the zero record a new habit gets, n consecutive daily logs give current = best = n |
| EntriesRoute.GapRestartsRun | src/app/api/entries/route.ts:82-89 | after a skipped day the run restarts at one and the best run is kept |
| EntriesRoute.FindEntry | src/app/api/entries/route.ts:12-17 | the index of the first row for the habit and day, or none when no row matches |
| EntriesRoute.EntryStore.CreateHabitStreak | src/app/api/habits/route.ts:66-74 | a new habit's streak record has no run and no completion; entries unchanged |
| EntriesRoute.EntryStore.UpdateStreak | src/app/api/entries/route.ts:57-98 | the habit's record becomes StreakAfterLog of the old one, other records unchanged, best never decreases |
| EntriesRoute.EntryStore.Post | src/app/api/entries/route.ts:5-55 | a row for habit and day is updated in place (keeping its id) when one exists, else appended (201); the row is completed with the given value; afterwards exactly one row exists for that habit and day; the streak is updated |
| Dashboard.FirstEntryOn | src/app/page.tsx:94-96 | the first entry dated on the day, or none when no entry is |
| Dashboard.TodayProgressMeaning | src/app/page.tsx:92-100 | progress is 0 or 100, and 100 exactly when the first entry dated today is completed |
| Dashboard.CompletedCount | src/app/page.tsx:113-118 | the completed-habit count never exceeds the number of habits |
| Dashboard.GenerateHeatmapData | src/app/page.tsx:102-122 | the map has one key per day of today and the 89 days before it, each holding that day's completion percentage |
| Dashboard.WindowHasNinetyDays | src/app/page.tsx:106-107 | the window has exactly 90 days, from today - 89 to today |
| Dashboard.CompletedCountAll | src/app/page.tsx:113-118 | the count equals the number of habits iff every habit is completed that day, and is 0 iff none is |
| Dashboard.DayPercentageMeaning | src/app/page.tsx:120 | each value lies in [0, 100], is 0 without habits, 100 iff every habit is completed and 0 iff none is |
| Dashboard.CompletedTodayBounded | src/app/page.tsx:236-238 | completed-today counts only active habits, so it never exceeds their number |
| Dashboard.BestStreakIsMaximum | src/app/page.tsx:341 | the best-streak tile is at least 0, at least every active habit's best run, and equals one of them unless it is 0 |
| Dashboard.CurrentStreaksBounded | src/app/page.tsx:239 | with stored streaks keeping 0 <= current <= best, the summed current runs lie between 0 and (active habits) × (best streak) |
| AchievementsRoute.FindRecord | src/app/api/achievements/route.ts:38 | the first earned record naming the achievement, or none |
| AchievementsRoute.EarnedAt | src/app/api/achievements/route.ts:41 | an achievement has an earned timestamp iff some record names it, and the timestamp is that of the first such record |
| AchievementsRoute.WithStatus | src/app/api/achievements/route.ts:37-43 | one element per achievement, in order, each earned iff some record names it and carrying the timestamp `EarnedAt` gives, that of its first record |
| AchievementsRoute.LevelFacts | src/app/api/achievements/route.ts:46-47 | the level is n / 2 + 1 for n earned records: at least 1, up by one per two achievements, monotone |
| AchievementsPanel.EarnedAvailablePartition | src/components/achievements-panel.tsx:22-23 | earned and available split the list: sizes add up, multisets add up, membership by earned timestamp |
| AchievementsPanel.ProgressWidthBounds | src/components/achievements-panel.tsx:142 | the bar width is at most 100, non-negative for non-negative points, full iff points reach level × 100, empty iff no points |
| AchievementsPanel.ProgressNeverFullFromEndpoint | src/components/achievements-panel.tsx:137-142 | with points and level from the endpoint the bar is never full |
| AchievementsPanel.EarnedAtIffNamed | src/app/api/achievements/route.ts:38-41 | an achievement is earned iff its id is among the ids the records name |
| AchievementsPanel.EarnedCountIsNamedIds | src/components/achievements-panel.tsx:56 | with distinct achievement ids the earned count is the number of achievement ids the records name |
| AchievementsPanel.EarnedCountMatchesPoints | src/components/achievements-panel.tsx:56 | when every record names a distinct existing achievement, the earned tile equals the record count and points = 50 × earned |
| HabitTypes.TemplateKeysAreTheTemplates | src/lib/types.ts:57-115 | the template key list names each of the five templates exactly once |
| HabitTypes.TemplatesWellFormed | src/lib/types.ts:57-115 | every template has a required metric and a positive target |
| GymAnalytics.VolumeSeries | src/components/gym-analytics.tsx:29-45 | one point per workout, in reverse input order |
| GymAnalytics.TotalsAreSumsOverWorkouts | src/components/gym-analytics.tsx:80-82 | total volume and duration are the sums of every workout's stored volumes and durations; the reversal changes neither |
| GymAnalytics.AverageVolumeMeaning | src/components/gym-analytics.tsx:79-81 | average × number of workouts = total volume; 0 without workouts |
| GymAnalytics.BestWorkoutIsEarliestMaximum | src/components/gym-analytics.tsx:83 | the best workout is the seed iff no workout has positive volume, otherwise the earliest point of maximal volume |
| GymAnalytics.BestSetIndex | src/components/gym-analytics.tsx:57-61 | no best set without sets, else an index into the sets |
| GymAnalytics.BestSetIsFirstMaximum | src/components/gym-analytics.tsx:57-61 | the best set has maximal reps × weight and every earlier set has strictly less |
| GymAnalytics.AddWorkout | src/components/gym-analytics.tsx:50-70 | one workout's exercises extend the dictionary so that it holds every name's series over the workouts done so far |
| GymAnalytics.ProcessExerciseProgress | src/components/gym-analytics.tsx:47-73 | the result names each exercise once, each with its nonempty series, and every logged exercise appears |
| GymAnalytics.SeriesMeaning | src/components/gym-analytics.tsx:50-68 | a series exists iff some workout logged the exercise, and each point is the best-set point of one such logged exercise, dated with its workout |
| GymAnalytics.RecentPR | src/components/gym-analytics.tsx:89-100 | a record is reported iff the series has one point or its last weight exceeds the one before, and it carries the last point's weight and date |
| GymAnalytics.GetRecentPRs | src/components/gym-analytics.tsx:85-105 | the pushed records are exactly the per-exercise records, in exercise order |
| GymAnalytics.AtMostOnePRPerExercise | src/components/gym-analytics.tsx:88-102 | at most one record per exercise, each the record its exercise yields |
| GymAnalytics.PRsComeFromExercises | src/components/gym-analytics.tsx:88-102 | no more records than exercises, and every reported record is the record some exercise in the list yields |
| GymAnalytics.AsWrittenComparesOlderToNewer | src/components/gym-analytics.tsx:85-101 | for two one-set workouts of one exercise given newest first, a record is reported iff the older lift is heavier, and it carries the older lift and the older date |
| GymAnalytics.AsWrittenMissesLatestPR | src/components/gym-analytics.tsx:85-101 | on newest-first workouts with 100 then 200 lifted, the record check reports nothing although the latest lift is a record |
| GymAnalytics.CorrectedRecentIsNewest | src/components/gym-analytics.tsx:85-101 | with the workouts reversed first, every series runs from oldest to newest and a reported record is dated no earlier than any point of its exercise |
| GymAnalytics.CorrectedComparesNewerToOlder | src/components/gym-analytics.tsx:85-101 | with the workouts reversed first, a record is reported iff the newer lift is heavier than the older one, and it carries the newer lift and date |
| WorkoutTracker.CompletedAtMostTotal | src/components/gym-workout-tracker.tsx:83-84 | completed sets never exceed total sets |
| WorkoutTracker.AddedSets | src/components/gym-workout-tracker.tsx:151-172 | one uncompleted set is appended copying the last set's reps and weight (10 and 135 when 0), or 10 × 135 when there were no sets |
| WorkoutTracker.RemovedSets | src/components/gym-workout-tracker.tsx:174-184 | a set is removed as `splice` does, but an exercise never loses its last set and an index past the end changes nothing |
| WorkoutTracker.UpdatedExercises | src/components/gym-workout-tracker.tsx:186-196 | only the addressed field of the addressed existing set changes |
| WorkoutTracker.MarkCompletedCounts | src/components/gym-workout-tracker.tsx:94-96 | completing a set keeps the set count and adds one completed set unless it already was |
| WorkoutTracker.CursorWalksEverySet | src/components/gym-workout-tracker.tsx:123-133 | when every exercise has a set, the cursor steps through every set once in order and finishes exactly at the last |
| WorkoutTracker.FormatTimeReadsBack | src/components/gym-workout-tracker.tsx:198-202 | the text reads back as minutes, a colon and the seconds in two digits |
| WorkoutTracker.LoggedVolumeCountsEverySet | src/components/gym-workout-tracker.tsx:136-141 | the logged per-exercise volumes sum to the volume of all sets, completed or not |
| WorkoutTracker.WorkoutSession.constructor | src/components/gym-workout-tracker.tsx:41-79 | the session opens on the default exercises with the cursor on the first set, no rest, no start time, no volume |
| WorkoutTracker.WorkoutSession.StartWorkout | src/components/gym-workout-tracker.tsx:87-89 | records the start time and nothing else |
| WorkoutTracker.WorkoutSession.FinishWorkout | src/components/gym-workout-tracker.tsx:135-149 | logs one record of the current exercises, volume, duration and set counts |
| WorkoutTracker.WorkoutSession.MoveToNextSet | src/components/gym-workout-tracker.tsx:123-133 | next set, else the first set of the next exercise, else the workout is logged |
| WorkoutTracker.WorkoutSession.CompleteSet | src/components/gym-workout-tracker.tsx:91-121 | without a current set nothing changes; otherwise the set is marked completed, its volume added, and rest starts or the cursor moves on (staying put when the workout finishes); the start time is kept; a finishing record counts the final set (the corrected behaviour, see Findings) |
| WorkoutTracker.WorkoutSession.RestTick | src/components/gym-workout-tracker.tsx:107-117 | the countdown drops by one, or at 1 or below rest ends at 0 and the cursor moves to the next set or exercise (staying put when the workout finishes); exercises, volume and start time are kept; a finishing record counts the final set (the corrected behaviour, see Findings) |
| WorkoutTracker.WorkoutSession.SkipRest | src/components/gym-workout-tracker.tsx:302-307 | hides the countdown; the seconds left, the start time, the cursor, the exercises, the volume and the log are unchanged |
| WorkoutTracker.WorkoutSession.AddSet | src/components/gym-workout-tracker.tsx:151-172 | the addressed exercise's sets become AddedSets of the old ones, adding one to the set count; other exercises, the cursor, the rest state, the start time, the volume and the log are unchanged |
| WorkoutTracker.WorkoutSession.RemoveSet | src/components/gym-workout-tracker.tsx:174-184 | the addressed exercise's sets become RemovedSets of the old ones; other exercises, the cursor, the rest state, the start time, the volume and the log are unchanged |
| WorkoutTracker.WorkoutSession.UpdateSet | src/components/gym-workout-tracker.tsx:186-196 | the exercises become UpdatedExercises of the old ones; the cursor, the rest state, the start time, the volume and the log are unchanged |
| WorkoutTracker.AsWrittenMissesLastSet | src/components/gym-workout-tracker.tsx:91-149 | the record logged from the final set's handler lacks that set's volume and counts one completed set too few |
| WorkoutTracker.AsWrittenOneSetExample | src/components/gym-workout-tracker.tsx:91-149 | a one-set workout of 10 × 20 without rest logs volume 0 and 0 completed sets |
| WorkoutTracker.CorrectedCountsLastSet | src/components/gym-workout-tracker.tsx:135-146 | with current values the record counts the final set as completed, out of an unchanged number of sets |
| WorkoutBuilder.WeekDaysAreAllDays | src/components/custom-workout-builder.tsx:98-106 | the seven weekday keys are all the days, each once |
| WorkoutBuilder.NewTemplate | src/components/custom-workout-builder.tsx:91-109 | a fresh template has every day present and empty, no name, the custom category and intermediate difficulty |
| WorkoutBuilder.AddExercise | src/components/custom-workout-builder.tsx:115-123 | the day's list grows by the exercise at its end; other days and fields unchanged |
| WorkoutBuilder.RemoveIndex | src/components/custom-workout-builder.tsx:130 | the element at the index is dropped and the rest shift down (same multiset less that element); an index out of range changes nothing |
| WorkoutBuilder.RemoveUndoesAdd | src/components/custom-workout-builder.tsx:115-133 | removing the exercise just added gives back the template |
| WorkoutBuilder.SetFieldReadsBack | src/components/custom-workout-builder.tsx:141 | the written field reads back the value and every other field is unchanged |
| WorkoutBuilder.UpdateExercise | src/components/custom-workout-builder.tsx:135-145 | only the addressed exercise's field changes; an index out of range changes nothing |
| WorkoutBuilder.AddExerciseFromLibrary | src/components/custom-workout-builder.tsx:147-159 | the selected day's list grows by one exercise at its end, with the given id, the library name, 3 sets of 10 at 135, 90 s rest and empty notes; every other day, the name and the description are unchanged |
| WorkoutBuilder.AddCustomExerciseMeaning | src/components/custom-workout-builder.tsx:161-182 | a blank name changes nothing; otherwise the trimmed name is appended as a default exercise and the name box is cleared |
| WorkoutBuilder.CopyDayToOtherDays | src/components/custom-workout-builder.tsx:184-198 | the source day is kept and every other day becomes a copy of it with fresh ids |
| WorkoutBuilder.CopiedDaysHaveSameTotals | src/components/custom-workout-builder.tsx:184-208 | after the copy, every day has the source day's total reps and volume |
| WorkoutBuilder.AddExerciseTotals | src/components/custom-workout-builder.tsx:200-208 | adding an exercise raises the day's total by sets × reps and its volume by sets × reps × weight; an empty day totals 0 |
| WorkoutBuilder.TotalsNonNegative | src/components/custom-workout-builder.tsx:200-208 | with non-negative fields the totals are non-negative |
| WorkoutBuilder.SaveTemplateMeaning | src/components/custom-workout-builder.tsx:210-219 | the template is saved, unchanged, iff its name is not blank |
| WorkoutBuilder.FieldInputFallback | src/components/custom-workout-builder.tsx:450-481 | unreadable or zero input stores 1 for sets and reps and 0 for weight and rest |
| WorkoutTemplates.FilteredTemplatesMeaning | src/components/workout-templates.tsx:134-136 | 'all' shows every programme; any other category shows exactly the programmes of that category, in order |
| WorkoutTemplates.CatalogueCategories | src/components/workout-templates.tsx:41-133 | every catalogued programme's category is one of the category buttons |
| WorkoutTemplates.UnknownCategoryIsEmpty | src/components/workout-templates.tsx:134-136 | a category outside the button list shows no programme (the empty-state card, which the buttons never reach) |
| WorkoutTemplates.OfferedCategoriesNonEmpty | src/components/workout-templates.tsx:157-173 | every category a button selects, "all" included, shows at least one programme |
| WorkoutTemplates.DifficultyColor | src/components/workout-templates.tsx:138-145 | the grey badge is given exactly to unknown difficulties |
| WorkoutTemplates.PreviewAccountsForAll | src/components/workout-templates.tsx:227-235 | the first three exercises plus the "+n more" count account for every exercise, and n >= 1 when shown |
| GymDialog.BeforeFirstDash | src/components/enhanced-gym-dialog.tsx:40 | the part of the rep text before its first dash: a dash-free prefix, the whole text when it has no dash |
| GymDialog.RepsAtLeastOne | src/components/enhanced-gym-dialog.tsx:40 | the converted reps are never below one |
| GymDialog.RepsFromLowerBound | src/components/enhanced-gym-dialog.tsx:40 | text that starts with a positive number n, followed by a dash, a unit or nothing, gives n reps |
| GymDialog.RepTextExamples | src/components/enhanced-gym-dialog.tsx:40 | "8-10" gives 8, "30 sec" 30, "20" 20 and "30-60 sec" 30 |
| GymDialog.ConvertProgrammeMeaning | src/components/enhanced-gym-dialog.tsx:34-45 | one tracker exercise per programme exercise with its name, distinct ids, the programme's number of sets, at least one rep each, and nothing completed |
| LogEntry.HandleMetricChange | src/components/log-entry-dialog.tsx:26-28 | the metric's value is set and every other key is kept |
| LogEntry.HandleSubmit | src/components/log-entry-dialog.tsx:30-45 | after submitting the dialog is closed with empty data and notes |
| LogEntry.HandleSubmitPayload | src/components/log-entry-dialog.tsx:33-38 | the payload is the entered data with `completed` = some value is present, sent with the habit's id and the notes |
| LogEntry.RequiredOptionalPartition | src/components/log-entry-dialog.tsx:150-151 | required and optional metrics split the metric list |
| LogEntry.CanSubmitMeaning | src/components/log-entry-dialog.tsx:152 | submitting is enabled iff every required metric has a non-empty value, always when none is required |
| LogEntry.SubmittableIsCompleted | src/components/log-entry-dialog.tsx:30-45 | a submittable entry of a habit with a required metric is sent as completed |
| LogEntry.DecrementUndoesIncrement | src/components/log-entry-dialog.tsx:70-85 | the minus button never goes below 0 and undoes the plus button |
| CreateHabit.HandleTemplateSelect | src/components/create-habit-dialog.tsx:32-45 | a known key selects its template and copies all its fields; any other key changes nothing |
| CreateHabit.TemplateSelectMeaning | src/components/create-habit-dialog.tsx:32-45 | only template keys change the form, and a template-filled form has a required metric and a positive target |
| CreateHabit.HandleCreateMeaning | src/components/create-habit-dialog.tsx:47-60 | a blank title creates nothing; otherwise the form is handed over once and the dialog resets to the default form |
| CreateHabit.TargetInputMeaning | src/components/create-habit-dialog.tsx:216-222 | the stored target is the number typed, or 1 when unreadable or 0; the box shows what is stored |
| CreateHabit.FrequencyInput | src/components/create-habit-dialog.tsx:176-183 | the frequency becomes the one chosen; the days, the target and the rest of the form are unchanged |
| CreateHabit.TargetUnitInput | src/components/create-habit-dialog.tsx:228-236 | the target's unit becomes the text typed, its value and the rest of the form unchanged |
| CreateHabit.TargetAlwaysPresent | src/components/create-habit-dialog.tsx:23-236 | the default form has a target, and selecting a template, creating, the frequency select and both target boxes keep one |
| EditHabit.LoadFormKeepsPresentFields | src/components/edit-habit-dialog.tsx:55-67 | loading keeps every field the habit has, the recurrence whole with its days and target; missing ones take their defaults |
| EditHabit.HandleDayToggle | src/components/edit-habit-dialog.tsx:78-91 | the day is removed when listed and appended when not; other days and fields unchanged |
| EditHabit.DayToggleTwice | src/components/edit-habit-dialog.tsx:78-91 | toggling a day twice restores the set of days |
| EditHabit.HandleSubmitMeaning | src/components/edit-habit-dialog.tsx:69-76 | the update is sent, with the habit's id and the form, iff the title is not blank |
| Notifications.CurrentDayMapping | src/components/notification-system.tsx:81 | Sunday (0) maps to "Sun", Monday to "Mon", Saturday to "Sat", and distinct weekdays to distinct names |
| Notifications.CurrentTimeReadsBack | src/components/notification-system.tsx:80 | the clock text is five characters, HH:MM, reading back the hours and minutes |
| Notifications.CurrentTimeInjective | src/components/notification-system.tsx:80 | different times give different clock texts |
| Notifications.CheckAlarmsMeaning | src/components/notification-system.tsx:78-88 | an alarm fires iff it is enabled, set to the current time and repeats on the current day |
| Notifications.NewAlarm | src/components/notification-system.tsx:137-145 | the alarm takes the form's habit and time, enabled and email default to true, days to Mon-Fri, sound to "default" |
| Notifications.AddAlarmMeaning | src/components/notification-system.tsx:134-159 | without habit or time nothing changes; otherwise the alarm is appended and the form reset |
| Notifications.DefaultFormAlarm | src/components/notification-system.tsx:40-46 | an alarm added from the opening form rings at 09:00 on weekdays, enabled |
| Notifications.RemoveAlarmMeaning | src/components/notification-system.tsx:161-165 | exactly the alarms with that id are removed; an unknown id changes nothing |
| Notifications.ToggleAlarmTwice | src/components/notification-system.tsx:167-173 | toggling an alarm twice restores the list |
| Notifications.ToggleRepeatDay | src/components/notification-system.tsx:292-299 | the day is removed when listed and appended when not; other fields unchanged |
| Notifications.ToggleRepeatDayTwice | src/components/notification-system.tsx:292-299 | toggling a repeat day twice restores the set of days |
| Notifications.AsWrittenNeverFires | src/components/notification-system.tsx:69 | the poll started at mount sees the empty initial list, so no alarm ever fires, even one due now |
| Notifications.PolledFiresAddedAlarm | src/components/notification-system.tsx:78-88 | polling the current list, an alarm added from the opening form fires at 09:00 on a Monday |
| CalendarHeatmap.LevelMeaning | src/components/calendar-heatmap.tsx:18-27 | grey exactly for 0, darkest from 75 up, and larger positive values are never paler |
| CalendarHeatmap.MissingDayIsGrey | src/components/calendar-heatmap.tsx:20 | a day with no data is grey |
| CalendarHeatmap.DashboardDayColour | src/components/calendar-heatmap.tsx:18-27 | on the dashboard's numbers a day is grey iff no habit was completed, darkest when all were |
| CalendarHeatmap.MonthCellsMeaning | src/components/calendar-heatmap.tsx:52-57 | the grid has as many blanks as the first's weekday, then days 1..n in order, the first under its weekday header |
| ThemeToggle.IndexOf | src/components/theme-toggle.tsx:17 | -1 exactly when absent, otherwise the first position of the theme |
| ThemeToggle.CycleOrder | src/components/theme-toggle.tsx:15-20 | light to dark to system to light; an unknown theme goes to light |
| ThemeToggle.ThreeCyclesReturn | src/components/theme-toggle.tsx:15-20 | three presses return to a known theme |
| ThemeToggle.ThemeLabel | src/components/theme-toggle.tsx:35-46 | the label is "Theme" exactly for an unknown theme |
| JsBase.TrimEmptyIffBlank | src/components/create-habit-dialog.tsx:48 | `trim()` is empty iff the text consists of ECMAScript white space and line terminators only |
| JsBase.ParseIntOfNatToString | src/components/custom-workout-builder.tsx:450 | `parseInt` reads back a number's decimal text followed by a non-digit |
| JsBase.NatToStringInjective | src/components/enhanced-gym-dialog.tsx:37 | distinct indices give distinct id strings |
| JsBase.Pad2Value | src/components/gym-workout-tracker.tsx:201 | `padStart(2, '0')` of a number below 100 is two digits reading back the number |
| JsBase.ToggleTwiceRestoresMembers | src/components/edit-habit-dialog.tsx:82-88 | adding or removing a list member twice restores the members |
| JsBase.FilterPartition | src/components/achievements-panel.tsx:22-23 | a filter and its negation split a list: sizes and multisets add up |

## Left out

- Timers: `setInterval` and `clearInterval` are not modelled. One tick of the rest countdown is a method call (`RestTick`). One poll of the alarms is a function of the alarm list and the clock reading.
- Storage and I/O: browser storage, `fetch`, the database client, `alert`, DOM queries, browser notifications, sounds and e-mail are not modelled. Their results are parameters or state fields.
- Dates: the `date-fns` helpers, `toDateString`, `toISOString` and time zones become whole-day integers. The heatmap's map keys are those integers rather than date strings.
- Floating point: percentages and averages are exact reals. `workoutProgress` (a float ratio that divides by zero when there are no sets) and `toFixed`/`toLocaleString` formatting are not modelled.
- Achievement criteria and how achievements are earned are not part of this model. The endpoint's records are an input.
- `createdAt` timestamps and `Date.now()` ids are parameters.
- The random part of the copied ids is a parameter function. Nothing proves that the ids are fresh.
- The exercise library of the workout builder is a name parameter. Its constant list is not modelled.
- The focus-mode timer, the habit card, the layout and the habits CRUD routes are not part of this model, apart from the initial streak record a new habit gets.
- JsBase.ParseInt: leading whitespace and non-decimal prefixes such as `0x` are not modelled. Only a sign and decimal digits are read.
- Object key order: `Object.entries` order is modelled as first-insertion order.
- Aliasing: the tracker's shallow copies share set objects with the previous state. The model reassigns whole sequences, so it does not model that sharing.
- Dashboard.GenerateHeatmapData: the code uses every habit, active or not. The model follows the code.
- HabitTypes: a metric whose `required` flag is absent is modelled as not required.
- WorkoutTracker.WorkoutSession.AddSet: an exercise index with no exercise throws in the code. The model leaves the state unchanged.
- Per-exercise completed sets: the tracker never writes `completedSets` on a logged exercise, so the model logs the field as absent (`None`) and analytics reads it as 0.
- GymDialog.ConvertProgrammeMeaning: the code computes the converted exercises and never hands them to the tracker. The model proves what they would be.
- CreateHabit.TargetInput: it requires a target. Every form the dialog can reach carries one (the default form and all templates do, and no handler removes it; `CreateHabit.TargetAlwaysPresent`), so the code's `{ ...target!, value }` never spreads a missing target.
- WorkoutTracker.WorkoutSession.CompleteSet: when the final set finishes the workout, the session logs the corrected record, which counts that set's volume and completion. The code logs the values from before it; `WorkoutTracker.AsWrittenMissesLastSet` models that record.
- WorkoutTracker.WorkoutSession.RestTick: when the countdown ends after the final set, the session logs the corrected record, as `CompleteSet` does. The code's interval logs the values from before that set.
- Metric values: an entry's values are integers (`JsValue.Num`). The log dialog reads numeric and distance inputs with `parseFloat`, so fractional values are not modelled.
- EditHabit: the edit dialog toggles lower-case weekday names (`monday`), while templates use `Mon`. Both are kept as plain strings.

## Findings

| source | as written | input that shows it | evidently intended | confidence | as-written member | corrected member |
|---|---|---|---|---|---|---|
| src/components/gym-analytics.tsx:85-101 | workouts arrive newest first, and the per-exercise series are built in that order, so "recent" and "previous" are the two oldest points | two workouts of one exercise, 100 lbs then 200 lbs the next day: no record is reported | report a record when the newest lift beats the one before it | not executed | GymAnalytics.AsWrittenMissesLatestPR | GymAnalytics.CorrectedRecentIsNewest |
| src/components/gym-workout-tracker.tsx:91-149 | the finishing record is built from the handler of the render in which the last set was completed, so it reads the volume and completed count from before that set | one exercise, one set of 10 × 20, rest 0: the record has volume 0 and 0 completed sets | the record includes the final set | not executed | WorkoutTracker.AsWrittenMissesLastSet | WorkoutTracker.CorrectedCountsLastSet |
| src/components/notification-system.tsx:69 | the once-a-minute poll is started at mount and keeps the mount-time `checkAlarms`, which sees the initial empty alarm list | an alarm added for 09:00 on weekdays, polled at 09:00 on a Monday: nothing fires | poll the current alarm list | not executed | Notifications.AsWrittenNeverFires | Notifications.PolledFiresAddedAlarm |
