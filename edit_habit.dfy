/**
 * The edit-habit dialog: loading a stored habit into the form with defaults
 * for missing fields, toggling weekdays in the recurrence, and the title
 * guard on submit.
 */
module EditHabit {
  import opened JsBase
  import opened HabitTypes

  /** The theme as the edit form holds it; its default has no accent colour. */
  datatype EditTheme = EditTheme(color: string, accent: Option<string>, icon: string)

  /** The recurrence as the form holds it, with the optional `target` a stored
      habit may carry. */
  datatype EditRecurrence = EditRecurrence(frequency: string, days: Option<seq<string>>, target: Option<Target>)

  datatype EditForm = EditForm(
    title: string, description: string, kind: string, theme: EditTheme,
    recurrence: EditRecurrence, metrics: seq<HabitMetric>, isActive: bool)

  /** A habit as the dialog receives it: any field may be missing. */
  datatype StoredHabit = StoredHabit(
    id: string, title: Option<string>, description: Option<string>, kind: Option<string>,
    theme: Option<EditTheme>, recurrence: Option<EditRecurrence>,
    metrics: Option<seq<HabitMetric>>, isActive: Option<bool>)

  const DefaultTheme: EditTheme := EditTheme("#3B82F6", None, "⭐")

  const DefaultRecurrence: EditRecurrence := EditRecurrence("daily", Some([]), None)

  /** `text || fallback`: a missing or empty text takes the fallback. */
  function TextOr(s: Option<string>, fallback: string): (r: string)
    ensures r == fallback || (s.Some? && r == s.value && r != "")
    ensures s.Some? && s.value != "" ==> r == s.value
  {
    if s.Some? && s.value != "" then s.value else fallback
  }

  /** The effect that loads `habit` into the form. */
  function LoadForm(h: StoredHabit): (f: EditForm)
    ensures f.isActive <==> h.isActive != Some(false)
    ensures f.kind != ""
    ensures h.title.None? ==> f.title == ""
    ensures h.kind.None? ==> f.kind == "custom"
    ensures h.theme.None? ==> f.theme == DefaultTheme
    ensures h.recurrence.None? ==> f.recurrence == DefaultRecurrence
    ensures h.metrics.None? ==> f.metrics == []
  {
    EditForm(
      TextOr(h.title, ""),
      TextOr(h.description, ""),
      TextOr(h.kind, "custom"),
      GetOr(h.theme, DefaultTheme),
      GetOr(h.recurrence, DefaultRecurrence),
      GetOr(h.metrics, []),
      match h.isActive case None => true case Some(b) => b)
  }

  /** Loading keeps every field the stored habit has, the recurrence whole with
      its days and target; only a missing `isActive` turns into true. */
  lemma LoadFormKeepsPresentFields(h: StoredHabit)
    ensures h.title.Some? ==> LoadForm(h).title == h.title.value
    ensures h.description.Some? ==> LoadForm(h).description == h.description.value
    ensures h.theme.Some? ==> LoadForm(h).theme == h.theme.value
    ensures h.recurrence.Some? ==> LoadForm(h).recurrence == h.recurrence.value
    ensures h.recurrence.Some? ==> LoadForm(h).recurrence.target == h.recurrence.value.target
    ensures h.metrics.Some? ==> LoadForm(h).metrics == h.metrics.value
    ensures h.isActive.Some? ==> LoadForm(h).isActive == h.isActive.value
  {
  }

  /** `handleDayToggle`: remove a listed day, or append an unlisted one. */
  function HandleDayToggle(f: EditForm, day: string): (r: EditForm)
    ensures r.recurrence.days.Some?
    ensures day in r.recurrence.days.value <==> day !in GetOr(f.recurrence.days, [])
    ensures forall d :: d != day ==> (d in r.recurrence.days.value <==> d in GetOr(f.recurrence.days, []))
    ensures day !in GetOr(f.recurrence.days, []) ==> r.recurrence.days.value == GetOr(f.recurrence.days, []) + [day]
    ensures r.recurrence.frequency == f.recurrence.frequency && r.recurrence.target == f.recurrence.target
    ensures r.(recurrence := f.recurrence) == f
  {
    var currentDays := GetOr(f.recurrence.days, []);
    f.(recurrence := f.recurrence.(days := Some(ToggleMember(currentDays, day))))
  }

  /** Toggling a day twice gives back the same set of days. */
  lemma DayToggleTwice(f: EditForm, day: string)
    ensures forall d ::
      (d in HandleDayToggle(HandleDayToggle(f, day), day).recurrence.days.value <==> d in GetOr(f.recurrence.days, []))
  {
    ToggleTwiceRestoresMembers(GetOr(f.recurrence.days, []), day);
  }

  /** `handleSubmit`: the arguments of `onUpdate`, if it is called. */
  function HandleSubmit(habitId: string, f: EditForm): Option<(string, EditForm)>
  {
    if Trim(f.title) == "" then None else Some((habitId, f))
  }

  /** `onUpdate` is called exactly when the title has a non-space character, with
      the habit's id and the form as it stands. */
  lemma HandleSubmitMeaning(habitId: string, f: EditForm)
    ensures HandleSubmit(habitId, f).Some? <==> !AllSpace(f.title)
    ensures HandleSubmit(habitId, f).Some? ==> HandleSubmit(habitId, f).value == (habitId, f)
  {
    TrimEmptyIffBlank(f.title);
  }
}
