/**
 * The create-habit dialog: picking one of the habit templates fills the form,
 * creating hands the form to the caller once and resets it to the default
 * custom habit, and the target box falls back to 1.
 */
module CreateHabit {
  import opened JsBase
  import opened HabitTypes

  /** The form holds exactly what a template fills in. */
  type HabitForm = HabitTemplate

  datatype CreateState = CreateState(open: bool, selectedTemplate: string, form: HabitForm)

  /** The form a fresh dialog shows, and the one it returns to after creating:
      an untitled daily custom habit, target 1 time, one required yes/no metric. */
  const DefaultForm: HabitForm := HabitTemplate(
    "", "", CustomHabit,
    HabitTheme("#6B7280", "#9CA3AF", "⭐"),
    HabitRecurrence(Daily, None, Some(Target("times", 1))),
    [HabitMetric("completed", BooleanMetric, None, true)])

  /** `handleTemplateSelect`: a known key selects that template and copies its
      fields into the form; any other key changes nothing. */
  function HandleTemplateSelect(s: CreateState, key: string): (r: CreateState)
    ensures key !in HabitTemplates ==> r == s
    ensures key in HabitTemplates ==>
      r.selectedTemplate == key && r.open == s.open
      && r.form.title == HabitTemplates[key].title
      && r.form.description == HabitTemplates[key].description
      && r.form.kind == HabitTemplates[key].kind
      && r.form.theme == HabitTemplates[key].theme
      && r.form.recurrence == HabitTemplates[key].recurrence
      && r.form.metrics == HabitTemplates[key].metrics
  {
    if key in HabitTemplates then
      var t := HabitTemplates[key];
      s.(selectedTemplate := key,
         form := HabitTemplate(t.title, t.description, t.kind, t.theme, t.recurrence, t.metrics))
    else s
  }

  /** Only the five template keys change the form, and a form filled from a
      template always asks for a required metric and has a positive target. */
  lemma TemplateSelectMeaning(s: CreateState, key: string)
    ensures HandleTemplateSelect(s, key) != s ==> key in TemplateKeys
    ensures key in TemplateKeys ==>
      HasRequiredMetric(HandleTemplateSelect(s, key).form)
      && HandleTemplateSelect(s, key).form.recurrence.target.Some?
      && HandleTemplateSelect(s, key).form.recurrence.target.value.value > 0
  {
    TemplateKeysAreTheTemplates();
    TemplatesWellFormed();
  }

  /** `handleCreate`: the habit handed to `onCreateHabit`, if any, and the new state. */
  function HandleCreate(s: CreateState): (r: (Option<HabitForm>, CreateState))
  {
    if Trim(s.form.title) == "" then (None, s)
    else (Some(s.form), CreateState(false, "", DefaultForm))
  }

  /** A title of only spaces creates nothing and changes nothing; any other title
      passes the form as it stands and resets the dialog, so a second press
      creates nothing more. */
  lemma HandleCreateMeaning(s: CreateState)
    ensures AllSpace(s.form.title) ==> HandleCreate(s) == (None, s)
    ensures !AllSpace(s.form.title) ==>
      HandleCreate(s).0 == Some(s.form)
      && HandleCreate(s).1 == CreateState(false, "", DefaultForm)
    ensures HandleCreate(HandleCreate(s).1).0.None? || HandleCreate(s).0.None?
  {
    TrimEmptyIffBlank(s.form.title);
    TrimEmptyIffBlank(DefaultForm.title);
  }

  /** What the target box shows: `target?.value || 1`. */
  function TargetShown(form: HabitForm): (v: int)
    ensures v != 0
  {
    match form.recurrence.target
    case Some(t) => if t.value != 0 then t.value else 1
    case None => 1
  }

  /** Typing into the target box: `{ ...target!, value: parseInt(text) || 1 }`.
      Every form the dialog can reach carries a target (`TargetAlwaysPresent`),
      so the spread always copies a unit. */
  function TargetInput(form: HabitForm, text: string): (r: HabitForm)
    requires form.recurrence.target.Some?
    ensures r.recurrence.target.Some?
    ensures r.recurrence.target.value.unit == form.recurrence.target.value.unit
    ensures r.recurrence.target.value.value != 0
    ensures r.(recurrence := form.recurrence) == form
    ensures r.recurrence.(target := form.recurrence.target) == form.recurrence
  {
    var t := form.recurrence.target.value;
    form.(recurrence := form.recurrence.(target := Some(t.(value := ParseIntOr(text, 1)))))
  }

  /** Typing into the unit box: `{ ...target!, unit: text }`. */
  function TargetUnitInput(form: HabitForm, text: string): (r: HabitForm)
    requires form.recurrence.target.Some?
    ensures r.recurrence.target == Some(Target(text, form.recurrence.target.value.value))
    ensures r.(recurrence := form.recurrence) == form
    ensures r.recurrence.(target := form.recurrence.target) == form.recurrence
  {
    var t := form.recurrence.target.value;
    form.(recurrence := form.recurrence.(target := Some(t.(unit := text))))
  }

  /** The frequency select: `{ ...recurrence, frequency: value }`. */
  function FrequencyInput(form: HabitForm, f: Frequency): (r: HabitForm)
    ensures r.recurrence.frequency == f
    ensures r.recurrence.days == form.recurrence.days && r.recurrence.target == form.recurrence.target
    ensures r.(recurrence := form.recurrence) == form
  {
    form.(recurrence := form.recurrence.(frequency := f))
  }

  /** The form always has a target: the default form has one, and picking a
      template, creating, choosing a frequency and typing into either target box
      keep one, so the
      target boxes' `target!` never meets a missing target. */
  lemma TargetAlwaysPresent(s: CreateState, key: string, text: string, f: Frequency)
    requires s.form.recurrence.target.Some?
    ensures FrequencyInput(s.form, f).recurrence.target.Some?
    ensures DefaultForm.recurrence.target.Some?
    ensures HandleTemplateSelect(s, key).form.recurrence.target.Some?
    ensures HandleCreate(s).1.form.recurrence.target.Some?
    ensures TargetInput(s.form, text).recurrence.target.Some?
    ensures TargetUnitInput(s.form, text).recurrence.target.Some?
  {
    TemplateKeysAreTheTemplates();
    TemplatesWellFormed();
  }

  /** The stored target is the number typed, or 1 when the text does not start
      with a number or the number is 0; the box then shows what was stored. */
  lemma TargetInputMeaning(form: HabitForm, text: string)
    requires form.recurrence.target.Some?
    ensures ParseInt(text).Some? && ParseInt(text).value != 0 ==>
      TargetInput(form, text).recurrence.target.value.value == ParseInt(text).value
    ensures ParseInt(text).None? || ParseInt(text).value == 0 ==>
      TargetInput(form, text).recurrence.target.value.value == 1
    ensures TargetShown(TargetInput(form, text)) == TargetInput(form, text).recurrence.target.value.value
  {
  }
}
