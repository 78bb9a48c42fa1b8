/**
 * The habit data types shared by the API routes and the components, and the
 * five constant habit templates offered when a habit is created.
 */
module HabitTypes {
  import opened JsBase

  /** A calendar day, counted in whole days; all time-of-day is normalised away. */
  type Day = int

  datatype Frequency = Daily | Weekly | CustomFrequency

  datatype MetricType = BooleanMetric | CounterMetric | TimerMetric | NumericMetric | DistanceMetric

  datatype HabitType = Running | Gym | Calisthenics | Study | Gaming | CustomHabit

  datatype HabitTheme = HabitTheme(color: string, accent: string, icon: string)

  datatype Target = Target(unit: string, value: int)

  datatype HabitRecurrence = HabitRecurrence(frequency: Frequency, days: Option<seq<string>>, target: Option<Target>)

  /** A metric definition; an absent `required` flag reads as `false`. */
  datatype HabitMetric = HabitMetric(name: string, kind: MetricType, unit: Option<string>, required: bool)

  datatype Habit = Habit(
    id: string,
    userId: string,
    title: string,
    description: Option<string>,
    kind: HabitType,
    theme: HabitTheme,
    recurrence: HabitRecurrence,
    metrics: seq<HabitMetric>,
    isActive: bool)

  /** The values an entry's free-form payload can hold (numbers are integers here). */
  datatype JsValue = Undefined | Null | Bool(b: bool) | Num(n: int) | Str(s: string)

  datatype HabitEntry = HabitEntry(
    id: string,
    habitId: string,
    date: Day,
    value: map<string, JsValue>,
    notes: Option<string>,
    completed: bool)

  datatype Streak = Streak(id: string, habitId: string, current: int, best: int, lastCompleted: Option<Day>)

  /** What a template fills into the create form. */
  datatype HabitTemplate = HabitTemplate(
    title: string,
    description: string,
    kind: HabitType,
    theme: HabitTheme,
    recurrence: HabitRecurrence,
    metrics: seq<HabitMetric>)

  /** The template keys, in declaration order. */
  const TemplateKeys: seq<string> := ["running", "gym", "study", "meditation", "water"]

  const HabitTemplates: map<string, HabitTemplate> := map[
    "running" := HabitTemplate(
      "Morning Run", "Track your daily runs", Running,
      HabitTheme("#1E90FF", "#FFD166", "🏃"),
      HabitRecurrence(Weekly, Some(["Mon", "Wed", "Fri"]), Some(Target("km", 5))),
      [ HabitMetric("distance", DistanceMetric, Some("km"), true),
        HabitMetric("duration", TimerMetric, Some("min"), true),
        HabitMetric("pace", NumericMetric, Some("min/km"), false),
        HabitMetric("effort", NumericMetric, Some("1-10"), false) ]),
    "gym" := HabitTemplate(
      "Gym Workout", "Strength training sessions", Gym,
      HabitTheme("#FF6B6B", "#4ECDC4", "💪"),
      HabitRecurrence(Weekly, Some(["Tue", "Thu", "Sat"]), Some(Target("sessions", 3))),
      [ HabitMetric("duration", TimerMetric, Some("min"), true),
        HabitMetric("exercises", CounterMetric, Some("exercises"), false),
        HabitMetric("rpe", NumericMetric, Some("1-10"), false) ]),
    "study" := HabitTemplate(
      "Study Session", "Focus time for learning", Study,
      HabitTheme("#6A5ACD", "#9AD3BC", "📚"),
      HabitRecurrence(Daily, None, Some(Target("hours", 2))),
      [ HabitMetric("duration", TimerMetric, Some("min"), true),
        HabitMetric("pomodoros", CounterMetric, Some("sessions"), false),
        HabitMetric("focus_quality", NumericMetric, Some("1-10"), false) ]),
    "meditation" := HabitTemplate(
      "Meditation", "Daily mindfulness practice", CustomHabit,
      HabitTheme("#00A86B", "#F7B267", "🧘"),
      HabitRecurrence(Daily, None, Some(Target("min", 10))),
      [ HabitMetric("duration", TimerMetric, Some("min"), true),
        HabitMetric("type", BooleanMetric, Some("guided"), false) ]),
    "water" := HabitTemplate(
      "Water Intake", "Stay hydrated throughout the day", CustomHabit,
      HabitTheme("#00CED1", "#FFB6C1", "💧"),
      HabitRecurrence(Daily, None, Some(Target("ml", 2000))),
      [ HabitMetric("amount", NumericMetric, Some("ml"), true) ])
  ]

  predicate HasRequiredMetric(t: HabitTemplate)
  {
    exists i :: 0 <= i < |t.metrics| && t.metrics[i].required
  }

  /** The key list names exactly the templates, once each. */
  lemma TemplateKeysAreTheTemplates()
    ensures forall k :: k in HabitTemplates <==> k in TemplateKeys
    ensures forall i, j :: 0 <= i < j < |TemplateKeys| ==> TemplateKeys[i] != TemplateKeys[j]
  {
  }

  /** Every template asks for at least one required metric, carries a positive
      target, and carries a weekday list exactly when it is a weekly habit. */
  lemma TemplatesWellFormed()
    ensures forall k :: k in HabitTemplates ==> HasRequiredMetric(HabitTemplates[k])
    ensures forall k :: k in HabitTemplates ==>
      HabitTemplates[k].recurrence.target.Some? && HabitTemplates[k].recurrence.target.value.value > 0
    ensures forall k :: k in HabitTemplates ==>
      (HabitTemplates[k].recurrence.days.Some? <==> HabitTemplates[k].recurrence.frequency == Weekly)
  {
    assert HabitTemplates["running"].metrics[0].required;
    assert HabitTemplates["gym"].metrics[0].required;
    assert HabitTemplates["study"].metrics[0].required;
    assert HabitTemplates["meditation"].metrics[0].required;
    assert HabitTemplates["water"].metrics[0].required;
  }
}
