/**
 * The log-entry dialog: the per-metric values typed into the form, the
 * submit check on required metrics, the `completed` flag sent with the
 * entry, the reset after submitting, and the counter's - and + buttons.
 */
module LogEntry {
  import opened JsBase
  import opened HabitTypes

  /** The form's `entryData`, keyed by metric name. */
  type EntryData = map<string, JsValue>

  /** `entryData[key]`: a missing key reads as `undefined`. */
  function Lookup(data: EntryData, key: string): JsValue
  {
    if key in data then data[key] else Undefined
  }

  /** `handleMetricChange`: set the metric's own key, keep every other key. */
  function HandleMetricChange(data: EntryData, metric: HabitMetric, value: JsValue): (r: EntryData)
    ensures r.Keys == data.Keys + {metric.name}
    ensures Lookup(r, metric.name) == value
    ensures forall k :: k != metric.name ==> Lookup(r, k) == Lookup(data, k)
  {
    data[metric.name := value]
  }

  /** A value `handleSubmit` counts as entered: not undefined, null or ''. */
  predicate Entered(v: JsValue)
  {
    v != Undefined && v != Null && v != Str("")
  }

  /** `Object.values(entryData).some(value => ...)` */
  predicate HasValue(data: EntryData)
  {
    exists k :: k in data && Entered(data[k])
  }

  /** The dialog's state. */
  datatype DialogState = DialogState(open: bool, entryData: EntryData, notes: string)

  /** What `handleSubmit` hands to `onLogEntry`. */
  datatype Submission = Submission(habitId: string, data: EntryData, notes: string)

  /** `handleSubmit`: the payload is the typed data plus `completed`, and the
      dialog closes with an empty form. */
  function HandleSubmit(habit: Habit, s: DialogState): (r: (Submission, DialogState))
    ensures r.1 == DialogState(false, map[], "")
  {
    (Submission(habit.id, s.entryData["completed" := Bool(HasValue(s.entryData))], s.notes),
     DialogState(false, map[], ""))
  }

  /** The payload's `completed` is true exactly when some value was entered;
      every typed value is passed on except one keyed 'completed', which the
      flag replaces; the notes are passed on. */
  lemma HandleSubmitPayload(habit: Habit, s: DialogState)
    ensures HandleSubmit(habit, s).0.data["completed"] == Bool(HasValue(s.entryData))
    ensures HandleSubmit(habit, s).0.data["completed"] == Bool(true) <==>
      exists k :: k in s.entryData && Entered(s.entryData[k])
    ensures forall k :: k != "completed" ==> Lookup(HandleSubmit(habit, s).0.data, k) == Lookup(s.entryData, k)
    ensures HandleSubmit(habit, s).0.habitId == habit.id && HandleSubmit(habit, s).0.notes == s.notes
  {
  }

  /** `habit.metrics.filter(m => m.required)` */
  function RequiredMetrics(metrics: seq<HabitMetric>): seq<HabitMetric>
  {
    Filter(metrics, (m: HabitMetric) => m.required)
  }

  /** `habit.metrics.filter(m => !m.required)` */
  function OptionalMetrics(metrics: seq<HabitMetric>): seq<HabitMetric>
  {
    Filter(metrics, (m: HabitMetric) => !m.required)
  }

  /** The required and optional sections split the metrics: each metric is shown
      in exactly one of them. */
  lemma RequiredOptionalPartition(metrics: seq<HabitMetric>)
    ensures |RequiredMetrics(metrics)| + |OptionalMetrics(metrics)| == |metrics|
    ensures multiset(RequiredMetrics(metrics)) + multiset(OptionalMetrics(metrics)) == multiset(metrics)
    ensures forall m :: m in RequiredMetrics(metrics) <==> m in metrics && m.required
    ensures forall m :: m in OptionalMetrics(metrics) <==> m in metrics && !m.required
  {
    FilterPartition(metrics, (m: HabitMetric) => m.required, (m: HabitMetric) => !m.required);
  }

  /** What `canSubmit` asks of one required metric: not undefined and not ''. */
  predicate Filled(data: EntryData, m: HabitMetric)
  {
    Lookup(data, m.name) != Undefined && Lookup(data, m.name) != Str("")
  }

  /** `requiredMetrics.every(m => ...)` */
  predicate CanSubmit(metrics: seq<HabitMetric>, data: EntryData)
  {
    forall m :: m in RequiredMetrics(metrics) ==> Filled(data, m)
  }

  /** Submission is allowed exactly when every required metric has a value that
      is neither undefined nor ''; a habit without required metrics can always
      be submitted. */
  lemma CanSubmitMeaning(metrics: seq<HabitMetric>, data: EntryData)
    ensures CanSubmit(metrics, data) <==>
      forall i :: 0 <= i < |metrics| && metrics[i].required ==> Filled(data, metrics[i])
    ensures (forall i :: 0 <= i < |metrics| ==> !metrics[i].required) ==> CanSubmit(metrics, data)
  {
    RequiredOptionalPartition(metrics);
  }

  /** The values the metric inputs write: switches write booleans and the number
      boxes write numbers, never null. */
  predicate FromInputs(data: EntryData)
  {
    forall k :: k in data ==> data[k].Bool? || data[k].Num?
  }

  lemma InputsKeepFromInputs(data: EntryData, metric: HabitMetric, value: JsValue)
    requires FromInputs(data) && (value.Bool? || value.Num?)
    ensures FromInputs(HandleMetricChange(data, metric, value))
  {
  }

  /** With values written by the inputs, a submittable form with at least one
      required metric always sends `completed: true`. */
  lemma SubmittableIsCompleted(habit: Habit, s: DialogState)
    requires FromInputs(s.entryData)
    requires CanSubmit(habit.metrics, s.entryData)
    requires exists i :: 0 <= i < |habit.metrics| && habit.metrics[i].required
    ensures HandleSubmit(habit, s).0.data["completed"] == Bool(true)
  {
    var i :| 0 <= i < |habit.metrics| && habit.metrics[i].required;
    var m := habit.metrics[i];
    RequiredOptionalPartition(habit.metrics);
    assert m in RequiredMetrics(habit.metrics);
    assert Filled(s.entryData, m);
    assert m.name in s.entryData && Entered(s.entryData[m.name]);
  }

  /** `value || 0` for a counter's value. */
  function CounterValue(v: JsValue): int
  {
    if v.Num? then v.n else 0
  }

  /** The - button: `Math.max(0, (value || 0) - 1)`. */
  function Decrement(v: JsValue): (r: int)
    ensures r >= 0
    ensures CounterValue(v) >= 1 ==> r == CounterValue(v) - 1
    ensures CounterValue(v) <= 0 ==> r == 0
  {
    if CounterValue(v) - 1 > 0 then CounterValue(v) - 1 else 0
  }

  /** The + button: `(value || 0) + 1`. */
  function Increment(v: JsValue): (r: int)
    ensures r == CounterValue(v) + 1
  {
    CounterValue(v) + 1
  }

  /** - undoes + on a counter that is not negative. */
  lemma DecrementUndoesIncrement(v: JsValue)
    requires CounterValue(v) >= 0
    ensures Decrement(Num(Increment(v))) == CounterValue(v)
  {
  }
}
