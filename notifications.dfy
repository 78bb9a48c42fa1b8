/**
 * The reminder panel: alarms matched against the clock every minute, and the
 * edits of the alarm list (add from the form, remove, enable or disable) and
 * of the form's repeat days.
 */
module Notifications {
  import opened JsBase

  datatype Alarm = Alarm(
    id: string, time: string, habit: string, enabled: bool, days: seq<string>,
    sound: string, emailNotification: bool)

  /** The panel's `weekDays`, Monday first. */
  const WeekDayNames: seq<string> := ["Mon", "Tue", "Wed", "Thu", "Fri", "Sat", "Sun"]

  /** `weekDays[now.getDay() === 0 ? 6 : now.getDay() - 1]`, for `getDay()` in 0..6 with 0 Sunday. */
  function CurrentDay(jsDay: nat): (name: string)
    requires jsDay < 7
    ensures name in WeekDayNames
  {
    WeekDayNames[if jsDay == 0 then 6 else jsDay - 1]
  }

  /** Sunday is 'Sun', the other days follow Monday-first, and no two days share a name. */
  lemma CurrentDayMapping()
    ensures CurrentDay(0) == "Sun" && CurrentDay(1) == "Mon" && CurrentDay(6) == "Sat"
    ensures forall d, e :: 0 <= d < 7 && 0 <= e < 7 && d != e ==> CurrentDay(d) != CurrentDay(e)
  {
  }

  /** `HH:MM` from `getHours()` and `getMinutes()`, each padded to two digits. */
  function CurrentTime(hours: nat, minutes: nat): (t: string)
    requires hours < 24 && minutes < 60
  {
    Pad2(hours) + ":" + Pad2(minutes)
  }

  /** The clock text is five characters and reads back as the hour and minute,
      so two different minutes of the day never show the same text. */
  lemma CurrentTimeReadsBack(hours: nat, minutes: nat)
    requires hours < 24 && minutes < 60
    ensures |CurrentTime(hours, minutes)| == 5 && CurrentTime(hours, minutes)[2] == ':'
    ensures DigitsValue(CurrentTime(hours, minutes)[..2]) == hours
    ensures DigitsValue(CurrentTime(hours, minutes)[3..]) == minutes
  {
    Pad2Value(hours);
    Pad2Value(minutes);
    var t := CurrentTime(hours, minutes);
    assert t[..2] == Pad2(hours);
    assert t[3..] == Pad2(minutes);
  }

  lemma CurrentTimeInjective(h1: nat, m1: nat, h2: nat, m2: nat)
    requires h1 < 24 && m1 < 60 && h2 < 24 && m2 < 60
    requires CurrentTime(h1, m1) == CurrentTime(h2, m2)
    ensures h1 == h2 && m1 == m2
  {
    CurrentTimeReadsBack(h1, m1);
    CurrentTimeReadsBack(h2, m2);
  }

  /** The test `checkAlarms` applies to each alarm. */
  predicate Fires(a: Alarm, time: string, day: string)
  {
    a.enabled && a.time == time && day in a.days
  }

  /** `checkAlarms`: the alarms it triggers, in list order. */
  function CheckAlarms(alarms: seq<Alarm>, hours: nat, minutes: nat, jsDay: nat): seq<Alarm>
    requires hours < 24 && minutes < 60 && jsDay < 7
  {
    var time := CurrentTime(hours, minutes);
    var day := CurrentDay(jsDay);
    Filter(alarms, (a: Alarm) => Fires(a, time, day))
  }

  /** An alarm is triggered exactly when it is enabled, set for this minute and
      repeats on today's weekday. */
  lemma CheckAlarmsMeaning(alarms: seq<Alarm>, hours: nat, minutes: nat, jsDay: nat)
    requires hours < 24 && minutes < 60 && jsDay < 7
    ensures forall a :: a in CheckAlarms(alarms, hours, minutes, jsDay) <==>
      a in alarms && a.enabled && a.time == CurrentTime(hours, minutes) && CurrentDay(jsDay) in a.days
    ensures |CheckAlarms(alarms, hours, minutes, jsDay)| <= |alarms|
  {
  }

  /** The new-alarm form; every field may be unset. */
  datatype AlarmForm = AlarmForm(
    habit: Option<string>, time: Option<string>, enabled: Option<bool>, days: Option<seq<string>>,
    sound: Option<string>, emailNotification: Option<bool>)

  const WorkWeek: seq<string> := ["Mon", "Tue", "Wed", "Thu", "Fri"]

  /** The form as it opens and after each added alarm. */
  const DefaultForm: AlarmForm := AlarmForm(None, Some("09:00"), Some(true), Some(WorkWeek), Some("default"), Some(true))

  /** `!value` for an optional text: missing or empty. */
  predicate Blank(s: Option<string>)
  {
    s.None? || s.value == ""
  }

  /** The alarm `addAlarm` builds from the form. */
  function NewAlarm(form: AlarmForm, id: string): (a: Alarm)
    requires !Blank(form.habit) && !Blank(form.time)
    ensures a.id == id && a.habit == form.habit.value && a.time == form.time.value
    ensures a.enabled == GetOr(form.enabled, true)
    ensures a.emailNotification == GetOr(form.emailNotification, true)
    ensures form.days.None? ==> a.days == WorkWeek
    ensures form.days.Some? ==> a.days == form.days.value
    ensures a.sound == (if Blank(form.sound) then "default" else form.sound.value)
  {
    Alarm(id, form.time.value, form.habit.value, GetOr(form.enabled, true), GetOr(form.days, WorkWeek),
      if Blank(form.sound) then "default" else form.sound.value, GetOr(form.emailNotification, true))
  }

  /** `addAlarm`: the new list and the new form. */
  function AddAlarm(alarms: seq<Alarm>, form: AlarmForm, id: string): (r: (seq<Alarm>, AlarmForm))
  {
    if Blank(form.habit) || Blank(form.time) then (alarms, form)
    else (alarms + [NewAlarm(form, id)], DefaultForm)
  }

  /** Without a habit or a time nothing changes; otherwise exactly one alarm is
      appended, the earlier alarms keep their places, and the form is reset. */
  lemma AddAlarmMeaning(alarms: seq<Alarm>, form: AlarmForm, id: string)
    ensures Blank(form.habit) || Blank(form.time) ==> AddAlarm(alarms, form, id) == (alarms, form)
    ensures !Blank(form.habit) && !Blank(form.time) ==>
      |AddAlarm(alarms, form, id).0| == |alarms| + 1
      && AddAlarm(alarms, form, id).0[..|alarms|] == alarms
      && AddAlarm(alarms, form, id).0[|alarms|].habit == form.habit.value
      && AddAlarm(alarms, form, id).0[|alarms|].id == id
      && AddAlarm(alarms, form, id).1 == DefaultForm
  {
  }

  /** An alarm added from the untouched form is enabled, rings Monday to Friday
      with the default sound, and also sends an email. */
  lemma DefaultFormAlarm(alarms: seq<Alarm>, habit: string, id: string)
    requires habit != ""
    ensures AddAlarm(alarms, DefaultForm.(habit := Some(habit)), id).0[|alarms|]
      == Alarm(id, "09:00", habit, true, WorkWeek, "default", true)
  {
  }

  /** `removeAlarm` */
  function RemoveAlarm(alarms: seq<Alarm>, id: string): seq<Alarm>
  {
    Filter(alarms, (a: Alarm) => a.id != id)
  }

  /** Every alarm with the id is gone, every other one stays, in order. */
  lemma {:induction false} RemoveAlarmMeaning(alarms: seq<Alarm>, id: string)
    ensures forall a :: a in RemoveAlarm(alarms, id) <==> a in alarms && a.id != id
    ensures (forall a :: a in alarms ==> a.id != id) ==> RemoveAlarm(alarms, id) == alarms
  {
    if alarms != [] && forall a :: a in alarms ==> a.id != id {
      assert alarms == [alarms[0]] + alarms[1..];
      assert alarms[0] in alarms;
      assert forall a :: a in alarms[1..] ==> a in alarms;
      FilterAppend([alarms[0]], alarms[1..], (a: Alarm) => a.id != id);
      RemoveAlarmMeaning(alarms[1..], id);
    }
  }

  /** `toggleAlarm`: `alarms.map(alarm => alarm.id === id ? { ...alarm, enabled: !alarm.enabled } : alarm)` */
  function ToggleAlarm(alarms: seq<Alarm>, id: string): (r: seq<Alarm>)
    ensures |r| == |alarms|
    ensures forall i :: 0 <= i < |alarms| ==>
      r[i] == if alarms[i].id == id then alarms[i].(enabled := !alarms[i].enabled) else alarms[i]
  {
    if alarms == [] then []
    else
      [if alarms[0].id == id then alarms[0].(enabled := !alarms[0].enabled) else alarms[0]]
      + ToggleAlarm(alarms[1..], id)
  }

  /** Toggling the same alarm twice restores the list. */
  lemma ToggleAlarmTwice(alarms: seq<Alarm>, id: string)
    ensures ToggleAlarm(ToggleAlarm(alarms, id), id) == alarms
  {
    var twice := ToggleAlarm(ToggleAlarm(alarms, id), id);
    assert forall i :: 0 <= i < |alarms| ==> twice[i] == alarms[i];
  }

  /** The repeat-day badges: remove a listed day, or append an unlisted one. */
  function ToggleRepeatDay(form: AlarmForm, day: string): (r: AlarmForm)
    ensures r.days.Some?
    ensures day in r.days.value <==> day !in GetOr(form.days, [])
    ensures forall d :: d != day ==> (d in r.days.value <==> d in GetOr(form.days, []))
    ensures day !in GetOr(form.days, []) ==> r.days.value == GetOr(form.days, []) + [day]
    ensures r.(days := form.days) == form
  {
    form.(days := Some(ToggleMember(GetOr(form.days, []), day)))
  }

  /** Pressing a day badge twice gives back the same set of days. */
  lemma ToggleRepeatDayTwice(form: AlarmForm, day: string)
    ensures forall d ::
      (d in ToggleRepeatDay(ToggleRepeatDay(form, day), day).days.value <==> d in GetOr(form.days, []))
  {
    ToggleTwiceRestoresMembers(GetOr(form.days, []), day);
  }

  // ---------------------------------------------------------------------
  // Polling: the check the minute timer runs
  // ---------------------------------------------------------------------

  /** The alarms the minute timer triggers as written: the timer is set up once,
      when the panel mounts, with that render's `checkAlarms`, whose `alarms` is
      the initial empty list; later lists never reach it. */
  function PolledAsWritten(current: seq<Alarm>, hours: nat, minutes: nat, jsDay: nat): seq<Alarm>
    requires hours < 24 && minutes < 60 && jsDay < 7
  {
    var mounted: seq<Alarm> := [];
    CheckAlarms(mounted, hours, minutes, jsDay)
  }

  /** As written, no alarm ever fires, even one that is enabled, set for this
      minute and repeats today. */
  lemma AsWrittenNeverFires(current: seq<Alarm>, hours: nat, minutes: nat, jsDay: nat)
    requires hours < 24 && minutes < 60 && jsDay < 7
    ensures PolledAsWritten(current, hours, minutes, jsDay) == []
    ensures forall a :: a in current && Fires(a, CurrentTime(hours, minutes), CurrentDay(jsDay)) ==>
      a !in PolledAsWritten(current, hours, minutes, jsDay) && a in CheckAlarms(current, hours, minutes, jsDay)
  {
    CheckAlarmsMeaning(current, hours, minutes, jsDay);
  }

  /** The evidently intended poll: the check runs over the current list. */
  function Polled(current: seq<Alarm>, hours: nat, minutes: nat, jsDay: nat): seq<Alarm>
    requires hours < 24 && minutes < 60 && jsDay < 7
  {
    CheckAlarms(current, hours, minutes, jsDay)
  }

  /** With the current list, an alarm added from the default form for 09:00
      fires at 09:00 on a Monday. */
  lemma PolledFiresAddedAlarm(habit: string, id: string)
    requires habit != ""
    ensures var alarms := AddAlarm([], DefaultForm.(habit := Some(habit)), id).0;
      alarms != [] && alarms[0] in Polled(alarms, 9, 0, 1)
  {
    var alarms := AddAlarm([], DefaultForm.(habit := Some(habit)), id).0;
    DefaultFormAlarm([], habit, id);
    assert CurrentTime(9, 0) == "09:00";
    assert CurrentDay(1) == "Mon";
    CheckAlarmsMeaning(alarms, 9, 0, 1);
  }
}
