/**
 * The month calendar heatmap: the colour bucket of a day's completion
 * percentage, and the grid of leading blank cells followed by one cell per
 * day of the month under Sunday-first weekday headers.
 */
module CalendarHeatmap {
  import opened JsBase
  import opened HabitTypes
  import opened Dashboard

  /** `data[dateStr] || 0`: a missing day reads as 0. */
  function ValueOn(data: map<Day, real>, d: Day): real
  {
    if d in data then data[d] else 0.0
  }

  /** The five colour classes, palest first. */
  const Buckets: seq<string> := ["bg-gray-100", "bg-green-200", "bg-green-300", "bg-green-400", "bg-green-500"]

  /** The rank of the class `getIntensity` picks for a value. */
  function Level(value: real): (k: nat)
    ensures k < |Buckets|
  {
    if value == 0.0 then 0
    else if value < 25.0 then 1
    else if value < 50.0 then 2
    else if value < 75.0 then 3
    else 4
  }

  /** `getIntensity` */
  function Intensity(data: map<Day, real>, d: Day): string
  {
    Buckets[Level(ValueOn(data, d))]
  }

  /** Grey exactly for 0, the darkest green from 75 up, and among values above 0
      a larger value never gets a paler colour. */
  lemma LevelMeaning(v: real, w: real)
    ensures Level(v) == 0 <==> v == 0.0
    ensures Level(v) == 4 <==> v >= 75.0
    ensures 0.0 < v <= w ==> Level(v) <= Level(w)
    ensures v < 0.0 ==> Level(v) == 1
  {
  }

  /** A day with no data is grey. */
  lemma MissingDayIsGrey(data: map<Day, real>, d: Day)
    requires d !in data
    ensures Intensity(data, d) == "bg-gray-100"
  {
  }

  /** On the dashboard's heatmap numbers, a day is grey exactly when no habit was
      completed that day, and darkest green when every habit was. */
  lemma DashboardDayColour(habits: seq<HabitView>, d: Day)
    ensures Level(DayPercentage(habits, d)) == 0 <==>
      forall i :: 0 <= i < |habits| ==> !CompletedOn(habits[i].entries, d)
    ensures |habits| > 0 && (forall i :: 0 <= i < |habits| ==> CompletedOn(habits[i].entries, d)) ==>
      Level(DayPercentage(habits, d)) == 4
  {
    DayPercentageMeaning(habits, d);
    LevelMeaning(DayPercentage(habits, d), 0.0);
  }

  /** The weekday headers, Sunday first like `getDay()`. */
  const WeekHeaders: seq<string> := ["Sun", "Mon", "Tue", "Wed", "Thu", "Fri", "Sat"]

  datatype Cell = Blank | DayCell(dayOfMonth: int)

  /** The grid: `monthStart.getDay()` blank cells, then the days 1..n of the month. */
  function MonthCells(firstWeekday: nat, daysInMonth: nat): (cells: seq<Cell>)
    requires firstWeekday < 7
  {
    seq(firstWeekday, _ => Blank) + seq(daysInMonth, i => DayCell(i + 1))
  }

  function BlankCount(cells: seq<Cell>): nat
  {
    if cells == [] then 0 else (if cells[0].Blank? then 1 else 0) + BlankCount(cells[1..])
  }

  lemma {:induction false} BlankCountAppend(xs: seq<Cell>, ys: seq<Cell>)
    ensures BlankCount(xs + ys) == BlankCount(xs) + BlankCount(ys)
  {
    if xs != [] {
      assert (xs + ys)[1..] == xs[1..] + ys;
      BlankCountAppend(xs[1..], ys);
    } else {
      assert xs + ys == ys;
    }
  }

  lemma {:induction false} AllBlank(n: nat)
    ensures BlankCount(seq(n, _ => Blank)) == n
  {
    if n > 0 {
      var xs: seq<Cell> := seq(n, _ => Blank);
      assert xs[1..] == seq(n - 1, _ => Blank);
      AllBlank(n - 1);
    }
  }

  lemma {:induction false} NoBlank(n: nat, from: nat)
    ensures BlankCount(seq(n, i => DayCell(from + i + 1))) == 0
  {
    if n > 0 {
      var xs: seq<Cell> := seq(n, i => DayCell(from + i + 1));
      assert xs[1..] == seq(n - 1, i => DayCell(from + 1 + i + 1));
      NoBlank(n - 1, from + 1);
    }
  }

  /** The number of blank cells is the weekday of the first of the month, and
      after them comes one cell per day, in order, so that the first of the month
      sits under its own weekday's header. */
  lemma MonthCellsMeaning(firstWeekday: nat, daysInMonth: nat)
    requires firstWeekday < 7
    ensures |MonthCells(firstWeekday, daysInMonth)| == firstWeekday + daysInMonth
    ensures BlankCount(MonthCells(firstWeekday, daysInMonth)) == firstWeekday
    ensures forall d :: 1 <= d <= daysInMonth ==>
      MonthCells(firstWeekday, daysInMonth)[firstWeekday + d - 1] == DayCell(d)
  {
    var blanks: seq<Cell> := seq(firstWeekday, _ => Blank);
    var days: seq<Cell> := seq(daysInMonth, i => DayCell(i + 1));
    BlankCountAppend(blanks, days);
    AllBlank(firstWeekday);
    NoBlank(daysInMonth, 0);
    assert days == seq(daysInMonth, i => DayCell(0 + i + 1));
  }
}
