/**
 * The aggregation engine: trailing day windows ending today and the
 * per-day and overall completion percentages computed over them.
 */
module Progress {
  import opened HabitRecord
  import opened Rounding
  import Seqs
  import CivilDays

  /** Short weekday names, indexed as `Date.prototype.getDay` numbers the days. */
  const WeekdayNames: seq<string> := ["Sun", "Mon", "Tue", "Wed", "Thu", "Fri", "Sat"]

  /** One bar of the weekly chart. */
  datatype WeekEntry = WeekEntry(date: Day, dayName: string, completed: nat, total: nat, percentage: nat)

  /** One point of the monthly chart: the same figures without a day name. */
  datatype MonthEntry = MonthEntry(date: Day, completed: nat, total: nat, percentage: nat)

  /** `getDayName(date)`: the short name of the date's weekday. */
  function DayName(date: Day): (name: string)
    ensures name in WeekdayNames
  {
    WeekdayNames[CivilDays.Weekday(date)]
  }

  /** The `n` consecutive days ending at `today`, oldest first. */
  function Window(today: Day, n: nat): (dates: seq<Day>)
    ensures |dates| == n
    ensures forall k :: 0 <= k < n ==> dates[k] == today - n + 1 + k
  {
    seq(n, k requires 0 <= k < n => today - n + 1 + k)
  }

  /**
   * The loop shared by `getWeekDates` (n = 7) and `getMonthDates` (n = 30):
   * for i from n - 1 down to 0, push the key of today minus i days.
   */
  method TrailingDates(today: Day, n: nat) returns (dates: seq<Day>)
    ensures dates == Window(today, n)
    ensures n > 0 ==> dates[n - 1] == today
    ensures forall k :: 0 <= k < n - 1 ==> dates[k + 1] == dates[k] + 1
  {
    dates := [];
    var i: int := n - 1;
    while i >= 0
      invariant -1 <= i <= n - 1
      invariant |dates| == n - 1 - i
      invariant forall k :: 0 <= k < |dates| ==> dates[k] == today - n + 1 + k
    {
      dates := dates + [today - i];
      i := i - 1;
    }
  }

  /** `getWeekDates()`: seven consecutive day keys, oldest first, the last one today. */
  method GetWeekDates(today: Day) returns (dates: seq<Day>)
    ensures |dates| == 7 && dates[6] == today
    ensures forall k :: 0 <= k < 6 ==> dates[k + 1] == dates[k] + 1
    ensures dates == Window(today, 7)
  {
    dates := TrailingDates(today, 7);
  }

  /** `getMonthDates()`: thirty consecutive day keys, oldest first, the last one today. */
  method GetMonthDates(today: Day) returns (dates: seq<Day>)
    ensures |dates| == 30 && dates[29] == today
    ensures forall k :: 0 <= k < 29 ==> dates[k + 1] == dates[k] + 1
    ensures dates == Window(today, 30)
  {
    dates := TrailingDates(today, 30);
  }

  /** How many of the habits are done on `day`, counted as the `forEach` counts them. */
  function CountDone(hs: seq<Habit>, cs: Completions, day: Day): (n: nat)
    ensures n <= |hs|
  {
    if hs == [] then 0
    else CountDone(hs[..|hs| - 1], cs, day) + (if DoneOn(cs, hs[|hs| - 1].id, day) then 1 else 0)
  }

  /** The counter of the three calculators: `completed++` for each habit done on `day`. */
  method CountDoneOn(hs: seq<Habit>, cs: Completions, day: Day) returns (completed: nat)
    ensures completed == CountDone(hs, cs, day)
    ensures completed <= |hs|
  {
    completed := 0;
    for i := 0 to |hs|
      invariant completed == CountDone(hs[..i], cs, day)
    {
      assert hs[..i + 1][..i] == hs[..i];
      if DoneOn(cs, hs[i].id, day) {
        completed := completed + 1;
      }
    }
    assert hs[..|hs|] == hs;
  }

  /** The test of `habits.filter`: the habit's map has the day truthy. */
  function DoneTest(cs: Completions, day: Day): Habit -> bool {
    (h: Habit) => DoneOn(cs, h.id, day)
  }

  /** The count is the length of the list of habits done that day (`habits.filter(...).length`). */
  lemma {:induction false} CountDoneIsFilterLength(hs: seq<Habit>, cs: Completions, day: Day)
    ensures CountDone(hs, cs, day) == |Seqs.Filter(DoneTest(cs, day), hs)|
  {
    if hs != [] {
      var front, last := hs[..|hs| - 1], hs[|hs| - 1];
      assert hs == front + [last];
      Seqs.FilterAppend(DoneTest(cs, day), front, [last]);
      CountDoneIsFilterLength(front, cs, day);
    }
  }

  /**
   * The weekly figures for one date: its weekday name, the number of habits
   * done that day out of all habits, and that share as a percentage rounded
   * half up (0 with no habits).
   */
  function WeekEntryFor(hs: seq<Habit>, cs: Completions, date: Day): (e: WeekEntry)
    ensures e.date == date && e.dayName == DayName(date) && e.total == |hs|
    ensures e.completed == CountDone(hs, cs, date) <= e.total
    ensures e.percentage == Percent(e.completed, e.total) <= 100
    ensures e.total == 0 ==> e.percentage == 0
  {
    var completed := CountDone(hs, cs, date);
    WeekEntry(date, DayName(date), completed, |hs|, Percent(completed, |hs|))
  }

  /** The monthly figures for one date: the weekly ones without the day name. */
  function MonthEntryFor(hs: seq<Habit>, cs: Completions, date: Day): (e: MonthEntry)
    ensures e.date == date && e.total == |hs|
    ensures e.completed == CountDone(hs, cs, date) <= e.total
    ensures e.percentage == Percent(e.completed, e.total) <= 100
    ensures e.total == 0 ==> e.percentage == 0
  {
    var completed := CountDone(hs, cs, date);
    MonthEntry(date, completed, |hs|, Percent(completed, |hs|))
  }

  /** Each entry's count is the number of habits `habits.filter` keeps for that day. */
  lemma EntryCountIsFilter(hs: seq<Habit>, cs: Completions, date: Day)
    ensures WeekEntryFor(hs, cs, date).completed == |Seqs.Filter(DoneTest(cs, date), hs)|
    ensures MonthEntryFor(hs, cs, date).completed == WeekEntryFor(hs, cs, date).completed
  {
    CountDoneIsFilterLength(hs, cs, date);
  }

  /**
   * Over at least one habit, each weekly and monthly entry holds the share of
   * habits done that day as a percentage rounded half up.
   */
  lemma EntryPercentRounds(hs: seq<Habit>, cs: Completions, date: Day)
    requires hs != []
    ensures var e := WeekEntryFor(hs, cs, date);
      2 * e.total * e.percentage <= 200 * e.completed + e.total < 2 * e.total * (e.percentage + 1)
    ensures MonthEntryFor(hs, cs, date).percentage == WeekEntryFor(hs, cs, date).percentage
  {
    var e := WeekEntryFor(hs, cs, date);
    PercentBounds(e.completed, e.total);
  }

  /** What `calculateWeeklyProgress` returns: one entry per day of the trailing week. */
  function WeeklyProgress(hs: seq<Habit>, cs: Completions, today: Day): (r: seq<WeekEntry>)
    ensures |r| == 7 && r[6].date == today
    ensures forall k :: 0 <= k < 7 ==> r[k].date == today - 6 + k
    ensures forall k :: 0 <= k < 7 ==> r[k] == WeekEntryFor(hs, cs, today - 6 + k)
    ensures forall k :: 0 <= k < 7 ==> r[k].total == |hs| && r[k].completed <= r[k].total && r[k].percentage <= 100
  {
    var r := seq(7, k requires 0 <= k < 7 => WeekEntryFor(hs, cs, today - 6 + k));
    assert forall k :: 0 <= k < 7 ==> r[k] == WeekEntryFor(hs, cs, today - 6 + k);
    r
  }

  /** What `calculateMonthlyProgress` returns: one entry per day of the trailing thirty days. */
  function MonthlyProgress(hs: seq<Habit>, cs: Completions, today: Day): (r: seq<MonthEntry>)
    ensures |r| == 30 && r[29].date == today
    ensures forall k :: 0 <= k < 30 ==> r[k].date == today - 29 + k
    ensures forall k :: 0 <= k < 30 ==> r[k] == MonthEntryFor(hs, cs, today - 29 + k)
    ensures forall k :: 0 <= k < 30 ==> r[k].total == |hs| && r[k].completed <= r[k].total && r[k].percentage <= 100
  {
    var r := seq(30, k requires 0 <= k < 30 => MonthEntryFor(hs, cs, today - 29 + k));
    assert forall k :: 0 <= k < 30 ==> r[k] == MonthEntryFor(hs, cs, today - 29 + k);
    r
  }

  /** `calculateWeeklyProgress(habits, completions)`: maps each week date to its counted entry. */
  method CalculateWeeklyProgress(hs: seq<Habit>, cs: Completions, today: Day) returns (entries: seq<WeekEntry>)
    ensures entries == WeeklyProgress(hs, cs, today)
  {
    var dates := GetWeekDates(today);
    entries := [];
    for k := 0 to 7
      invariant |entries| == k
      invariant forall j :: 0 <= j < k ==> entries[j] == WeekEntryFor(hs, cs, dates[j])
    {
      var date := dates[k];
      var completed := CountDoneOn(hs, cs, date);
      var total := |hs|;
      entries := entries + [WeekEntry(date, DayName(date), completed, total, Percent(completed, total))];
    }
  }

  /** `calculateMonthlyProgress(habits, completions)`: maps each month date to its counted entry. */
  method CalculateMonthlyProgress(hs: seq<Habit>, cs: Completions, today: Day) returns (entries: seq<MonthEntry>)
    ensures entries == MonthlyProgress(hs, cs, today)
  {
    var dates := GetMonthDates(today);
    entries := [];
    for k := 0 to 30
      invariant |entries| == k
      invariant forall j :: 0 <= j < k ==> entries[j] == MonthEntryFor(hs, cs, dates[j])
    {
      var date := dates[k];
      var completed := CountDoneOn(hs, cs, date);
      var total := |hs|;
      entries := entries + [MonthEntry(date, completed, total, Percent(completed, total))];
    }
  }

  /** How many of `dates` the habit `id` is done on. */
  function DaysDone(cs: Completions, id: HabitId, dates: seq<Day>): (n: nat)
    ensures n <= |dates|
  {
    if dates == [] then 0
    else DaysDone(cs, id, dates[..|dates| - 1]) + (if DoneOn(cs, id, dates[|dates| - 1]) then 1 else 0)
  }

  /** The done cells of the habits-by-dates grid. */
  function CellsDone(hs: seq<Habit>, cs: Completions, dates: seq<Day>): (n: nat)
    ensures n <= |hs| * |dates|
  {
    if hs == [] then 0
    else CellsDone(hs[..|hs| - 1], cs, dates) + DaysDone(cs, hs[|hs| - 1].id, dates)
  }

  /** What `calculateOverallCompletion` returns: one ratio over the whole 30-day grid. */
  function OverallCompletion(hs: seq<Habit>, cs: Completions, today: Day): (r: nat)
    ensures hs == [] ==> r == 0
    ensures r <= 100
  {
    if hs == [] then 0
    else Percent(CellsDone(hs, cs, Window(today, 30)), |hs| * 30)
  }

  /** The ratio is the share of done cells among the `30 * |hs|` cells, as a percentage rounded half up. */
  lemma OverallCompletionRounds(hs: seq<Habit>, cs: Completions, today: Day)
    requires hs != []
    ensures var r, done := OverallCompletion(hs, cs, today), CellsDone(hs, cs, Window(today, 30));
      2 * (30 * |hs|) * r <= 200 * done + 30 * |hs| < 2 * (30 * |hs|) * (r + 1)
  {
    PercentBounds(CellsDone(hs, cs, Window(today, 30)), |hs| * 30);
  }

  /** `calculateOverallCompletion(habits, completions)`: the nested `forEach` over habits and dates. */
  method CalculateOverallCompletion(hs: seq<Habit>, cs: Completions, today: Day) returns (r: nat)
    ensures r == OverallCompletion(hs, cs, today)
  {
    if |hs| == 0 {
      return 0;
    }
    var last30Days := GetMonthDates(today);
    var totalPossible := |hs| * |last30Days|;
    var totalCompleted := 0;
    for i := 0 to |hs|
      invariant totalCompleted == CellsDone(hs[..i], cs, last30Days)
    {
      assert hs[..i + 1][..i] == hs[..i];
      var id := hs[i].id;
      for j := 0 to 30
        invariant totalCompleted == CellsDone(hs[..i], cs, last30Days) + DaysDone(cs, id, last30Days[..j])
      {
        assert last30Days[..j + 1][..j] == last30Days[..j];
        if DoneOn(cs, id, last30Days[j]) {
          totalCompleted := totalCompleted + 1;
        }
      }
      assert last30Days[..30] == last30Days;
    }
    assert hs[..|hs|] == hs;
    r := Percent(totalCompleted, totalPossible);
  }
}
