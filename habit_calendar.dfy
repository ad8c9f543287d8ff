/**
 * The month calendar: the shape of the displayed month, the completion
 * figure and colour band of each day, month navigation, the grid of cells
 * and the streak statistics under it. The displayed month is `year` with
 * `month` in 0..11; the clock's local date is passed in as `now`.
 */
module HabitCalendar {
  import opened HabitRecord
  import opened Rounding
  import CivilDays
  import Progress
  import StreakCounter

  /** A local calendar date as `getFullYear`, `getMonth` (0..11) and `getDate` give it. */
  datatype CivilDate = CivilDate(year: int, month: int, date: int)

  datatype MonthInfo = MonthInfo(daysInMonth: int, startingDayOfWeek: int, year: int, month: int)

  /** `getDaysInMonth`: the length of the month and the weekday of its first day. */
  function GetDaysInMonth(year: int, month: int): (info: MonthInfo)
    requires 0 <= month < 12
    ensures info.year == year && info.month == month
    ensures info.daysInMonth == CivilDays.MonthLength(year, month)
    ensures 28 <= info.daysInMonth <= 31
    ensures month == 1 ==> (info.daysInMonth == 29 <==> CivilDays.IsLeapYear(year))
    ensures 0 <= info.startingDayOfWeek < 7
    ensures info.startingDayOfWeek == CivilDays.Weekday(CivilDays.DateFromParts(year, month, 1))
  {
    CivilDays.DaysInMonthIsMonthLength(year, month);
    MonthInfo(
      CivilDays.DaysInMonth(year, month),
      CivilDays.Weekday(CivilDays.DateFromParts(year, month, 1)),
      year, month)
  }

  /** The completion figure of one day; it agrees with that day's entry in the weekly series. */
  function CompletionForDay(hs: seq<Habit>, cs: Completions, date: Day): (pct: nat)
    ensures hs == [] ==> pct == 0
    ensures hs != [] ==> pct == Percent(Progress.CountDone(hs, cs, date), |hs|)
    ensures pct <= 100
  {
    if |hs| == 0 then 0 else Percent(Progress.CountDone(hs, cs, date), |hs|)
  }

  /** The calendar's figure for a day is that day's percentage in the weekly series. */
  lemma CompletionForDayIsWeekEntry(hs: seq<Habit>, cs: Completions, date: Day)
    ensures CompletionForDay(hs, cs, date) == Progress.WeekEntryFor(hs, cs, date).percentage
  {
  }

  /** `getCompletionForDay`: 0 with no habits, else the rounded share of habits done that day. */
  method GetCompletionForDay(hs: seq<Habit>, cs: Completions, date: Day) returns (pct: nat)
    ensures pct == CompletionForDay(hs, cs, date)
  {
    if |hs| == 0 {
      return 0;
    }
    var completed := Progress.CountDoneOn(hs, cs, date);
    pct := Percent(completed, |hs|);
  }

  /** The shades a day cell is drawn in: the five bands of the legend, and the shade of days to come. */
  datatype Shade = NoneDone | Low | Medium | High | Full | Upcoming

  /** The class names each shade is drawn with. */
  function ShadeClass(s: Shade): string {
    match s
    case NoneDone => "bg-gray-100 text-gray-400"
    case Low => "bg-red-100 text-red-700"
    case Medium => "bg-yellow-100 text-yellow-700"
    case High => "bg-emerald-100 text-emerald-700"
    case Full => "bg-emerald-500 text-white font-bold"
    case Upcoming => "bg-gray-50 text-gray-300 cursor-not-allowed"
  }

  /** Reads the shade back from the characters its class names differ in. */
  function ShadeNamed(c: string): Shade
    requires |c| > 11
  {
    if c[3] == 'r' then Low
    else if c[3] == 'y' then Medium
    else if c[3] == 'e' then (if c[11] == '1' then High else Full)
    else if c[8] == '1' then NoneDone
    else Upcoming
  }

  lemma ShadeNamedInverts(s: Shade)
    ensures |ShadeClass(s)| > 11 && ShadeNamed(ShadeClass(s)) == s
  {
    var c := ShadeClass(s);
    match s
    case NoneDone => assert c[3] == 'g' && c[8] == '1';
    case Low => assert c[3] == 'r';
    case Medium => assert c[3] == 'y';
    case High => assert c[3] == 'e' && c[11] == '1';
    case Full => assert c[3] == 'e' && c[11] == '5';
    case Upcoming => assert c[3] == 'g' && c[8] == '5';
  }

  /** No two shades share their class names, so the page tells every shade apart. */
  lemma ShadeClassesDistinct(s: Shade, t: Shade)
    ensures ShadeClass(s) == ShadeClass(t) <==> s == t
  {
    ShadeNamedInverts(s);
    ShadeNamedInverts(t);
  }

  /** The legend's shades, lowest band first. */
  const BandShades: seq<Shade> := [NoneDone, Low, Medium, High, Full]

  /** `getColorClass`: the shade of the legend band the figure falls in. */
  function ColorClass(percentage: int): (s: Shade)
    ensures s == BandShades[Band(percentage)] && s != Upcoming
  {
    if percentage == 0 then NoneDone
    else if percentage < 30 then Low
    else if percentage < 60 then Medium
    else if percentage < 100 then High
    else Full
  }

  /** The legend's bands, by range: 0; below 30; 30..59; 60..99; 100 and above. */
  function Band(percentage: int): (b: nat)
    ensures b < 5
    ensures b == 0 <==> percentage == 0
    ensures b == 1 <==> percentage != 0 && percentage < 30
    ensures b == 2 <==> 30 <= percentage < 60
    ensures b == 3 <==> 60 <= percentage < 100
    ensures b == 4 <==> 100 <= percentage
  {
    if percentage == 0 then 0
    else if percentage < 30 then 1
    else if percentage < 60 then 2
    else if percentage < 100 then 3
    else 4
  }

  /**
   * Every percentage gets the shade of exactly one band, two percentages
   * share a shade exactly when they share a band, and on non-negative
   * figures the band never goes down as the figure goes up.
   */
  lemma ColorClassIsBand(p: int, q: int)
    ensures ColorClass(p) == BandShades[Band(p)] && ColorClass(p) != Upcoming
    ensures ColorClass(p) == ColorClass(q) <==> Band(p) == Band(q)
    ensures 0 <= p <= q ==> Band(p) <= Band(q)
  {
  }

  datatype YearMonth = YearMonth(year: int, month: int)

  /** `new Date(year, month - 1, 1)`: the month before, wrapping into December of the previous year. */
  function PreviousMonth(ym: YearMonth): (r: YearMonth)
    requires 0 <= ym.month < 12
    ensures 0 <= r.month < 12
    ensures ym.month == 0 ==> r == YearMonth(ym.year - 1, 11)
    ensures ym.month > 0 ==> r == YearMonth(ym.year, ym.month - 1)
  {
    assert (ym.month - 1) / 12 == (if ym.month == 0 then -1 else 0)
        && (ym.month - 1) % 12 == (if ym.month == 0 then 11 else ym.month - 1) by {
      if ym.month == 0 {
        CivilDays.DivUnique(ym.month - 1, 12, -1, 11);
      } else {
        CivilDays.DivUnique(ym.month - 1, 12, 0, ym.month - 1);
      }
    }
    YearMonth(ym.year + (ym.month - 1) / 12, (ym.month - 1) % 12)
  }

  /** `new Date(year, month + 1, 1)`: the month after, wrapping into January of the next year. */
  function NextMonth(ym: YearMonth): (r: YearMonth)
    requires 0 <= ym.month < 12
    ensures 0 <= r.month < 12
    ensures ym.month == 11 ==> r == YearMonth(ym.year + 1, 0)
    ensures ym.month < 11 ==> r == YearMonth(ym.year, ym.month + 1)
  {
    assert (ym.month + 1) / 12 == (if ym.month == 11 then 1 else 0)
        && (ym.month + 1) % 12 == (if ym.month == 11 then 0 else ym.month + 1) by {
      if ym.month == 11 {
        CivilDays.DivUnique(ym.month + 1, 12, 1, 0);
      } else {
        CivilDays.DivUnique(ym.month + 1, 12, 0, ym.month + 1);
      }
    }
    YearMonth(ym.year + (ym.month + 1) / 12, (ym.month + 1) % 12)
  }

  /** The two navigation buttons undo each other. */
  lemma NavigationInverse(ym: YearMonth)
    requires 0 <= ym.month < 12
    ensures NextMonth(PreviousMonth(ym)) == ym && PreviousMonth(NextMonth(ym)) == ym
  {
  }

  /** Navigation moves by exactly one month: the first of the next month lies the current month's length later. */
  lemma NextMonthStartsAfterThisOne(ym: YearMonth)
    requires 0 <= ym.month < 12
    ensures var n := NextMonth(ym);
      CivilDays.DateFromParts(n.year, n.month, 1) - CivilDays.DateFromParts(ym.year, ym.month, 1)
        == CivilDays.MonthLength(ym.year, ym.month)
  {
    CivilDays.DaysInMonthIsMonthLength(ym.year, ym.month);
    CivilDays.NextDay(ym.year, ym.month + 1, 0);
    FirstOfNextMonth(ym);
  }

  /** The first of the next month is day 1 of month `month + 1`, which `Date` carries into the next year. */
  lemma FirstOfNextMonth(ym: YearMonth)
    requires 0 <= ym.month < 12
    ensures var n := NextMonth(ym);
      CivilDays.DateFromParts(n.year, n.month, 1) == CivilDays.DateFromParts(ym.year, ym.month + 1, 1)
  {
  }

  /** `isToday(day)`: the clock's date is that day of the displayed month. */
  function IsToday(year: int, month: int, day: int, now: CivilDate): (b: bool)
    ensures b ==> CivilDays.DateFromParts(year, month, day) == CivilDays.DateFromParts(now.year, now.month, now.date)
  {
    now.date == day && now.month == month && now.year == year
  }

  /** `isFuture(day)`: that day starts after today's midnight, so it is never today. */
  function IsFuture(year: int, month: int, day: int, now: CivilDate): (b: bool)
    ensures b ==> !IsToday(year, month, day, now)
  {
    CivilDays.DateFromParts(year, month, day) > CivilDays.DateFromParts(now.year, now.month, now.date)
  }

  /** Every later day of the displayed month is still to come once one day is. */
  lemma {:induction false} FutureStaysFuture(year: int, month: int, day: int, later: int, now: CivilDate)
    requires day <= later
    ensures IsFuture(year, month, day, now) ==> IsFuture(year, month, later, now)
    decreases later - day
  {
    if day < later {
      CivilDays.NextDay(year, month, day);
      FutureStaysFuture(year, month, day + 1, later, now);
    }
  }

  /** A grid cell: padding before the first day, or a day with its figure and shading. */
  datatype Cell =
    | Blank
    | DayCell(day: int, completion: nat, shade: Shade, isToday: bool, showPercent: bool)

  /** The cell of `day`: its figure, its shade (greyed out while still to come) and its flags. */
  function DayCellFor(hs: seq<Habit>, cs: Completions, year: int, month: int, day: int, now: CivilDate): (c: Cell)
    ensures c.DayCell? && c.day == day
  {
    var completion := CompletionForDay(hs, cs, CivilDays.DateFromParts(year, month, day));
    var future := IsFuture(year, month, day, now);
    DayCell(day, completion, if future then Upcoming else ColorClass(completion),
            IsToday(year, month, day, now), !future && completion > 0)
  }

  /**
   * A day's cell carries the day and its figure; today is never greyed out
   * but drawn in its band's shade; a figure is printed exactly on a day that
   * has come and has a non-zero figure.
   */
  lemma DayCellShows(hs: seq<Habit>, cs: Completions, year: int, month: int, day: int, now: CivilDate)
    ensures var c := DayCellFor(hs, cs, year, month, day, now);
      && c.DayCell? && c.day == day && c.completion <= 100
      && c.completion == Progress.WeekEntryFor(hs, cs, CivilDays.DateFromParts(year, month, day)).percentage
      && (c.isToday ==> c.shade == ColorClass(c.completion) && c.shade != Upcoming)
      && (c.shade == Upcoming <==> IsFuture(year, month, day, now))
      && (c.showPercent <==> !IsFuture(year, month, day, now) && c.completion > 0)
  {
    CompletionForDayIsWeekEntry(hs, cs, CivilDays.DateFromParts(year, month, day));
    ColorClassIsBand(CompletionForDay(hs, cs, CivilDays.DateFromParts(year, month, day)), 0);
  }

  /** The body of the day loop: the day's figure, its shading and its flags. */
  method RenderDay(hs: seq<Habit>, cs: Completions, year: int, month: int, day: int, now: CivilDate) returns (cell: Cell)
    ensures cell == DayCellFor(hs, cs, year, month, day, now)
  {
    var completion := GetCompletionForDay(hs, cs, CivilDays.DateFromParts(year, month, day));
    var colorClass := ColorClass(completion);
    var today := IsToday(year, month, day, now);
    var future := IsFuture(year, month, day, now);
    cell := DayCell(day, completion, if future then Upcoming else colorClass, today, !future && completion > 0);
  }

  /** The cells `cellOf(1), ..., cellOf(n)` in order. */
  function DayCells(cellOf: int -> Cell, n: nat): seq<Cell> {
    if n == 0 then [] else DayCells(cellOf, n - 1) + [cellOf(n)]
  }

  /** The cell at index `k` is the cell of day `k + 1`. */
  lemma {:induction false} DayCellsAt(cellOf: int -> Cell, n: nat)
    ensures |DayCells(cellOf, n)| == n
    ensures forall k :: 0 <= k < n ==> DayCells(cellOf, n)[k] == cellOf(k + 1)
  {
    if n > 0 {
      DayCellsAt(cellOf, n - 1);
    }
  }

  /** Index `i` past the blanks holds the cell of day `i - |blanks| + 1`. */
  lemma GridAt(blanks: seq<Cell>, cellOf: int -> Cell, n: nat, cells: seq<Cell>)
    requires cells == blanks + DayCells(cellOf, n)
    ensures |cells| == |blanks| + n && cells[..|blanks|] == blanks
    ensures forall i :: |blanks| <= i < |cells| ==> cells[i] == cellOf(i - |blanks| + 1)
  {
    DayCellsAt(cellOf, n);
    assert forall i :: |blanks| <= i < |cells| ==> cells[i] == DayCells(cellOf, n)[i - |blanks|];
  }

  /** The grid: one blank per weekday before the first, then the days 1..daysInMonth in order. */
  method BuildGrid(hs: seq<Habit>, cs: Completions, year: int, month: int, now: CivilDate) returns (cells: seq<Cell>)
    requires 0 <= month < 12
    ensures var info := GetDaysInMonth(year, month);
      && |cells| == info.startingDayOfWeek + info.daysInMonth
      && (forall i :: 0 <= i < info.startingDayOfWeek ==> cells[i] == Blank)
      && (forall i :: info.startingDayOfWeek <= i < |cells| ==>
            cells[i] == DayCellFor(hs, cs, year, month, i - info.startingDayOfWeek + 1, now))
      && (forall i :: info.startingDayOfWeek <= i < |cells| ==>
            cells[i].DayCell? && cells[i].day == i - info.startingDayOfWeek + 1)
  {
    var info := GetDaysInMonth(year, month);
    var blanks := PushBlanks(info.startingDayOfWeek);
    var cellOf := d => DayCellFor(hs, cs, year, month, d, now);
    cells := PushDays(blanks, hs, cs, year, month, info.daysInMonth, now, cellOf);
    GridAt(blanks, cellOf, info.daysInMonth, cells);
    assert forall i :: 0 <= i < |blanks| ==> cells[i] == cells[..|blanks|][i];
  }

  /** The first loop of the grid: one blank per weekday before the first of the month. */
  method PushBlanks(n: nat) returns (blanks: seq<Cell>)
    ensures |blanks| == n && forall k :: 0 <= k < n ==> blanks[k] == Blank
  {
    blanks := [];
    for i := 0 to n
      invariant |blanks| == i
      invariant forall k :: 0 <= k < i ==> blanks[k] == Blank
    {
      blanks := blanks + [Blank];
    }
  }

  /**
   * The second loop of the grid: pushes the cells of days 1..daysInMonth
   * after `cells0`; `cellOf` names the cell of each day.
   */
  method PushDays(cells0: seq<Cell>, hs: seq<Habit>, cs: Completions, year: int, month: int, daysInMonth: nat, now: CivilDate,
                  ghost cellOf: int -> Cell)
    returns (cells: seq<Cell>)
    requires forall d :: cellOf(d) == DayCellFor(hs, cs, year, month, d, now)
    ensures cells == cells0 + DayCells(cellOf, daysInMonth)
  {
    cells := cells0;
    for day := 1 to daysInMonth + 1
      invariant cells == cells0 + DayCells(cellOf, day - 1)
    {
      var cell := RenderDay(hs, cs, year, month, day, now);
      assert cell == cellOf(day);
      assert DayCells(cellOf, day) == DayCells(cellOf, day - 1) + [cell];
      cells := cells + [cell];
    }
  }

  /** `habits.reduce((sum, h) => sum + h.streak, 0)`: the sum of the streaks. */
  function TotalStreaks(hs: seq<Habit>): (t: int)
    ensures hs == [] ==> t == 0
    ensures |hs| == 1 ==> t == hs[0].streak
    ensures (forall i :: 0 <= i < |hs| ==> hs[i].streak >= 0) ==> t >= 0
  {
    if hs == [] then 0
    else
      var front := hs[..|hs| - 1];
      assert forall i :: 0 <= i < |front| ==> front[i] == hs[i];
      TotalStreaks(front) + hs[|hs| - 1].streak
  }

  /** The sum over two lists joined is the sum of their sums. */
  lemma {:induction false} TotalStreaksAppend(a: seq<Habit>, b: seq<Habit>)
    ensures TotalStreaks(a + b) == TotalStreaks(a) + TotalStreaks(b)
    decreases |b|
  {
    if b == [] {
      assert a + b == a;
    } else {
      var front := b[..|b| - 1];
      assert (a + b)[..|a + b| - 1] == a + front;
      assert (a + b)[|a + b| - 1] == b[|b| - 1];
      TotalStreaksAppend(a, front);
    }
  }

  /** The largest element of a non-empty list (`Math.max(...xs)`). */
  function MaxOf(xs: seq<int>): (m: int)
    requires xs != []
    ensures m in xs
    ensures forall i :: 0 <= i < |xs| ==> xs[i] <= m
  {
    if |xs| == 1 then xs[0]
    else
      var rest := MaxOf(xs[1..]);
      assert forall i :: 1 <= i < |xs| ==> xs[i] == xs[1..][i - 1];
      if xs[0] > rest then xs[0] else rest
  }

  /** `Math.max(...habits.map(h => h.streak), 0)`: at least 0 and every streak, and one of them unless 0. */
  function LongestStreak(hs: seq<Habit>): (r: int)
    ensures r >= 0
    ensures forall i :: 0 <= i < |hs| ==> hs[i].streak <= r
    ensures r == 0 || exists i :: 0 <= i < |hs| && hs[i].streak == r
  {
    var xs := seq(|hs|, i requires 0 <= i < |hs| => hs[i].streak) + [0];
    var m := MaxOf(xs);
    assert xs[|hs|] == 0;
    assert forall i :: 0 <= i < |hs| ==> xs[i] == hs[i].streak;
    m
  }

  /** The calendar's "Longest Streak" is the streak panel's figure, computed another way. */
  lemma LongestStreakAgrees(hs: seq<Habit>)
    ensures LongestStreak(hs) == StreakCounter.LongestStreak(hs)
  {
    var xs := seq(|hs|, i requires 0 <= i < |hs| => hs[i].streak) + [0];
    var a, b := LongestStreak(hs), StreakCounter.LongestStreak(hs);
    assert a >= b by {
      if b != 0 {
        var i :| 0 <= i < |hs| && hs[i].streak == b;
        assert xs[i] == b;
      }
      assert xs[|hs|] == 0;
    }
    assert a <= b by {
      var k :| 0 <= k < |xs| && xs[k] == a;
      if k < |hs| { assert hs[k].streak == a; }
    }
  }

  /** With no negative streaks the sum is at least the longest one. */
  lemma {:induction false} LongestAtMostTotal(hs: seq<Habit>)
    requires forall i :: 0 <= i < |hs| ==> hs[i].streak >= 0
    ensures 0 <= StreakCounter.LongestStreak(hs) <= TotalStreaks(hs)
  {
    var longest := StreakCounter.LongestStreak(hs);
    if longest != 0 {
      var k :| 0 <= k < |hs| && hs[k].streak == longest;
      TotalAtLeastEach(hs, k);
    }
    TotalAtLeastEach(hs, -1);
  }

  lemma {:induction false} TotalAtLeastEach(hs: seq<Habit>, k: int)
    requires forall i :: 0 <= i < |hs| ==> hs[i].streak >= 0
    ensures TotalStreaks(hs) >= 0
    ensures 0 <= k < |hs| ==> TotalStreaks(hs) >= hs[k].streak
    decreases |hs|
  {
    if hs != [] {
      var front := hs[..|hs| - 1];
      assert forall i :: 0 <= i < |front| ==> front[i] == hs[i];
      TotalAtLeastEach(front, k);
    }
  }
}
