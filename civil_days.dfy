/**
 * The calendar arithmetic of JavaScript's local `Date` constructor, on day
 * numbers: day 0 is 1 January 1970 and months are numbered 0..11 as
 * `Date.prototype.getMonth` numbers them. Time zones are not modelled.
 */
module CivilDays {

  /** The Gregorian leap-year rule. */
  predicate IsLeapYear(year: int) {
    (year % 4 == 0 && year % 100 != 0) || year % 400 == 0
  }

  /** Month lengths as the Gregorian calendar states them (month 0 is January). */
  function MonthLength(year: int, month: int): (n: int)
    requires 0 <= month < 12
  {
    if month == 1 then (if IsLeapYear(year) then 29 else 28)
    else if month == 3 || month == 5 || month == 8 || month == 10 then 30
    else 31
  }

  /** Days from 1 March to the first of each month of a year that starts in March. */
  const MarchOffsets: seq<int> := [0, 31, 61, 92, 122, 153, 184, 214, 245, 275, 306, 337]

  /**
   * The day number of `day` in `month` of `year`. The year is counted from
   * March so that the leap day falls at its end; `day` may be 0 or exceed the
   * month, as `new Date(year, month, day)` allows.
   */
  function DayNumber(year: int, month: int, day: int): int
    requires 0 <= month < 12
  {
    var y := if month < 2 then year - 1 else year;
    var m := if month >= 2 then month - 2 else month + 10;
    DaysBeforeMarch(y) + MarchOffsets[m] + day - 1 - 719468
  }

  /** Days from 1 March of year 0 to 1 March of `year`, proleptic Gregorian. */
  function DaysBeforeMarch(year: int): int {
    365 * year + year / 4 - year / 100 + year / 400
  }

  /** The March-based year that ends in February of `year` has 366 days exactly when `year` is a leap year. */
  lemma MarchYearLength(year: int)
    ensures DaysBeforeMarch(year) - DaysBeforeMarch(year - 1) == if IsLeapYear(year) then 366 else 365
  {
    LeapStep(year);
  }

  /** `new Date(year, month, day)`: a month outside 0..11 carries into the year. */
  function DateFromParts(year: int, month: int, day: int): (n: int)
    ensures 0 <= month < 12 ==> n == DayNumber(year, month, day)
    ensures month == 12 ==> n == DayNumber(year + 1, 0, day)
    ensures month == -1 ==> n == DayNumber(year - 1, 11, day)
  {
    assert 0 <= month < 12 ==> month / 12 == 0 && month % 12 == month by {
      if 0 <= month < 12 { DivUnique(month, 12, 0, month); }
    }
    assert month == 12 ==> month / 12 == 1 && month % 12 == 0 by {
      if month == 12 { DivUnique(12, 12, 1, 0); }
    }
    assert month == -1 ==> month / 12 == -1 && month % 12 == 11 by {
      if month == -1 { DivUnique(-1, 12, -1, 11); }
    }
    DayNumber(year + month / 12, month % 12, day)
  }

  /** Twelve more months is one more year, whatever the month argument. */
  lemma DateFromPartsCarries(year: int, month: int, day: int)
    ensures DateFromParts(year, month + 12, day) == DateFromParts(year + 1, month, day)
  {
    DivUnique(month + 12, 12, month / 12 + 1, month % 12);
  }

  /** `Date.prototype.getDay`: 0 for Sunday up to 6 for Saturday (1 January 1970 was a Thursday). */
  function Weekday(dayNumber: int): (w: int)
    ensures 0 <= w < 7
  {
    (dayNumber + 4) % 7
  }

  /**
   * `new Date(year, month + 1, 0).getDate()`: day 0 of the next month is the
   * last day of this one, and its date is its distance from the first plus one.
   */
  function DaysInMonth(year: int, month: int): int
    requires 0 <= month < 12
  {
    DateFromParts(year, month + 1, 0) - DateFromParts(year, month, 1) + 1
  }

  /** The "day 0 of next month" construction yields the Gregorian month length, so 28..31. */
  lemma DaysInMonthIsMonthLength(year: int, month: int)
    requires 0 <= month < 12
    ensures DaysInMonth(year, month) == MonthLength(year, month)
    ensures 28 <= DaysInMonth(year, month) <= 31
    ensures month == 1 ==> (DaysInMonth(year, month) == 29 <==> IsLeapYear(year))
  {
    if month == 11 {
      DecemberLength(year);
    } else if month == 1 {
      FebruaryLength(year);
    } else if month == 0 {
      JanuaryLength(year);
    } else {
      MidYearLength(year, month);
    }
  }

  lemma DecemberLength(year: int)
    ensures DaysInMonth(year, 11) == 31
  {
    assert DayNumber(year + 1, 0, 0) == DaysBeforeMarch(year) + 306 - 1 - 719468;
    assert DayNumber(year, 11, 1) == DaysBeforeMarch(year) + 275 - 719468;
  }

  lemma FebruaryLength(year: int)
    ensures DaysInMonth(year, 1) == if IsLeapYear(year) then 29 else 28
  {
    assert DayNumber(year, 2, 0) == DaysBeforeMarch(year) - 1 - 719468;
    assert DayNumber(year, 1, 1) == DaysBeforeMarch(year - 1) + 337 - 719468;
    MarchYearLength(year);
  }

  lemma JanuaryLength(year: int)
    ensures DaysInMonth(year, 0) == 31
  {
    assert DayNumber(year, 1, 0) == DaysBeforeMarch(year - 1) + 337 - 1 - 719468;
    assert DayNumber(year, 0, 1) == DaysBeforeMarch(year - 1) + 306 - 719468;
  }

  lemma MidYearLength(year: int, month: int)
    requires 2 <= month < 11
    ensures DaysInMonth(year, month) == MarchOffsets[month - 1] - MarchOffsets[month - 2]
  {
    assert DayNumber(year, month + 1, 0) == DaysBeforeMarch(year) + MarchOffsets[month - 1] - 1 - 719468;
    assert DayNumber(year, month, 1) == DaysBeforeMarch(year) + MarchOffsets[month - 2] - 719468;
  }

  /** `new Date(year, month, day + 1)` is the day after `new Date(year, month, day)`, whatever the month. */
  lemma NextDay(year: int, month: int, day: int)
    ensures DateFromParts(year, month, day + 1) == DateFromParts(year, month, day) + 1
  {
  }

  /** Between the March-years ending in February of `year - 1`'s and `year`'s, one more leap day exactly in leap years. */
  lemma LeapStep(year: int)
    ensures (year / 4 - (year - 1) / 4) - (year / 100 - (year - 1) / 100) + (year / 400 - (year - 1) / 400)
            == if IsLeapYear(year) then 1 else 0
  {
    DivStep(year, 4);
    DivStep(year, 100);
    DivStep(year, 400);
    if year % 400 == 0 {
      assert year == 100 * (4 * (year / 400));
      assert year == 4 * (100 * (year / 400));
      ModOfMultiple(4 * (year / 400), 100);
      ModOfMultiple(100 * (year / 400), 4);
    } else if year % 100 == 0 {
      assert year == 4 * (25 * (year / 100));
      ModOfMultiple(25 * (year / 100), 4);
    }
  }

  /** Going from `y - 1` to `y` raises `y / n` by one exactly when `n` divides `y`. */
  lemma DivStep(y: int, n: int)
    requires n > 0
    ensures y / n - (y - 1) / n == if y % n == 0 then 1 else 0
  {
    var q, r := y / n, y % n;
    if r == 0 {
      DivUnique(y - 1, n, q - 1, n - 1);
    } else {
      DivUnique(y - 1, n, q, r - 1);
    }
  }

  /** Division is determined by any quotient and in-range remainder. */
  lemma DivUnique(x: int, n: int, q: int, r: int)
    requires n > 0 && 0 <= r < n && x == n * q + r
    ensures x / n == q && x % n == r
  {
    var q', r' := x / n, x % n;
    if q' > q {
      assert n * q' >= n * (q + 1) by { MulLe(n, q + 1, q'); }
    } else if q' < q {
      assert n * q >= n * (q' + 1) by { MulLe(n, q' + 1, q); }
    }
  }

  lemma MulLe(n: int, a: int, b: int)
    requires n > 0 && a <= b
    ensures n * a <= n * b
  {
  }

  lemma ModOfMultiple(k: int, n: int)
    requires n > 0
    ensures (n * k) % n == 0
  {
    DivUnique(n * k, n, k, 0);
  }
}
