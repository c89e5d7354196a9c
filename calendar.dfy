/**
 * The calendar resolver: the proleptic Gregorian calendar of Python's `datetime.date`
 * (years 1 to 9999, `weekday()` numbering Monday as 0) and the list of duty Saturdays
 * of a month.
 */
module Calendar {
  import opened Common

  /** A calendar date. The ISO strings (`YYYY-MM-DD`) the scheduler keys on are in
      one-to-one correspondence with these values. */
  datatype Date = Date(year: int, month: int, day: int)

  /** Why building the month's dates can fail, as `datetime.date` raises. */
  datatype CalendarError =
    | InvalidDate   // `date(year, month, 1)` rejects the year or the month
    | Overflow      // stepping past 9999-12-31

  const MinYear := 1
  const MaxYear := 9999
  /** `date.weekday()` of a Saturday. */
  const Saturday := 5

  predicate IsLeap(y: int) {
    y % 4 == 0 && (y % 100 != 0 || y % 400 == 0)
  }

  predicate ValidMonth(year: int, month: int) {
    MinYear <= year <= MaxYear && 1 <= month <= 12
  }

  function DaysInMonth(year: int, month: int): (n: int)
    requires 1 <= month <= 12
    ensures 28 <= n <= 31
    ensures n == 29 <==> month == 2 && IsLeap(year)
  {
    if month == 2 then (if IsLeap(year) then 29 else 28)
    else if month == 4 || month == 6 || month == 9 || month == 11 then 30
    else 31
  }

  predicate ValidDate(d: Date) {
    ValidMonth(d.year, d.month) && 1 <= d.day <= DaysInMonth(d.year, d.month)
  }

  /** Chronological order of dates. */
  predicate DateLess(a: Date, b: Date) {
    a.year < b.year || (a.year == b.year && (a.month < b.month || (a.month == b.month && a.day < b.day)))
  }

  /** Days in the years before `year`: 365 per year plus one per leap year. */
  function DaysBeforeYear(year: int): int
    requires year >= 1
  {
    if year == 1 then 0 else DaysBeforeYear(year - 1) + (if IsLeap(year - 1) then 366 else 365)
  }

  /** Days in the months of `year` before `month`. */
  function DaysBeforeMonth(year: int, month: int): int
    requires 1 <= month <= 12
  {
    var before :=
      if month == 1 then 0 else if month == 2 then 31 else if month == 3 then 59
      else if month == 4 then 90 else if month == 5 then 120 else if month == 6 then 151
      else if month == 7 then 181 else if month == 8 then 212 else if month == 9 then 243
      else if month == 10 then 273 else if month == 11 then 304 else 334;
    before + (if month > 2 && IsLeap(year) then 1 else 0)
  }

  /** `date.toordinal()`: 0001-01-01 is day 1. */
  function Ordinal(d: Date): int
    requires ValidDate(d)
  {
    DaysBeforeYear(d.year) + DaysBeforeMonth(d.year, d.month) + d.day
  }

  /** `date.weekday()`: Monday is 0 and Sunday is 6; 0001-01-01 was a Monday. */
  function Weekday(d: Date): (w: int)
    requires ValidDate(d)
    ensures 0 <= w < 7
  {
    (Ordinal(d) + 6) % 7
  }

  /** The weekday numbering is anchored on the calendar: 0001-01-01 is a Monday (0), and
      each following day is the next weekday, Sunday (6) wrapping round to Monday. */
  lemma WeekdayAnchor(d: Date)
    ensures Weekday(Date(MinYear, 1, 1)) == 0
    ensures ValidDate(d) && NextDay(d).Some? ==> Weekday(NextDay(d).value) == (Weekday(d) + 1) % 7
  {
    assert DaysBeforeYear(MinYear) == 0;
    if ValidDate(d) && NextDay(d).Some? {
      var o := Ordinal(d);
      assert Ordinal(NextDay(d).value) == o + 1;
      WeekdayStep(o);
    }
  }

  /** Adding one to a day count moves its weekday on by one, modulo 7. */
  lemma WeekdayStep(o: int)
    ensures (o + 1 + 6) % 7 == ((o + 6) % 7 + 1) % 7
  {
    var q, w := (o + 6) / 7, (o + 6) % 7;
    assert o + 7 == 7 * q + (w + 1);
    if w == 6 {
      assert o + 7 == 7 * (q + 1);
    }
  }

  /** `d + timedelta(days=1)`, which raises past the last representable date. */
  function NextDay(d: Date): (r: Option<Date>)
    requires ValidDate(d)
    ensures r.None? <==> d == Date(MaxYear, 12, 31)
    ensures r.Some? ==> ValidDate(r.value) && Ordinal(r.value) == Ordinal(d) + 1
    ensures r.Some? ==> DateLess(d, r.value)
  {
    if d.day < DaysInMonth(d.year, d.month) then Some(Date(d.year, d.month, d.day + 1))
    else if d.month < 12 then Some(Date(d.year, d.month + 1, 1))
    else if d.year < MaxYear then Some(Date(d.year + 1, 1, 1))
    else None
  }

  /** A duty date: a Saturday that is not a public holiday. The holiday table is the
      parameter `isHoliday`. */
  predicate IsDutyDate(d: Date, isHoliday: Date -> bool)
    requires ValidDate(d)
  {
    Weekday(d) == Saturday && !isHoliday(d)
  }

  /** The duty dates of the month from day `day` on, in the order the walk meets them. */
  function DutyDatesFrom(year: int, month: int, day: int, isHoliday: Date -> bool): seq<Date>
    requires ValidMonth(year, month) && 1 <= day <= DaysInMonth(year, month) + 1
    decreases DaysInMonth(year, month) + 1 - day
  {
    if day > DaysInMonth(year, month) then []
    else
      var d := Date(year, month, day);
      var rest := DutyDatesFrom(year, month, day + 1, isHoliday);
      if IsDutyDate(d, isHoliday) then [d] + rest else rest
  }

  /** Every date of `r` is a duty date of the month on or after day `day`. */
  predicate InMonthFrom(r: seq<Date>, year: int, month: int, day: int, isHoliday: Date -> bool) {
    forall i :: 0 <= i < |r| ==>
      ValidDate(r[i]) && r[i].year == year && r[i].month == month && day <= r[i].day
      && IsDutyDate(r[i], isHoliday)
  }

  /** Strictly ascending in calendar order. */
  predicate Ascending(r: seq<Date>) {
    forall i, j :: 0 <= i < j < |r| ==> DateLess(r[i], r[j])
  }

  /** What the walk from day `day` keeps: exactly the duty dates of the month from that
      day on, strictly ascending. */
  lemma {:induction false} DutyDatesFromExact(year: int, month: int, day: int, isHoliday: Date -> bool)
    requires ValidMonth(year, month) && 1 <= day <= DaysInMonth(year, month) + 1
    decreases DaysInMonth(year, month) + 1 - day
    ensures InMonthFrom(DutyDatesFrom(year, month, day, isHoliday), year, month, day, isHoliday)
    ensures Ascending(DutyDatesFrom(year, month, day, isHoliday))
    ensures forall k :: day <= k <= DaysInMonth(year, month) ==>
      (IsDutyDate(Date(year, month, k), isHoliday) ==> Date(year, month, k) in DutyDatesFrom(year, month, day, isHoliday))
  {
    if day <= DaysInMonth(year, month) {
      DutyDatesFromExact(year, month, day + 1, isHoliday);
      var d := Date(year, month, day);
      var rest := DutyDatesFrom(year, month, day + 1, isHoliday);
      var r := DutyDatesFrom(year, month, day, isHoliday);
      if IsDutyDate(d, isHoliday) {
        assert r == [d] + rest;
        forall i | 0 < i < |r| ensures r[i] == rest[i - 1] && DateLess(d, r[i]) {
          assert rest[i - 1].year == year && rest[i - 1].month == month && day + 1 <= rest[i - 1].day;
        }
      } else {
        assert r == rest;
      }
    }
  }

  /** `get_target_saturdays(year, month)` as a value: the month's duty dates, or the
      error that `datetime.date` raises. */
  function TargetSaturdays(year: int, month: int, isHoliday: Date -> bool): (r: Result<seq<Date>, CalendarError>)
    ensures r == Err(InvalidDate) <==> !ValidMonth(year, month)
    ensures r == Err(Overflow) <==> year == MaxYear && month == 12
  {
    if !ValidMonth(year, month) then Err(InvalidDate)
    else if year == MaxYear && month == 12 then Err(Overflow)
    else Ok(DutyDatesFrom(year, month, 1, isHoliday))
  }

  /** The successful result is exactly the month's non-holiday Saturdays, ascending. */
  lemma TargetSaturdaysExact(year: int, month: int, isHoliday: Date -> bool, d: Date)
    requires TargetSaturdays(year, month, isHoliday).Ok?
    ensures var r := TargetSaturdays(year, month, isHoliday).value;
      (d in r <==> ValidDate(d) && d.year == year && d.month == month && IsDutyDate(d, isHoliday))
      && (forall i, j :: 0 <= i < j < |r| ==> DateLess(r[i], r[j]))
  {
    DutyDatesFromExact(year, month, 1, isHoliday);
    var r := DutyDatesFrom(year, month, 1, isHoliday);
    assert TargetSaturdays(year, month, isHoliday).value == r;
    if ValidDate(d) && d.year == year && d.month == month && IsDutyDate(d, isHoliday) {
      assert d == Date(year, month, d.day);
    }
  }

  /** One step of the walk: the day is kept or skipped, then the rest of the month follows. */
  lemma DutyDatesStep(year: int, month: int, day: int, isHoliday: Date -> bool)
    requires ValidMonth(year, month) && 1 <= day <= DaysInMonth(year, month)
    ensures var d := Date(year, month, day);
      DutyDatesFrom(year, month, day, isHoliday)
      == (if IsDutyDate(d, isHoliday) then [d] else []) + DutyDatesFrom(year, month, day + 1, isHoliday)
  {
  }

  /**
   * The loop of `get_target_saturdays`: walk the month one day at a time from its first
   * day and keep the Saturdays that are not holidays.
   */
  method GetTargetSaturdays(year: int, month: int, isHoliday: Date -> bool)
    returns (r: Result<seq<Date>, CalendarError>)
    ensures r == TargetSaturdays(year, month, isHoliday)
  {
    if !ValidMonth(year, month) {
      return Err(InvalidDate);
    }
    var saturdays: seq<Date> := [];
    var d := Date(year, month, 1);
    while d.month == month
      invariant ValidDate(d)
      invariant d.month == month ==> d.year == year
      invariant d.month == month ==>
        saturdays + DutyDatesFrom(year, month, d.day, isHoliday) == DutyDatesFrom(year, month, 1, isHoliday)
      invariant d.month != month ==> saturdays == DutyDatesFrom(year, month, 1, isHoliday)
      invariant d.month != month ==> !(year == MaxYear && month == 12)
      decreases if d.month == month then DaysInMonth(year, month) + 1 - d.day else 0
    {
      DutyDatesStep(year, month, d.day, isHoliday);
      if IsDutyDate(d, isHoliday) {
        saturdays := saturdays + [d];
      }
      var next := NextDay(d);
      if next.None? {
        return Err(Overflow);
      }
      d := next.value;
    }
    r := Ok(saturdays);
  }
}
