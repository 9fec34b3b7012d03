// Naive local date-times as the engine uses them: a booking's start and end,
// the time of day compared against a window (`start.time()`), and the English
// weekday name of the start (`start.strftime("%A").lower()`).
//
// A timestamp is a whole number of minutes since 0001-01-01T00:00 of the
// proleptic Gregorian calendar, the first day of Python's date ordinals. That
// day was a Monday, so the weekday is the day count modulo 7 with Monday = 0,
// as in Python's date.weekday().

module Clock {

  /** Minutes in a day. */
  const MinutesPerDay: int := 1440

  /** Minutes since 0001-01-01T00:00. */
  type Timestamp = int

  /** `datetime.time(hour, minute)`: minutes after midnight. */
  function Time(hour: int, minute: int): (m: int)
    requires 0 <= hour < 24 && 0 <= minute < 60
    ensures 0 <= m < MinutesPerDay
  {
    hour * 60 + minute
  }

  /** A time of day gives back its hour and minute. */
  lemma TimeFields(hour: int, minute: int)
    requires 0 <= hour < 24 && 0 <= minute < 60
    ensures Time(hour, minute) / 60 == hour && Time(hour, minute) % 60 == minute
  {
  }

  /** `t.time()`: the time of day of t, in minutes after midnight. */
  function TimeOfDay(t: Timestamp): (m: int)
    ensures 0 <= m < MinutesPerDay
  {
    t % MinutesPerDay
  }

  /** The day of t, counted from 0001-01-01 as day 0. */
  function Day(t: Timestamp): int {
    t / MinutesPerDay
  }

  /** Python's `weekday()`: Monday is 0, Sunday is 6. */
  function Weekday(t: Timestamp): (d: int)
    ensures 0 <= d < 7
  {
    Day(t) % 7
  }

  /** The weekday names as `strftime("%A").lower()` spells them, Monday first. */
  const WeekdayNames: seq<string> :=
    ["monday", "tuesday", "wednesday", "thursday", "friday", "saturday", "sunday"]

  /** `t.strftime("%A").lower()`. */
  function WeekdayName(t: Timestamp): (name: string)
    ensures name in WeekdayNames
  {
    WeekdayNames[Weekday(t)]
  }

  /** The names repeat every seven days, and the name of each next day is the next in the list. */
  lemma WeekdayProgression(t: Timestamp)
    ensures Weekday(t + MinutesPerDay) == (Weekday(t) + 1) % 7
    ensures WeekdayName(t + 7 * MinutesPerDay) == WeekdayName(t)
  {
    var d, m := Day(t), TimeOfDay(t);
    DaySplit(t);
    SplitTimestamp(d + 1, m);
    SplitTimestamp(d + 7, m);
    assert Weekday(t + 7 * MinutesPerDay) == (d + 7) % 7 == d % 7;
  }

  predicate IsLeapYear(year: int) {
    year % 4 == 0 && (year % 100 != 0 || year % 400 == 0)
  }

  function DaysInMonth(year: int, month: int): (n: int)
    requires 1 <= month <= 12
    ensures 28 <= n <= 31
  {
    if month == 2 then (if IsLeapYear(year) then 29 else 28)
    else if month == 4 || month == 6 || month == 9 || month == 11 then 30
    else 31
  }

  /** Days in the months of `year` before `month`. */
  function DaysBeforeMonth(year: int, month: int): (n: int)
    requires 1 <= month <= 12
    ensures 28 * (month - 1) <= n <= 31 * (month - 1)
  {
    if month == 1 then 0 else DaysBeforeMonth(year, month - 1) + DaysInMonth(year, month - 1)
  }

  /** Days from 0001-01-01 to January 1st of `year`. */
  function DaysBeforeYear(year: int): (n: int)
    requires year >= 1
    ensures n >= 365 * (year - 1)
  {
    var y := year - 1;
    y * 365 + y / 4 - y / 100 + y / 400
  }

  /** A valid calendar date, within the years Python's datetime accepts. */
  predicate IsDate(year: int, month: int, day: int) {
    1 <= year <= 9999 && 1 <= month <= 12 && 1 <= day <= DaysInMonth(year, month)
  }

  /** `datetime(year, month, day, hour, minute)` as a timestamp. */
  function DateTime(year: int, month: int, day: int, hour: int, minute: int): (t: Timestamp)
    requires IsDate(year, month, day)
    requires 0 <= hour < 24 && 0 <= minute < 60
    ensures t >= 0
    ensures TimeOfDay(t) == Time(hour, minute)
    ensures Day(t) == DaysBeforeYear(year) + DaysBeforeMonth(year, month) + day - 1
  {
    var days := DaysBeforeYear(year) + DaysBeforeMonth(year, month) + day - 1;
    var t := days * MinutesPerDay + Time(hour, minute);
    SplitTimestamp(days, Time(hour, minute));
    t
  }

  /** A day and a minute of that day give back that day and that minute. */
  lemma SplitTimestamp(days: int, minute: int)
    requires 0 <= minute < MinutesPerDay
    ensures Day(days * MinutesPerDay + minute) == days
    ensures TimeOfDay(days * MinutesPerDay + minute) == minute
  {
  }

  /** The calendar is anchored where Python anchors it: 0001-01-01 is a Monday. */
  lemma EpochIsMonday()
    ensures WeekdayName(DateTime(1, 1, 1, 0, 0)) == "monday"
  {
  }

  /** A timestamp is its day times the minutes per day plus its time of day. */
  lemma DaySplit(t: Timestamp)
    ensures t == Day(t) * MinutesPerDay + TimeOfDay(t)
  {
  }
}
