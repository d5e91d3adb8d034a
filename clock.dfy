/**
 * Local wall-clock dates as the browser's `Date` exposes them through
 * getFullYear/getMonth/getDate/getHours/getMinutes, and the setters
 * (setFullYear, setMonth, setDate, setHours, setMinutes) with the overflow
 * rule of ECMAScript's MakeDay: a day-of-month past the end of its month
 * rolls into the following month.  Months are 0-based as in JavaScript.
 */
module Clock {

  predicate IsLeapYear(y: nat) {
    (y % 4 == 0 && y % 100 != 0) || y % 400 == 0
  }

  function DaysInMonth(y: nat, m: nat): (n: nat)
    requires m < 12
    ensures 28 <= n <= 31
    ensures n == 31 <==> m in {0, 2, 4, 6, 7, 9, 11}
  {
    if m == 1 then (if IsLeapYear(y) then 29 else 28)
    else if m == 3 || m == 5 || m == 8 || m == 10 then 30
    else 31
  }

  function DaysInYear(y: nat): nat {
    if IsLeapYear(y) then 366 else 365
  }

  /** Days in the months of year y before month m. */
  function DaysBeforeMonth(y: nat, m: nat): nat
    requires m <= 12
  {
    if m == 0 then 0 else DaysBeforeMonth(y, m - 1) + DaysInMonth(y, m - 1)
  }

  /** Days in the years before year y (proleptic Gregorian, from year 0). */
  function DaysBeforeYear(y: nat): nat {
    if y == 0 then 0 else DaysBeforeYear(y - 1) + DaysInYear(y - 1)
  }

  /** The day number MakeDay gives to (y, m, d); d may lie past the end of month m. */
  function DayNumber(y: nat, m: nat, d: nat): int
    requires m < 12
  {
    DaysBeforeYear(y) + DaysBeforeMonth(y, m) + d - 1
  }

  lemma {:induction false} DecemberStartsYearEnd(y: nat)
    ensures DaysBeforeMonth(y, 11) + 31 == DaysInYear(y)
  {
    assert DaysBeforeMonth(y, 1) == 31;
    assert DaysBeforeMonth(y, 2) == 31 + DaysInMonth(y, 1);
    assert DaysBeforeMonth(y, 3) == 62 + DaysInMonth(y, 1);
    assert DaysBeforeMonth(y, 4) == 92 + DaysInMonth(y, 1);
    assert DaysBeforeMonth(y, 5) == 123 + DaysInMonth(y, 1);
    assert DaysBeforeMonth(y, 6) == 153 + DaysInMonth(y, 1);
    assert DaysBeforeMonth(y, 7) == 184 + DaysInMonth(y, 1);
    assert DaysBeforeMonth(y, 8) == 215 + DaysInMonth(y, 1);
    assert DaysBeforeMonth(y, 9) == 245 + DaysInMonth(y, 1);
    assert DaysBeforeMonth(y, 10) == 276 + DaysInMonth(y, 1);
    assert DaysBeforeMonth(y, 11) == 306 + DaysInMonth(y, 1);
  }

  /**
   * MakeDay's overflow for a day-of-month at most one month too far:
   * (y, m, d) becomes the valid calendar date with the same day number.
   */
  function Normalize(y: nat, m: nat, d: nat): (r: (nat, nat, nat))
    requires m < 12 && 1 <= d <= 32
    ensures r.1 < 12 && 1 <= r.2 <= DaysInMonth(r.0, r.1)
    ensures DayNumber(r.0, r.1, r.2) == DayNumber(y, m, d)
    ensures d <= DaysInMonth(y, m) <==> r == (y, m, d)
    ensures r.0 >= y
  {
    if d <= DaysInMonth(y, m) then (y, m, d)
    else if m < 11 then (y, m + 1, d - DaysInMonth(y, m))
    else
      DecemberStartsYearEnd(y);
      (y + 1, 0, d - 31)
  }

  /** The fields a local `Date` reports through its getters. */
  datatype DateTime = DateTime(year: nat, month: nat, day: nat,
                               hour: nat, minute: nat, second: nat, millis: nat)
  {
    ghost predicate Valid() {
      month < 12 && 1 <= day <= DaysInMonth(year, month) &&
      hour < 24 && minute < 60 && second < 60 && millis < 1000
    }
  }

  /** The local time value in milliseconds, counted from 0000-01-01 00:00. */
  function Stamp(t: DateTime): int
    requires t.month < 12
  {
    ((DayNumber(t.year, t.month, t.day) * 24 + t.hour) * 60 + t.minute) * 60000
      + t.second * 1000 + t.millis
  }

  /** The time value of the calendar day of t (its local midnight). */
  function DayStamp(t: DateTime): int
    requires t.month < 12
  {
    DayNumber(t.year, t.month, t.day) * 86400000
  }

  /** Moving a valid date to the next calendar day. */
  function NextDay(t: DateTime): (r: DateTime)
    requires t.Valid()
    ensures r.Valid()
    ensures Stamp(r) == Stamp(t) + 86400000
    ensures r.year >= t.year
    ensures (r.hour, r.minute, r.second, r.millis) == (t.hour, t.minute, t.second, t.millis)
  {
    var ymd := Normalize(t.year, t.month, t.day + 1);
    t.(year := ymd.0, month := ymd.1, day := ymd.2)
  }

  /** Moving a valid date after 1 January of year 0 to the previous calendar day. */
  function PrevDay(t: DateTime): (r: DateTime)
    requires t.Valid() && (t.year > 0 || t.month > 0 || t.day > 1)
    ensures r.Valid()
    ensures Stamp(r) == Stamp(t) - 86400000
    ensures (r.hour, r.minute, r.second, r.millis) == (t.hour, t.minute, t.second, t.millis)
  {
    if t.day > 1 then t.(day := t.day - 1)
    else if t.month > 0 then t.(month := t.month - 1, day := DaysInMonth(t.year, t.month - 1))
    else
      DecemberStartsYearEnd(t.year - 1);
      t.(year := t.year - 1, month := 11, day := 31)
  }

  /**
   * The wall-clock fields delta minutes later (earlier when delta is
   * negative), for a shift of less than a day; seconds and milliseconds
   * are kept.
   */
  function ShiftMinutes(t: DateTime, delta: int): (r: DateTime)
    requires t.Valid() && t.year > 0 && -1440 < delta < 1440
    ensures r.Valid()
    ensures Stamp(r) == Stamp(t) + delta * 60000
    ensures (r.second, r.millis) == (t.second, t.millis)
    ensures delta == 0 ==> r == t
  {
    var total := t.hour * 60 + t.minute + delta;
    if total < 0 then
      var d := PrevDay(t);
      d.(hour := (total + 1440) / 60, minute := (total + 1440) % 60)
    else if total >= 1440 then
      var d := NextDay(t);
      d.(hour := (total - 1440) / 60, minute := (total - 1440) % 60)
    else t.(hour := total / 60, minute := total % 60)
  }

  /** India Standard Time, in minutes east of UTC. */
  const IstOffset: int := 330

  /**
   * `new Date(t.toLocaleString("en-US", {timeZone: "Asia/Kolkata"}))` in
   * a browser whose zone is utcOffset minutes east of UTC (from UTC-12 to
   * UTC+14, with no daylight-saving change): the IST wall-clock fields of
   * the instant, read back as local fields.  The printed text has no
   * milliseconds, so they become 0.
   */
  function ToIST(t: DateTime, utcOffset: int): (r: DateTime)
    requires t.Valid() && t.year > 0 && -720 <= utcOffset <= 840
    ensures r.Valid() && r.millis == 0 && r.second == t.second
    ensures Stamp(r) == Stamp(t) - t.millis + (IstOffset - utcOffset) * 60000
    ensures utcOffset == IstOffset ==> r == t.(millis := 0)
  {
    ShiftMinutes(t.(millis := 0), IstOffset - utcOffset)
  }

  /** setFullYear(y): keeps month and day-of-month, which may roll over (29 February). */
  function SetFullYear(t: DateTime, y: nat): (r: DateTime)
    requires t.Valid()
    ensures r.Valid()
    ensures DayNumber(r.year, r.month, r.day) == DayNumber(y, t.month, t.day)
    ensures (r.hour, r.minute, r.second, r.millis) == (t.hour, t.minute, t.second, t.millis)
  {
    var ymd := Normalize(y, t.month, t.day);
    t.(year := ymd.0, month := ymd.1, day := ymd.2)
  }

  /** setMonth(m): keeps the day-of-month, which rolls into the next month when too large. */
  function SetMonth(t: DateTime, m: nat): (r: DateTime)
    requires t.Valid() && m < 12
    ensures r.Valid()
    ensures DayNumber(r.year, r.month, r.day) == DayNumber(t.year, m, t.day)
    ensures (r.hour, r.minute, r.second, r.millis) == (t.hour, t.minute, t.second, t.millis)
  {
    var ymd := Normalize(t.year, m, t.day);
    t.(year := ymd.0, month := ymd.1, day := ymd.2)
  }

  /** setDate(d) for d in 1..31: rolls into the next month when d is past the month's end. */
  function SetDate(t: DateTime, d: nat): (r: DateTime)
    requires t.Valid() && 1 <= d <= 31
    ensures r.Valid()
    ensures DayNumber(r.year, r.month, r.day) == DayNumber(t.year, t.month, d)
    ensures (r.hour, r.minute, r.second, r.millis) == (t.hour, t.minute, t.second, t.millis)
  {
    var ymd := Normalize(t.year, t.month, d);
    t.(year := ymd.0, month := ymd.1, day := ymd.2)
  }

  /** setFullYear(y, m, d) with all three at once: a valid (y, m, d) is taken as it is. */
  function SetFullDate(t: DateTime, y: nat, m: nat, d: nat): (r: DateTime)
    requires t.Valid() && m < 12 && 1 <= d <= DaysInMonth(y, m)
    ensures r.Valid()
    ensures (r.year, r.month, r.day) == (y, m, d)
    ensures (r.hour, r.minute, r.second, r.millis) == (t.hour, t.minute, t.second, t.millis)
  {
    var ymd := Normalize(y, m, d);
    t.(year := ymd.0, month := ymd.1, day := ymd.2)
  }

  /** setHours(h, mi, s, ms) with in-range arguments: the calendar day is kept. */
  function SetClock(t: DateTime, h: nat, mi: nat, s: nat, ms: nat): (r: DateTime)
    requires t.Valid() && h < 24 && mi < 60 && s < 60 && ms < 1000
    ensures r.Valid()
    ensures (r.year, r.month, r.day) == (t.year, t.month, t.day)
    ensures (r.hour, r.minute, r.second, r.millis) == (h, mi, s, ms)
    ensures Stamp(r) == DayStamp(t) + ((h * 60 + mi) * 60 + s) * 1000 + ms
  {
    t.(hour := h, minute := mi, second := s, millis := ms)
  }

  /**
   * setMinutes(mi) for mi below 120: minutes past 59 carry into the hour,
   * and past 23:59 into the next day.
   */
  function SetMinutes(t: DateTime, mi: nat): (r: DateTime)
    requires t.Valid() && mi < 120
    ensures r.Valid()
    ensures Stamp(r) == Stamp(t) + (mi - t.minute) * 60000
    ensures r.year >= t.year && (r.second, r.millis) == (t.second, t.millis)
  {
    if mi < 60 then t.(minute := mi)
    else if t.hour < 23 then t.(hour := t.hour + 1, minute := mi - 60)
    else NextDay(t).(hour := 0, minute := mi - 60)
  }

  /** date-fns addHours(t, 1) read in local wall-clock terms (no daylight-saving jumps). */
  function AddOneHour(t: DateTime): (r: DateTime)
    requires t.Valid()
    ensures r.Valid()
    ensures Stamp(r) == Stamp(t) + 3600000
  {
    if t.hour < 23 then t.(hour := t.hour + 1)
    else NextDay(t).(hour := 0)
  }

  predicate Before(a: DateTime, b: DateTime)
    requires a.month < 12 && b.month < 12
  {
    Stamp(a) < Stamp(b)
  }
}
