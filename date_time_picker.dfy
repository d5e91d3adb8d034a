/**
 * The date-and-time field: a calendar popover that replaces the day while
 * keeping the clock time, a time picker that replaces the clock time while
 * keeping the day, the rule for which days the calendar refuses, and the
 * AM/PM default of the time picker.  The value the browser projects to
 * India Standard Time (`new Date(x.toLocaleString(..., {timeZone}))`) is an
 * input here: `projected` is what that round trip produced.
 */
module DateTimePicker {
  import opened Wrappers
  import opened Clock

  /**
   * handleOnSelect's new value for a picked day: the projected day with the
   * current value's hours and minutes when there is a current value (seconds
   * and milliseconds stay those of the projected day), else the projected
   * day as it is.
   */
  function PickDay(projected: DateTime, current: Option<DateTime>): (r: DateTime)
    requires projected.Valid() && (current.Some? ==> current.value.Valid())
    ensures r.Valid()
    ensures (r.year, r.month, r.day) == (projected.year, projected.month, projected.day)
    ensures current.Some? ==> r.hour == current.value.hour && r.minute == current.value.minute
    ensures r.second == projected.second && r.millis == projected.millis
    ensures current.None? ==> r == projected
  {
    if current.Some? then SetClock(projected, current.value.hour, current.value.minute, projected.second, projected.millis)
    else projected
  }

  /**
   * handleTimeChange as written: setFullYear, then setMonth, then setDate on
   * the projected time, one call at a time.  Each call keeps the clock time,
   * but setMonth keeps the projected day-of-month, which rolls over when the
   * target month is shorter.
   */
  function KeepDateAsWritten(projected: DateTime, current: DateTime): (r: DateTime)
    requires projected.Valid() && current.Valid()
    ensures r.Valid()
    ensures (r.hour, r.minute, r.second, r.millis) == (projected.hour, projected.minute, projected.second, projected.millis)
  {
    SetDate(SetMonth(SetFullYear(projected, current.year), current.month), current.day)
  }

  /**
   * The projected time 31 March 2024 10:30 moved onto 1 April 2024: setMonth
   * turns 31 April into 1 May, and setDate(1) keeps May.
   */
  lemma AsWrittenShiftsMonth()
    ensures KeepDateAsWritten(DateTime(2024, 2, 31, 10, 30, 0, 0), DateTime(2024, 3, 1, 9, 0, 0, 0))
            == DateTime(2024, 4, 1, 10, 30, 0, 0)
  {
    assert SetFullYear(DateTime(2024, 2, 31, 10, 30, 0, 0), 2024) == DateTime(2024, 2, 31, 10, 30, 0, 0);
    assert SetMonth(DateTime(2024, 2, 31, 10, 30, 0, 0), 3) == DateTime(2024, 4, 1, 10, 30, 0, 0);
  }

  /** The time change as intended: the current value's year, month and day, the projected clock time. */
  function KeepDate(projected: DateTime, current: DateTime): (r: DateTime)
    requires projected.Valid() && current.Valid()
    ensures r.Valid()
    ensures (r.year, r.month, r.day) == (current.year, current.month, current.day)
    ensures (r.hour, r.minute, r.second, r.millis) == (projected.hour, projected.minute, projected.second, projected.millis)
  {
    SetFullDate(projected, current.year, current.month, current.day)
  }

  /** The two agree whenever the projected day-of-month is at most 28, where no month can overflow. */
  lemma AsWrittenAgreesEarlyInMonth(projected: DateTime, current: DateTime)
    requires projected.Valid() && current.Valid() && projected.day <= 28
    ensures KeepDateAsWritten(projected, current) == KeepDate(projected, current)
  {
    var a := SetFullYear(projected, current.year);
    assert (a.year, a.month, a.day) == (current.year, projected.month, projected.day);
    var b := SetMonth(a, current.month);
    assert (b.year, b.month, b.day) == (current.year, current.month, projected.day);
  }

  /**
   * `new Date("2100-01-01")`: a date-only string is read as UTC midnight,
   * so these are that instant's UTC fields.
   */
  const LastSelectable := DateTime(2100, 0, 1, 0, 0, 0, 0)

  /**
   * The calendar's `disabled` rule: a day before now or after 1 January 2100
   * 00:00 UTC.  day and now are local fields; utcOffset is the browser's
   * local time minus UTC in milliseconds (negative west of Greenwich), so
   * the limit's local stamp is its UTC stamp plus utcOffset.
   */
  function Disabled(day: DateTime, now: DateTime, utcOffset: int): (off: bool)
    requires day.month < 12 && now.month < 12
    ensures !off <==> Stamp(now) <= Stamp(day) && Stamp(day) - utcOffset <= Stamp(LastSelectable)
  {
    Before(day, now) || Stamp(day) > Stamp(LastSelectable) + utcOffset
  }

  /**
   * The calendar hands over days at midnight, so today is refused as soon
   * as the clock is past midnight.
   */
  lemma TodayDisabledAfterMidnight(now: DateTime, utcOffset: int)
    requires now.Valid() && Stamp(now) > DayStamp(now)
    ensures Disabled(now.(hour := 0, minute := 0, second := 0, millis := 0), now, utcOffset)
  {
  }

  /** Once now is past the limit every day is refused. */
  lemma NothingAfterLimit(day: DateTime, now: DateTime, utcOffset: int)
    requires day.month < 12 && now.month < 12 && Stamp(now) - utcOffset > Stamp(LastSelectable)
    ensures Disabled(day, now, utcOffset)
  {
  }

  /**
   * Whether 1 January 2100 itself can be picked depends on the zone: at UTC
   * or east of it its local midnight is not after the limit, but at UTC-5
   * local midnight is five hours after it and the day is refused.
   */
  lemma LastDayDependsOnZone(now: DateTime)
    requires now.month < 12 && Stamp(now) <= Stamp(LastSelectable)
    ensures !Disabled(LastSelectable, now, 0)
    ensures Disabled(LastSelectable, now, -5 * 3600000)
  {
  }

  /**
   * The time picker's defaultPeriod: "PM" exactly when there is a displayed
   * value at 12:00 or later (`undefined >= 12` is false, so no value gives "AM").
   */
  function DefaultPeriod(display: Option<DateTime>): (p: string)
    ensures p == "PM" || p == "AM"
    ensures p == "PM" <==> display.Some? && display.value.hour >= 12
  {
    if display.Some? && display.value.hour >= 12 then "PM" else "AM"
  }

  /** Picking a day keeps the period the time picker shows: the hour comes from the current value. */
  lemma PickDayKeepsPeriod(projected: DateTime, current: DateTime)
    requires projected.Valid() && current.Valid()
    ensures DefaultPeriod(Some(PickDay(projected, Some(current)))) == DefaultPeriod(Some(current))
  {
  }

  /** A time change shows the period of the new time, whatever the day. */
  lemma TimeChangeTakesPeriod(projected: DateTime, current: DateTime)
    requires projected.Valid() && current.Valid()
    ensures DefaultPeriod(Some(KeepDate(projected, current))) == DefaultPeriod(Some(projected))
  {
  }

  class Picker {
    /** The form field's value, written through the setDate the form passes down. */
    var value: Option<DateTime>
    var popoverOpen: bool

    ghost predicate Valid()
      reads this
    {
      value.Some? ==> value.value.Valid()
    }

    constructor(value: Option<DateTime>)
      requires value.Some? ==> value.value.Valid()
      ensures Valid() && this.value == value && !popoverOpen
    {
      this.value := value;
      popoverOpen := false;
    }

    method SetPopoverOpen(open: bool)
      modifies this
      ensures popoverOpen == open && value == old(value)
    {
      popoverOpen := open;
    }

    /**
     * handleOnSelect: a picked day (its projection given) becomes the value
     * with the old clock time kept; an empty pick leaves the value alone.
     * The popover closes either way.
     */
    method HandleOnSelect(projected: Option<DateTime>)
      requires Valid() && (projected.Some? ==> projected.value.Valid())
      modifies this
      ensures Valid() && !popoverOpen
      ensures projected.Some? ==> value == Some(PickDay(projected.value, old(value)))
      ensures projected.None? ==> value == old(value)
    {
      if projected.Some? {
        var picked := projected.value;
        if value.Some? {
          picked := SetClock(picked, value.value.hour, value.value.minute, picked.second, picked.millis);
        }
        value := Some(picked);
      }
      popoverOpen := false;
    }

    /**
     * handleTimeChange: with both a new time (its projection given) and a
     * current value, the new clock time on the current day; otherwise
     * nothing changes.
     */
    method HandleTimeChange(projected: Option<DateTime>)
      requires Valid() && (projected.Some? ==> projected.value.Valid())
      modifies this
      ensures Valid() && popoverOpen == old(popoverOpen)
      ensures projected.Some? && old(value).Some? ==> value == Some(KeepDate(projected.value, old(value).value))
      ensures projected.None? || old(value).None? ==> value == old(value)
    {
      if projected.Some? && value.Some? {
        value := Some(KeepDate(projected.value, value.value));
      }
    }
  }
}
