/**
 * The week/day calendar grid: which notes belong to a day column, where each
 * note's box is placed (a count-based layout: no overlap grouping and no
 * choice by duration), the current-time line, and the half-hour slots a
 * click turns into a 30-minute range.  Hours are 100 px tall.
 */
module CalendarView {
  import opened NoteTypes
  import Clock

  const HourHeight: real := 100.0
  const HalfHourHeight: real := HourHeight / 2.0

  datatype ViewMode = Week | Day

  /** maxNotesToShow: 10 side by side in day view, 2 in week view. */
  function MaxNotes(mode: ViewMode): (n: nat)
    ensures n == 10 || n == 2
  {
    if mode == Day then 10 else 2
  }

  /**
   * Vertical offset of a clock time: 100 px per hour and 50/30 px per
   * minute.  Times of one day fall in [0, 2400) and keep their order.
   */
  function Top(h: nat, m: nat): (r: real)
    ensures h < 24 && m < 60 ==> 0.0 <= r < 24.0 * HourHeight
  {
    (h as real) * HourHeight + (m as real) * (HalfHourHeight / 30.0)
  }

  lemma TopKeepsOrder(h1: nat, m1: nat, h2: nat, m2: nat)
    requires m1 < 60 && m2 < 60
    requires h1 < h2 || (h1 == h2 && m1 < m2)
    ensures Top(h1, m1) < Top(h2, m2)
  {
    if h1 < h2 {
      assert (h1 as real) + 1.0 <= h2 as real;
    }
  }

  /** A note's length in minutes: (end - start) / 60000, a rational number. */
  function DurationMinutes(n: Note): real {
    ((n.end.ms - n.start.ms) as real) / 60000.0
  }

  /**
   * Box height: proportional below 30 minutes, one half-hour otherwise.  It
   * never exceeds 50 px, a zero-length note is 0 px tall, and a longer note
   * is never shorter.
   */
  function Height(d: real): (r: real)
    ensures r <= HalfHourHeight
    ensures d == 0.0 ==> r == 0.0
    ensures d >= 30.0 ==> r == HalfHourHeight
    ensures 0.0 <= d ==> 0.0 <= r
  {
    if d < 30.0 then (d / 30.0) * HalfHourHeight else HalfHourHeight
  }

  lemma HeightMonotone(a: real, b: real)
    requires a <= b
    ensures Height(a) <= Height(b)
  {
  }

  /** getNotesForDay: the notes whose start, projected to IST, falls on the given date; the end is not looked at. */
  function NotesForDay(notes: seq<Note>, day: DateKey): (r: seq<Note>)
    ensures |r| <= |notes|
    ensures forall n :: n in r <==> n in notes && n.start.istDate == day
  {
    if notes == [] then []
    else (if notes[0].start.istDate == day then [notes[0]] else []) + NotesForDay(notes[1..], day)
  }

  /** The filter keeps input order: it distributes over concatenation. */
  lemma {:induction false} NotesForDayKeepsOrder(a: seq<Note>, b: seq<Note>, day: DateKey)
    ensures NotesForDay(a + b, day) == NotesForDay(a, day) + NotesForDay(b, day)
  {
    if a != [] {
      assert (a + b)[0] == a[0] && (a + b)[1..] == a[1..] + b;
      NotesForDayKeepsOrder(a[1..], b, day);
      var head := if a[0].start.istDate == day then [a[0]] else [];
      calc {
        NotesForDay(a + b, day);
        head + NotesForDay(a[1..] + b, day);
        head + (NotesForDay(a[1..], day) + NotesForDay(b, day));
        (head + NotesForDay(a[1..], day)) + NotesForDay(b, day);
      }
    } else {
      assert a + b == b;
    }
  }

  /** Columns of different dates share no note. */
  lemma OneColumnPerNote(notes: seq<Note>, d1: DateKey, d2: DateKey, n: Note)
    requires d1 != d2 && n in NotesForDay(notes, d1)
    ensures n !in NotesForDay(notes, d2)
  {
  }

  datatype Content = NoteCard(note: Note) | MoreCount(count: int)

  /** An absolutely placed box: top and height in px, left and width in percent of the column. */
  datatype Box = Box(content: Content, top: real, height: real, left: real, width: real)

  /** The box for the index-th shown note when max notes share the column. */
  function Place(n: Note, index: nat, max: nat): Box
    requires max > 0
  {
    Box(NoteCard(n), Top(n.start.hour, n.start.minute), Height(DurationMinutes(n)),
        (index as real) * 100.0 / (max as real), 100.0 / (max as real))
  }

  /**
   * renderNotesForDay's placement for the notes of one day.  Up to max
   * notes each get an equal column slot; past that, day view keeps the first
   * ten and week view shows the first note beside a "+N" box.
   */
  function Layout(dayNotes: seq<Note>, mode: ViewMode): (boxes: seq<Box>)
    ensures |dayNotes| <= MaxNotes(mode) ==> (|boxes| == |dayNotes| &&
      forall i :: 0 <= i < |boxes| ==> boxes[i] == Place(dayNotes[i], i, MaxNotes(mode)))
    ensures mode == Day && |dayNotes| > 10 ==> (|boxes| == 10 &&
      forall i :: 0 <= i < 10 ==> boxes[i] == Place(dayNotes[i], i, 10))
    ensures mode == Week && |dayNotes| > 2 ==> (|boxes| == 2 &&
      boxes[0].content == NoteCard(dayNotes[0]) && boxes[0].left == 0.0 && boxes[0].width == 50.0 &&
      boxes[1].content == MoreCount(|dayNotes| - 1) && boxes[1].left == 50.0 && boxes[1].width == 50.0 &&
      boxes[1].top == boxes[0].top == Top(dayNotes[0].start.hour, dayNotes[0].start.minute) &&
      boxes[1].height == boxes[0].height == Height(DurationMinutes(dayNotes[0])))
  {
    var max := MaxNotes(mode);
    if |dayNotes| <= max then
      seq(|dayNotes|, i requires 0 <= i < |dayNotes| => Place(dayNotes[i], i, max))
    else if mode == Day then
      seq(10, i requires 0 <= i < 10 => Place(dayNotes[i], i, 10))
    else
      var first := Place(dayNotes[0], 0, 2);
      [first, Box(MoreCount(|dayNotes| - 1), first.top, first.height, 50.0, 50.0)]
  }

  /**
   * Every layout stays inside the column and its boxes do not overlap
   * horizontally: each box ends where or before the next one starts.  For
   * valid notes every box's top lies in [0, 2400) and its height is at most
   * 50 px.
   */
  lemma LayoutFitsColumn(dayNotes: seq<Note>, mode: ViewMode)
    ensures forall i :: 0 <= i < |Layout(dayNotes, mode)| ==>
      0.0 <= Layout(dayNotes, mode)[i].left && Layout(dayNotes, mode)[i].left + Layout(dayNotes, mode)[i].width <= 100.0
    ensures forall i, j :: 0 <= i < j < |Layout(dayNotes, mode)| ==>
      Layout(dayNotes, mode)[i].left + Layout(dayNotes, mode)[i].width <= Layout(dayNotes, mode)[j].left
    ensures (forall n :: n in dayNotes ==> n.Valid()) ==>
      forall i :: 0 <= i < |Layout(dayNotes, mode)| ==>
        0.0 <= Layout(dayNotes, mode)[i].top < 2400.0 && Layout(dayNotes, mode)[i].height <= 50.0
  {
    var boxes := Layout(dayNotes, mode);
    var max := MaxNotes(mode);
    var count := if |dayNotes| <= max then |dayNotes| else if mode == Day then 10 else 0;
    if count > 0 || |dayNotes| == 0 {
      var m := if |dayNotes| <= max then max else 10;
      assert count <= m;
      forall i | 0 <= i < |boxes| ensures 0.0 <= boxes[i].left && boxes[i].left + boxes[i].width <= 100.0 {
        SlotFits(i, m);
      }
      forall i, j | 0 <= i < j < |boxes| ensures boxes[i].left + boxes[i].width <= boxes[j].left {
        SlotsDisjoint(i, j, m);
      }
    }
    if forall n :: n in dayNotes ==> n.Valid() {
      forall i | 0 <= i < |boxes| ensures 0.0 <= boxes[i].top < 2400.0 && boxes[i].height <= 50.0 {
        var n := if boxes[i].content.NoteCard? then boxes[i].content.note else dayNotes[0];
        assert n in dayNotes;
      }
    }
  }

  lemma SlotFits(i: nat, m: nat)
    requires m == 10 || m == 2
    requires i < m
    ensures 0.0 <= (i as real) * 100.0 / (m as real)
    ensures (i as real) * 100.0 / (m as real) + 100.0 / (m as real) <= 100.0
  {
  }

  lemma SlotsDisjoint(i: nat, j: nat, m: nat)
    requires m == 10 || m == 2
    requires i < j
    ensures (i as real) * 100.0 / (m as real) + 100.0 / (m as real) <= (j as real) * 100.0 / (m as real)
  {
    assert (i as real) + 1.0 <= j as real;
  }

  /** The boxes of one day column, in the given view. */
  function RenderDay(notes: seq<Note>, day: DateKey, mode: ViewMode): (boxes: seq<Box>)
    ensures forall b :: b in boxes && b.content.NoteCard? ==> b.content.note in notes && b.content.note.start.istDate == day
    ensures notes == [] ==> boxes == []
  {
    var dayNotes := NotesForDay(notes, day);
    var boxes := Layout(dayNotes, mode);
    assert forall i :: 0 <= i < |boxes| && boxes[i].content.NoteCard? ==> boxes[i].content.note in dayNotes;
    boxes
  }

  /** getCurrentTimePosition: the current-time line sits where a note starting now would. */
  function CurrentTimePosition(now: Moment): (r: real)
    requires now.Valid()
    ensures 0.0 <= r < 2400.0
    ensures forall n: Note :: n.start.hour == now.hour && n.start.minute == now.minute ==> r == Place(n, 0, 1).top
  {
    Top(now.hour, now.minute)
  }

  /**
   * handleTimeSlotClick in a browser utcOffset minutes east of UTC: the
   * local start is the day at hour:00 or hour:30 and the local end thirty
   * minutes later (carrying into the next hour or day); the day, the start
   * and the end are each projected to IST before they are passed on.
   */
  method HandleTimeSlotClick(day: Clock.DateTime, hour: nat, isFirstHalf: bool, utcOffset: int)
    returns (date: Clock.DateTime, start: Clock.DateTime, end: Clock.DateTime)
    requires day.Valid() && day.year > 0 && hour < 24 && -720 <= utcOffset <= 840
    ensures date == Clock.ToIST(day, utcOffset)
    ensures start.Valid() && end.Valid() && start.second == 0 && start.millis == 0
    ensures Clock.Stamp(start) == Clock.DayStamp(day) + (hour * 60 + (if isFirstHalf then 0 else 30)) * 60000
                                  + (Clock.IstOffset - utcOffset) * 60000
    ensures Clock.Stamp(end) == Clock.Stamp(start) + 30 * 60000
    ensures utcOffset == Clock.IstOffset ==>
      (start.year, start.month, start.day) == (day.year, day.month, day.day) &&
      start.hour == hour && start.minute == (if isFirstHalf then 0 else 30)
  {
    var startLocal := Clock.SetClock(day, hour, if isFirstHalf then 0 else 30, 0, 0);
    var endLocal := Clock.SetMinutes(startLocal, startLocal.minute + 30);
    start := Clock.ToIST(startLocal, utcOffset);
    end := Clock.ToIST(endLocal, utcOffset);
    date := Clock.ToIST(day, utcOffset);
  }

  /**
   * The first cell of 1 April, in any year, clicked in a browser at UTC+9:
   * the sheet gets 31 March, 20:30 to 21:00, the IST reading of that instant.
   */
  lemma SlotEastOfIst(year: nat)
    requires year > 0
    ensures Clock.ToIST(Clock.DateTime(year, 3, 1, 0, 0, 0, 0), 540) == Clock.DateTime(year, 2, 31, 20, 30, 0, 0)
    ensures Clock.ToIST(Clock.DateTime(year, 3, 1, 0, 30, 0, 0), 540) == Clock.DateTime(year, 2, 31, 21, 0, 0, 0)
  {
  }

  /** The index-th of the 48 half-hour cells: hour index/2, first half when index is even. */
  method SlotClick(day: Clock.DateTime, index: nat, utcOffset: int)
    returns (date: Clock.DateTime, start: Clock.DateTime, end: Clock.DateTime)
    requires day.Valid() && day.year > 0 && index < 48 && -720 <= utcOffset <= 840
    ensures date == Clock.ToIST(day, utcOffset) && start.Valid() && end.Valid()
    ensures Clock.Stamp(start) == Clock.DayStamp(day) + index * 30 * 60000 + (Clock.IstOffset - utcOffset) * 60000
    ensures Clock.Stamp(end) == Clock.Stamp(start) + 30 * 60000
    ensures utcOffset == Clock.IstOffset ==>
      start.hour == index / 2 && start.minute == (if index % 2 == 0 then 0 else 30) &&
      Clock.DayStamp(start) == Clock.DayStamp(day)
  {
    date, start, end := HandleTimeSlotClick(day, index / 2, index % 2 == 0, utcOffset);
  }
}
