/**
 * The notes page: the week/day switch, the selected date, and the add-note
 * sheet, which opens either on a clicked time slot (whose date and times
 * become the sheet's defaults) or from the Add Note button with no slot.
 * The page drives the sheet through its `open` and `onOpenChange` props,
 * with handleAddNoteClose as `onClose`.
 */
module NotesPage {
  import opened Wrappers
  import opened Clock
  import opened NoteTypes
  import CalendarView
  import AddNote
  import NoteForm

  /** A clicked half-hour: the day and the slot's start and end. */
  datatype Slot = Slot(date: DateTime, startTime: DateTime, endTime: DateTime)

  /** `data?.getNotes || []`: the fetched notes, or none while there is no answer. */
  function CalendarNotes(response: Option<seq<Note>>): (notes: seq<Note>)
    ensures response.None? ==> notes == []
    ensures response.Some? ==> notes == response.value
  {
    if response.Some? then response.value else []
  }

  /**
   * The calendar draws only fetched notes: while there is no answer every
   * day column is empty, and every card it draws is one of the notes the
   * query returned.
   */
  lemma CalendarShowsFetched(response: Option<seq<Note>>, day: DateKey, mode: CalendarView.ViewMode)
    ensures response.None? ==> CalendarView.RenderDay(CalendarNotes(response), day, mode) == []
    ensures forall b :: b in CalendarView.RenderDay(CalendarNotes(response), day, mode) && b.content.NoteCard? ==>
      response.Some? && b.content.note in response.value
  {
  }

  class Page {
    var viewMode: CalendarView.ViewMode
    var selectedDate: DateTime
    var showAddNote: bool
    var selectedTimeSlot: Option<Slot>

    /** Week view, the sheet closed, no slot, and today (given) as the selected date. */
    constructor(today: DateTime)
      ensures viewMode == CalendarView.Week && !showAddNote && selectedTimeSlot.None? && selectedDate == today
    {
      viewMode := CalendarView.Week;
      selectedDate := today;
      showAddNote := false;
      selectedTimeSlot := None;
    }

    /** The date given to the sheet: the slot's date when there is a slot, else the selected date. */
    function AddNoteDate(): (d: DateTime)
      reads this
      ensures selectedTimeSlot.Some? ==> d == selectedTimeSlot.value.date
      ensures selectedTimeSlot.None? ==> d == selectedDate
    {
      if selectedTimeSlot.Some? then selectedTimeSlot.value.date else selectedDate
    }

    /** The sheet's defaultStartTime: the slot's start, and nothing without a slot. */
    function DefaultStartTime(): (t: Option<DateTime>)
      reads this
      ensures t.Some? <==> selectedTimeSlot.Some?
      ensures t.Some? ==> t.value == selectedTimeSlot.value.startTime
    {
      if selectedTimeSlot.Some? then Some(selectedTimeSlot.value.startTime) else None
    }

    /** The sheet's defaultEndTime: the slot's end, and nothing without a slot. */
    function DefaultEndTime(): (t: Option<DateTime>)
      reads this
      ensures t.Some? <==> selectedTimeSlot.Some?
      ensures t.Some? ==> t.value == selectedTimeSlot.value.endTime
    {
      if selectedTimeSlot.Some? then Some(selectedTimeSlot.value.endTime) else None
    }

    method SetViewMode(mode: CalendarView.ViewMode)
      modifies this
      ensures viewMode == mode && selectedDate == old(selectedDate)
      ensures showAddNote == old(showAddNote) && selectedTimeSlot == old(selectedTimeSlot)
    {
      viewMode := mode;
    }

    /** The calendar's onDateSelect. */
    method SetSelectedDate(d: DateTime)
      modifies this
      ensures selectedDate == d && viewMode == old(viewMode)
      ensures showAddNote == old(showAddNote) && selectedTimeSlot == old(selectedTimeSlot)
    {
      selectedDate := d;
    }

    /** handleTimeSlotSelect: the slot is stored and the sheet opens. */
    method HandleTimeSlotSelect(date: DateTime, startTime: DateTime, endTime: DateTime)
      modifies this
      ensures selectedTimeSlot == Some(Slot(date, startTime, endTime)) && showAddNote
      ensures viewMode == old(viewMode) && selectedDate == old(selectedDate)
    {
      selectedTimeSlot := Some(Slot(date, startTime, endTime));
      showAddNote := true;
    }

    /** handleAddNoteClose: the sheet closes and the slot is forgotten. */
    method HandleAddNoteClose()
      modifies this
      ensures !showAddNote && selectedTimeSlot.None?
      ensures viewMode == old(viewMode) && selectedDate == old(selectedDate)
    {
      showAddNote := false;
      selectedTimeSlot := None;
    }

    /** The Add Note button: the sheet opens with no slot, so on the selected date without default times. */
    method HandleAddNoteClick()
      modifies this
      ensures showAddNote && selectedTimeSlot.None?
      ensures AddNoteDate() == selectedDate && DefaultStartTime().None? && DefaultEndTime().None?
      ensures viewMode == old(viewMode) && selectedDate == old(selectedDate)
    {
      selectedTimeSlot := None;
      showAddNote := true;
    }

    /**
     * The sheet's handleOpenChange as this page wires it: setShowAddNote
     * takes the value, and a close also runs handleAddNoteClose.
     */
    method OnSheetOpenChange(newOpen: bool)
      modifies this
      ensures showAddNote == newOpen
      ensures newOpen ==> selectedTimeSlot == old(selectedTimeSlot)
      ensures !newOpen ==> selectedTimeSlot.None?
      ensures viewMode == old(viewMode) && selectedDate == old(selectedDate)
    {
      showAddNote := newOpen;
      if !newOpen {
        HandleAddNoteClose();
      }
    }

    /** The page's sheet: both props given, so it is controlled and shows `showAddNote`. */
    method MountSheet() returns (sheet: AddNote.Sheet)
      ensures fresh(sheet) && sheet.IsControlled() && sheet.IsOpen() == showAddNote && sheet.hasOnClose
    {
      sheet := new AddNote.Sheet(Some(showAddNote), true, true);
    }

    /**
     * A click on the index-th half-hour cell of a day, in a browser
     * utcOffset minutes east of UTC: the calendar builds the slot in IST
     * and the page stores it, opening the sheet on the IST reading of the
     * day with a start and an end thirty minutes apart.  In an IST browser
     * that is the day itself at the cell's time.
     */
    method SelectSlot(day: DateTime, index: nat, utcOffset: int)
      requires day.Valid() && day.year > 0 && index < 48 && -720 <= utcOffset <= 840
      modifies this
      ensures showAddNote && AddNoteDate() == ToIST(day, utcOffset)
      ensures DefaultStartTime().Some? && DefaultEndTime().Some?
      ensures DefaultStartTime().value.Valid() && DefaultEndTime().value.Valid()
      ensures Stamp(DefaultStartTime().value) == DayStamp(day) + index * 1800000 + (IstOffset - utcOffset) * 60000
      ensures Stamp(DefaultEndTime().value) == Stamp(DefaultStartTime().value) + 1800000
      ensures utcOffset == IstOffset ==>
        AddNoteDate() == day.(millis := 0) && Stamp(DefaultStartTime().value) == DayStamp(day) + index * 1800000
      ensures viewMode == old(viewMode) && selectedDate == old(selectedDate)
    {
      var date, start, end := CalendarView.SlotClick(day, index, utcOffset);
      HandleTimeSlotSelect(date, start, end);
    }
  }

  /**
   * The slot reaches the note form: whatever the projected date, the form
   * opens on the slot's start and end rather than on the derived one-hour
   * span.
   */
  lemma SlotSetsFormTimes(p: Page, projected: DateTime)
    requires projected.Valid() && p.selectedTimeSlot.Some?
    ensures NoteForm.Defaults(None, projected, p.DefaultStartTime(), p.DefaultEndTime()).startTime
            == Some(p.selectedTimeSlot.value.startTime)
    ensures NoteForm.Defaults(None, projected, p.DefaultStartTime(), p.DefaultEndTime()).endTime
            == Some(p.selectedTimeSlot.value.endTime)
  {
  }

  /** Without a slot the form falls back to the projected date and the hour after it. */
  lemma NoSlotOneHourSpan(p: Page, projected: DateTime)
    requires projected.Valid() && p.selectedTimeSlot.None?
    ensures NoteForm.Defaults(None, projected, p.DefaultStartTime(), p.DefaultEndTime()).startTime == Some(projected)
    ensures Stamp(NoteForm.Defaults(None, projected, p.DefaultStartTime(), p.DefaultEndTime()).endTime.value)
            == Stamp(projected) + 3600000
  {
  }
}
