/**
 * The event edit dialog: its schema, the values it loads from the event
 * being edited, saving as delete-then-append on the shared list, and
 * cancelling, which after a drag puts the pre-drag event back.
 */
module EventEditForm {
  import opened Wrappers
  import opened JsNumber
  import opened EventsContext
  import opened ArrayFilter

  /** The calendar's event as the dialog receives it (the dragged event, or its pre-drag copy). */
  datatype CalendarEvent = CalendarEvent(id: string, title: Option<string>, description: string,
                                         start: int, end: int, backgroundColor: Option<string>)

  /** The form's values; None is a field the form does not have. */
  datatype EditValues = EditValues(id: Option<string>, title: Option<string>, start: Option<int>,
                                   end: Option<int>, color: Option<string>)

  const StartRequired := "Please select a start time"
  const EndRequired := "Please select an end time"
  const ColorRequired := "Please select an event color."
  const ColorEmpty := "Must provide a title for this event."

  /**
   * eventEditFormSchema's messages, field by field: a string id, a start and
   * an end date, and a non-empty colour.  The order of start and end is not
   * checked.
   */
  function Issues(v: EditValues): (r: seq<string>)
    ensures r == [] <==> v.id.Some? && v.start.Some? && v.end.Some? && v.color.Some? && v.color.value != ""
    ensures "Required" in r <==> v.id.None?
    ensures StartRequired in r <==> v.start.None?
    ensures EndRequired in r <==> v.end.None?
    ensures ColorRequired in r <==> v.color.None?
    ensures ColorEmpty in r <==> v.color == Some("")
  {
    (if v.id.None? then ["Required"] else []) +
    (if v.start.None? then [StartRequired] else []) +
    (if v.end.None? then [EndRequired] else []) +
    (if v.color.None? then [ColorRequired] else if v.color.value == "" then [ColorEmpty] else [])
  }

  /** An event that ends before it starts passes the schema. */
  lemma EndBeforeStartAccepted()
    ensures Issues(EditValues(Some("1"), None, Some(10), Some(5), Some("blue"))) == []
  {
  }

  /** The effect on a new event: the form takes the event's id, title, times and colour. */
  function ValuesOf(event: Option<CalendarEvent>): (v: EditValues)
    ensures event.None? ==> v == EditValues(None, None, None, None, None)
    ensures event.Some? ==> (v.id == Some(event.value.id) && v.start == Some(event.value.start) &&
      v.end == Some(event.value.end) && v.title == event.value.title && v.color == event.value.backgroundColor)
  {
    match event
    case None => EditValues(None, None, None, None, None)
    case Some(e) => EditValues(Some(e.id), e.title, Some(e.start), Some(e.end), e.backgroundColor)
  }

  /** The event put back on cancel: the pre-drag event's fields, its background colour as the colour. */
  function ResetEvent(prior: CalendarEvent): (e: Event)
    ensures e.id == prior.id && e.body.Entry?
    ensures e.body.start == prior.start && e.body.end == prior.end && e.body.color == prior.backgroundColor
  {
    Event(prior.id, Entry(prior.title, prior.description, prior.start, prior.end, prior.backgroundColor))
  }

  /** The event a save appends: the form's values and the serialised description. */
  function SavedEvent(v: EditValues, serialized: string): (e: Event)
    requires Issues(v) == []
    ensures e.id == v.id.value && e.body.Entry?
    ensures e.body.start == v.start.value && e.body.end == v.end.value && e.body.color == v.color
  {
    Event(v.id.value, Entry(v.title, serialized, v.start.value, v.end.value, v.color))
  }

  /** Saving an event's own loaded values, with its description unchanged, stores what a cancel restores. */
  lemma SaveUnchangedIsReset(e: CalendarEvent)
    requires e.backgroundColor.Some? && e.backgroundColor.value != ""
    ensures Issues(ValuesOf(Some(e))) == []
    ensures SavedEvent(ValuesOf(Some(e)), e.description) == ResetEvent(e)
  {
  }

  /** How many events carry the same numeric id. */
  function CountMatches(events: seq<Event>, id: string): nat {
    |FilterBy(events, e => Matches(e, id))|
  }

  /**
   * Delete-then-append by a numeric id: afterwards exactly one event has
   * that id, the appended one, at the end.
   */
  lemma ReplaceLeavesOne(events: seq<Event>, e: Event)
    requires !ToNumber(e.id).NaN?
    ensures CountMatches(Without(events, e.id) + [e], e.id) == 1
  {
    var keep := (x: Event) => Matches(x, e.id);
    FilterByKeepsOrder(Without(events, e.id), [e], keep);
    FilterByNone(Without(events, e.id), keep);
    assert FilterBy([e], keep) == [e] by {
      assert keep(e);
      assert [e][1..] == [];
    }
  }

  /** With an id that is not a number the old copy stays and the new one is added beside it. */
  lemma NaNReplaceDuplicates(events: seq<Event>, e: Event)
    requires ToNumber(e.id).NaN?
    ensures Without(events, e.id) + [e] == events + [e]
  {
    NaNIdDeletesNothing(events, e.id);
  }

  class Form {
    const store: Store
    const oldEvent: Option<CalendarEvent>
    const isDrag: bool
    var values: EditValues

    constructor(store: Store, oldEvent: Option<CalendarEvent>, event: Option<CalendarEvent>, isDrag: bool)
      ensures this.store == store && this.oldEvent == oldEvent && this.isDrag == isDrag
      ensures values == ValuesOf(event)
    {
      this.store := store;
      this.oldEvent := oldEvent;
      this.isDrag := isDrag;
      values := ValuesOf(event);
    }

    /** The effect when the edited event changes: the form is reset from it. */
    method Load(event: Option<CalendarEvent>)
      modifies this
      ensures values == ValuesOf(event)
    {
      values := ValuesOf(event);
    }

    /**
     * handleEditCancellation: after a drag with a pre-drag event, delete its
     * id and append it back; otherwise the list is untouched.  The dialog
     * closes either way.
     */
    method Cancel()
      modifies store
      ensures isDrag && oldEvent.Some? ==>
        store.events == Without(old(store.events), oldEvent.value.id) + [ResetEvent(oldEvent.value)]
      ensures !(isDrag && oldEvent.Some?) ==> store.events == old(store.events)
      ensures !store.eventEditOpen
      ensures store.eventViewOpen == old(store.eventViewOpen) && store.eventAddOpen == old(store.eventAddOpen)
      ensures store.eventDeleteOpen == old(store.eventDeleteOpen)
    {
      if isDrag && oldEvent.Some? {
        var reset := ResetEvent(oldEvent.value);
        store.DeleteEvent(oldEvent.value.id);
        store.AddEvent(reset);
      }
      store.SetEventEditOpen(false);
    }

    /**
     * onSubmit with the values the schema accepted: every event with the
     * edited numeric id is removed, the new event is appended, and the
     * dialog closes.
     */
    method Submit(data: EditValues, serialized: string)
      requires Issues(data) == []
      modifies store
      ensures store.events == Without(old(store.events), data.id.value) + [SavedEvent(data, serialized)]
      ensures !store.eventEditOpen
      ensures store.eventViewOpen == old(store.eventViewOpen) && store.eventAddOpen == old(store.eventAddOpen)
      ensures store.eventDeleteOpen == old(store.eventDeleteOpen)
    {
      var saved := SavedEvent(data, serialized);
      store.DeleteEvent(data.id.value);
      store.AddEvent(saved);
      store.SetEventEditOpen(false);
    }
  }
}
