/**
 * The shared calendar event list and its four dialog flags.  Events are
 * appended one at a time or in a batch, and deleted by id, where ids are
 * compared as JavaScript numbers: `Number(event.id) !== Number(id)` keeps an
 * event, so an id that is not a numeral is NaN and never matches.
 */
module EventsContext {
  import opened Wrappers
  import opened JsValue
  import opened JsNumber
  import opened ArrayFilter

  /** What the note-add form sends to the server, and appends once the server has answered. */
  datatype NoteInput = NoteInput(title: string, note: string, startTime: int, endTime: int,
                                 attendees: seq<string>, tags: seq<string>, mentions: set<Value>)

  /**
   * The fields besides the id.  The edit form stores calendar entries
   * (title, serialised description, start, end, colour); the add form stores
   * the note input it sent.  Times are JavaScript time values.
   */
  datatype EventBody =
    | Entry(title: Option<string>, description: string, start: int, end: int, color: Option<string>)
    | Created(input: NoteInput)

  datatype Event = Event(id: string, body: EventBody)

  /** The deletion test: the two ids are the same number, NaN being the same as nothing. */
  predicate Matches(e: Event, id: string) {
    SameNumber(ToNumber(e.id), ToNumber(id))
  }

  /** `prevEvents.filter(event => Number(event.id) !== Number(id))`. */
  function Without(events: seq<Event>, id: string): (r: seq<Event>)
    ensures |r| <= |events|
    ensures forall e :: e in r <==> e in events && !Matches(e, id)
  {
    FilterBy(events, e => !Matches(e, id))
  }

  /** Deletion keeps the survivors' order. */
  lemma WithoutKeepsOrder(a: seq<Event>, b: seq<Event>, id: string)
    ensures Without(a + b, id) == Without(a, id) + Without(b, id)
  {
    FilterByKeepsOrder(a, b, e => !Matches(e, id));
  }

  lemma WithoutNoMatch(events: seq<Event>, id: string)
    requires forall e :: e in events ==> !Matches(e, id)
    ensures Without(events, id) == events
  {
    FilterByAll(events, e => !Matches(e, id));
  }

  /** Deleting the same id twice is deleting it once. */
  lemma DeleteIdempotent(events: seq<Event>, id: string)
    ensures Without(Without(events, id), id) == Without(events, id)
  {
    WithoutNoMatch(Without(events, id), id);
  }

  /** An id that is not a number deletes nothing. */
  lemma NaNIdDeletesNothing(events: seq<Event>, id: string)
    requires ToNumber(id).NaN?
    ensures Without(events, id) == events
  {
    WithoutNoMatch(events, id);
  }

  /** An event whose own id is not a number survives every deletion. */
  lemma NaNEventSurvives(events: seq<Event>, e: Event, id: string)
    requires e in events && ToNumber(e.id).NaN?
    ensures e in Without(events, id)
  {
  }

  /** Appending a batch one event at a time. */
  function AddEach(events: seq<Event>, batch: seq<Event>): seq<Event>
    decreases batch
  {
    if batch == [] then events else AddEach(events + [batch[0]], batch[1..])
  }

  /** addEvents(es) appends es in order, exactly as calling addEvent on each element does. */
  lemma {:induction false} AddEachIsBatch(events: seq<Event>, batch: seq<Event>)
    ensures AddEach(events, batch) == events + batch
    decreases batch
  {
    if batch != [] {
      AddEachIsBatch(events + [batch[0]], batch[1..]);
      assert (events + [batch[0]]) + batch[1..] == events + batch;
    }
  }

  const OutsideProvider := "useEvents must be used within an EventsProvider"

  class Store {
    var events: seq<Event>
    var eventViewOpen: bool
    var eventAddOpen: bool
    var eventEditOpen: bool
    var eventDeleteOpen: bool

    /** The provider's initial state: no events and every dialog closed. */
    constructor()
      ensures events == []
      ensures !eventViewOpen && !eventAddOpen && !eventEditOpen && !eventDeleteOpen
    {
      events := [];
      eventViewOpen := false;
      eventAddOpen := false;
      eventEditOpen := false;
      eventDeleteOpen := false;
    }

    /** addEvent: one event at the end, the earlier ones untouched. */
    method AddEvent(e: Event)
      modifies this
      ensures events == old(events) + [e]
      ensures eventViewOpen == old(eventViewOpen) && eventAddOpen == old(eventAddOpen)
      ensures eventEditOpen == old(eventEditOpen) && eventDeleteOpen == old(eventDeleteOpen)
    {
      events := events + [e];
    }

    /** addEvents: the batch at the end, in order. */
    method AddEvents(batch: seq<Event>)
      modifies this
      ensures events == old(events) + batch
      ensures events == AddEach(old(events), batch)
      ensures eventViewOpen == old(eventViewOpen) && eventAddOpen == old(eventAddOpen)
      ensures eventEditOpen == old(eventEditOpen) && eventDeleteOpen == old(eventDeleteOpen)
    {
      AddEachIsBatch(events, batch);
      events := events + batch;
    }

    /** deleteEvent: every event with the same numeric id goes, the rest stay in order. */
    method DeleteEvent(id: string)
      modifies this
      ensures events == Without(old(events), id)
      ensures eventViewOpen == old(eventViewOpen) && eventAddOpen == old(eventAddOpen)
      ensures eventEditOpen == old(eventEditOpen) && eventDeleteOpen == old(eventDeleteOpen)
    {
      events := Without(events, id);
    }

    method SetEventViewOpen(value: bool)
      modifies this
      ensures eventViewOpen == value && events == old(events)
      ensures eventAddOpen == old(eventAddOpen) && eventEditOpen == old(eventEditOpen) && eventDeleteOpen == old(eventDeleteOpen)
    {
      eventViewOpen := value;
    }

    method SetEventAddOpen(value: bool)
      modifies this
      ensures eventAddOpen == value && events == old(events)
      ensures eventViewOpen == old(eventViewOpen) && eventEditOpen == old(eventEditOpen) && eventDeleteOpen == old(eventDeleteOpen)
    {
      eventAddOpen := value;
    }

    method SetEventEditOpen(value: bool)
      modifies this
      ensures eventEditOpen == value && events == old(events)
      ensures eventViewOpen == old(eventViewOpen) && eventAddOpen == old(eventAddOpen) && eventDeleteOpen == old(eventDeleteOpen)
    {
      eventEditOpen := value;
    }

    method SetEventDeleteOpen(value: bool)
      modifies this
      ensures eventDeleteOpen == value && events == old(events)
      ensures eventViewOpen == old(eventViewOpen) && eventAddOpen == old(eventAddOpen) && eventEditOpen == old(eventEditOpen)
    {
      eventDeleteOpen := value;
    }
  }

  /** useEvents: the provider's store, or the error thrown when there is none above the caller. */
  function UseEvents(context: Option<Store>): (r: Result<Store, string>)
    ensures r.Err? <==> context.None?
    ensures r.Err? ==> r.error == OutsideProvider
    ensures r.Ok? ==> r.value == context.value
  {
    match context
    case None => Err(OutsideProvider)
    case Some(store) => Ok(store)
  }
}
