/**
 * The note-add sheet of the event calendar: its schema, the values it
 * resets to whenever the slot changes, and a submit that collects the
 * description's mentions, sends the note, and appends it to the shared
 * event list only once the server has given it an id.
 */
module EventAddForm {
  import opened Wrappers
  import opened JsValue
  import opened RichText
  import opened EventsContext

  /** The form's values; None is a field the form does not have. */
  datatype AddValues = AddValues(title: Option<string>, note: Option<string>, startTime: Option<int>,
                                 endTime: Option<int>, attendees: Option<seq<string>>, tags: Option<seq<string>>)

  const TitleRequired := "Please enter a title."
  const TitleEmpty := "Must provide a title for this event."
  const StartRequired := "Please select a start time"
  const EndRequired := "Please select an end time"

  /**
   * eventAddFormSchema's messages: a non-empty title and a start and an end
   * date.  The note, attendees and tags are optional, and the order of
   * start and end is not checked.
   */
  function Issues(v: AddValues): (r: seq<string>)
    ensures r == [] <==> v.title.Some? && v.title.value != "" && v.startTime.Some? && v.endTime.Some?
    ensures TitleRequired in r <==> v.title.None?
    ensures TitleEmpty in r <==> v.title == Some("")
    ensures StartRequired in r <==> v.startTime.None?
    ensures EndRequired in r <==> v.endTime.None?
  {
    (if v.title.None? then [TitleRequired] else if v.title.value == "" then [TitleEmpty] else []) +
    (if v.startTime.None? then [StartRequired] else []) +
    (if v.endTime.None? then [EndRequired] else [])
  }

  /** The values the form resets to for a slot: empty title and note, the slot's times, no attendees or tags. */
  function Defaults(start: int, end: int): (v: AddValues)
    ensures v.startTime == Some(start) && v.endTime == Some(end)
    ensures v.title == Some("") && v.note == Some("") && v.attendees == Some([]) && v.tags == Some([])
  {
    AddValues(Some(""), Some(""), Some(start), Some(end), Some([]), Some([]))
  }

  /** A freshly reset form is refused for its empty title alone, and accepted once a title is typed. */
  lemma DefaultsNeedTitle(start: int, end: int, title: string)
    requires title != ""
    ensures Issues(Defaults(start, end)) == [TitleEmpty]
    ensures Issues(Defaults(start, end).(title := Some(title))) == []
  {
  }

  /**
   * The note text sent: `JSON.stringify(description) || data?.note || ""`,
   * where serialized is the stringify result (None when it is undefined).
   */
  function NoteText(serialized: Option<string>, note: Option<string>): (t: string)
    ensures serialized.Some? && serialized.value != "" ==> t == serialized.value
    ensures (serialized.None? || serialized.value == "") && note.Some? ==> t == note.value
    ensures (serialized.None? || serialized.value == "") && note.None? ==> t == ""
  {
    if serialized.Some? && serialized.value != "" then serialized.value
    else if note.Some? && note.value != "" then note.value
    else ""
  }

  class Form {
    const store: Store
    var values: AddValues
    var description: Value
    var selectedUsers: seq<string>
    var selectedTags: seq<string>

    /**
     * Mounting for a slot: the description is the empty string, the
     * selections start empty (the form object has no attendees or tags to
     * take them from) and the reset effect loads the slot's defaults.
     */
    constructor(store: Store, start: int, end: int)
      ensures this.store == store && values == Defaults(start, end)
      ensures description == Str("") && selectedUsers == [] && selectedTags == []
    {
      this.store := store;
      values := Defaults(start, end);
      description := Str("");
      selectedUsers := [];
      selectedTags := [];
    }

    /** The effect on a new start or end: the form goes back to the defaults for that slot. */
    method Reset(start: int, end: int)
      modifies this
      ensures values == Defaults(start, end)
      ensures description == old(description) && selectedUsers == old(selectedUsers) && selectedTags == old(selectedTags)
    {
      values := Defaults(start, end);
    }

    method SetDescription(doc: Value)
      modifies this
      ensures description == doc && values == old(values)
      ensures selectedUsers == old(selectedUsers) && selectedTags == old(selectedTags)
    {
      description := doc;
    }

    method SetSelectedUsers(ids: seq<string>)
      modifies this
      ensures selectedUsers == ids && values == old(values)
      ensures description == old(description) && selectedTags == old(selectedTags)
    {
      selectedUsers := ids;
    }

    method SetSelectedTags(ids: seq<string>)
      modifies this
      ensures selectedTags == ids && values == old(values)
      ensures description == old(description) && selectedUsers == old(selectedUsers)
    {
      selectedTags := ids;
    }

    /**
     * onSubmit for values the schema accepted.  The mentions are collected
     * first, and a throw there sends nothing.  Otherwise the input carries the
     * form's title and times, the selections, and the mentions; serverId is
     * the id createNote answers with, None when it fails.  Only with an id
     * is the note, carrying that id, appended to the event list and the
     * sheet closed; on failure the list and the sheet stay as they are.
     */
    method Submit(data: AddValues, serialized: Option<string>, serverId: Option<string>)
      returns (sent: Result<NoteInput, JsError>)
      requires Issues(data) == []
      modifies store
      ensures sent.Err? <==> MentionIds(description).Err?
      ensures sent.Ok? ==> MentionIds(description).Ok? && sent.value == NoteInput(
        data.title.value, NoteText(serialized, data.note), data.startTime.value, data.endTime.value,
        selectedUsers, selectedTags, MentionIds(description).value)
      ensures sent.Ok? && serverId.Some? ==>
        (store.events == old(store.events) + [Event(serverId.value, Created(sent.value))] && !store.eventAddOpen)
      ensures sent.Err? || serverId.None? ==>
        (store.events == old(store.events) && store.eventAddOpen == old(store.eventAddOpen))
      ensures store.eventViewOpen == old(store.eventViewOpen) && store.eventEditOpen == old(store.eventEditOpen)
      ensures store.eventDeleteOpen == old(store.eventDeleteOpen)
    {
      var mentions := FindAllValuesByKey(description);
      if mentions.Err? {
        return Err(mentions.error);
      }
      var input := NoteInput(data.title.value, NoteText(serialized, data.note), data.startTime.value,
                             data.endTime.value, selectedUsers, selectedTags, mentions.value);
      sent := Ok(input);
      if serverId.Some? {
        store.AddEvent(Event(serverId.value, Created(input)));
        store.SetEventAddOpen(false);
      }
    }
  }
}
