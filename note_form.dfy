/**
 * The note form of the notes calendar: its schema, the values it starts
 * from (an existing note's, or empty ones around the selected date with a
 * one-hour default span), the reset when a note is loaded, and a submit
 * that prefers the multi-select's attendees and always clears its loading
 * flag.  JSON.parse of the stored description and JSON.stringify of the
 * editor content are inputs; the selected date's projection to India
 * Standard Time is an input too.
 */
module NoteForm {
  import opened Wrappers
  import opened JsValue
  import opened Clock
  import opened NoteTypes

  /** The form's values; None is a field the form does not have. */
  datatype NoteValues = NoteValues(title: Option<string>, note: Option<string>, startTime: Option<DateTime>,
                                   endTime: Option<DateTime>, attendees: Option<seq<string>>,
                                   tags: Option<seq<string>>)

  /** The fields of a stored note the form reads, its start and end strings already parsed. */
  datatype InitialNote = InitialNote(title: string, note: string, startTime: DateTime, endTime: DateTime,
                                     attendees: seq<User>, tags: Option<seq<Tag>>)

  const TitleRequired := "Title is required"
  const NoteRequired := "Note content is required"
  const StartRequired := "Start time is required"
  const EndRequired := "End time is required"
  const AttendeeRequired := "At least one attendee is required"

  /** One required string field: zod's "Required" when missing, the field's message when empty. */
  function TextIssue(s: Option<string>, message: string): (r: seq<string>)
    ensures s.None? ==> r == ["Required"]
    ensures s == Some("") ==> r == [message]
    ensures s.Some? && s.value != "" ==> r == []
    ensures forall x :: x in r ==> x == message || x == "Required"
  {
    if s.None? then ["Required"] else if s.value == "" then [message] else []
  }

  /**
   * FormSchema's messages: a non-empty title and note, a start and an end
   * date, and at least one attendee; a missing string or list gets zod's
   * "Required".  Tags are optional.
   */
  function Issues(v: NoteValues): (r: seq<string>)
    ensures r == [] <==> (v.title.Some? && v.title.value != "" && v.note.Some? && v.note.value != "" &&
                          v.startTime.Some? && v.endTime.Some? && v.attendees.Some? && |v.attendees.value| >= 1)
  {
    TextIssue(v.title, TitleRequired) + TextIssue(v.note, NoteRequired) + DateIssues(v) + AttendeeIssue(v.attendees)
  }

  function DateIssues(v: NoteValues): (r: seq<string>)
    ensures StartRequired in r <==> v.startTime.None?
    ensures EndRequired in r <==> v.endTime.None?
    ensures forall x :: x in r ==> x == StartRequired || x == EndRequired
    ensures r == [] <==> v.startTime.Some? && v.endTime.Some?
  {
    (if v.startTime.None? then [StartRequired] else []) + (if v.endTime.None? then [EndRequired] else [])
  }

  function AttendeeIssue(a: Option<seq<string>>): (r: seq<string>)
    ensures a.None? ==> r == ["Required"]
    ensures a == Some([]) ==> r == [AttendeeRequired]
    ensures a.Some? && a.value != [] ==> r == []
    ensures forall x :: x in r ==> x == AttendeeRequired || x == "Required"
  {
    if a.None? then ["Required"] else if a.value == [] then [AttendeeRequired] else []
  }

  /** Each message of the schema appears exactly when its rule fails. */
  lemma IssueMessages(v: NoteValues)
    ensures TitleRequired in Issues(v) <==> v.title == Some("")
    ensures NoteRequired in Issues(v) <==> v.note == Some("")
    ensures StartRequired in Issues(v) <==> v.startTime.None?
    ensures EndRequired in Issues(v) <==> v.endTime.None?
    ensures AttendeeRequired in Issues(v) <==> v.attendees == Some([])
    ensures "Required" in Issues(v) <==> v.title.None? || v.note.None? || v.attendees.None?
  {
    TextMessages(v);
    DateMessages(v);
    AttendeeMessages(v);
  }

  lemma TextMessages(v: NoteValues)
    ensures TitleRequired in Issues(v) <==> v.title == Some("")
    ensures NoteRequired in Issues(v) <==> v.note == Some("")
  {
    IssueParts(v);
    MessagesDistinct();
  }

  lemma DateMessages(v: NoteValues)
    ensures StartRequired in Issues(v) <==> v.startTime.None?
    ensures EndRequired in Issues(v) <==> v.endTime.None?
  {
    IssueParts(v);
    MessagesDistinct();
  }

  lemma AttendeeMessages(v: NoteValues)
    ensures AttendeeRequired in Issues(v) <==> v.attendees == Some([])
    ensures "Required" in Issues(v) <==> v.title.None? || v.note.None? || v.attendees.None?
  {
    IssueParts(v);
    MessagesDistinct();
  }

  /** A message is in the list exactly when one of its four parts holds it. */
  lemma IssueParts(v: NoteValues)
    ensures forall x :: x in Issues(v) <==>
      (x in TextIssue(v.title, TitleRequired) || x in TextIssue(v.note, NoteRequired) ||
       x in DateIssues(v) || x in AttendeeIssue(v.attendees))
  {
    var title := TextIssue(v.title, TitleRequired);
    var note := TextIssue(v.note, NoteRequired);
    var dates := DateIssues(v);
    var attendees := AttendeeIssue(v.attendees);
    assert Issues(v) == title + note + dates + attendees;
  }

  /** The six messages differ already in their first letter. */
  lemma MessagesDistinct()
    ensures |{"Required", TitleRequired, NoteRequired, StartRequired, EndRequired, AttendeeRequired}| == 6
  {
    assert "Required"[0] == 'R' && TitleRequired[0] == 'T' && NoteRequired[0] == 'N';
    assert StartRequired[0] == 'S' && EndRequired[0] == 'E' && AttendeeRequired[0] == 'A';
  }

  /** `initialNote.tags?.map(tag => tag.id) || []`. */
  function InitialTagIds(n: InitialNote): (ids: seq<string>)
    ensures n.tags.None? ==> ids == []
    ensures n.tags.Some? ==> ids == TagIds(n.tags.value)
  {
    if n.tags.Some? then TagIds(n.tags.value) else []
  }

  /**
   * useForm's defaultValues.  The title and note fall back to "" (an empty
   * stored string is falsy too); the start is defaultStartTime, else the
   * projected selected date; the end is defaultEndTime, else one hour after
   * the projected date.  Each override stands on its own.
   */
  function Defaults(initial: Option<InitialNote>, projected: DateTime,
                    defaultStart: Option<DateTime>, defaultEnd: Option<DateTime>): (v: NoteValues)
    requires projected.Valid()
    ensures v.startTime == Some(if defaultStart.Some? then defaultStart.value else projected)
    ensures defaultEnd.Some? ==> v.endTime == defaultEnd
    ensures v.endTime.Some? && (defaultEnd.None? ==> v.endTime.value.Valid())
    ensures defaultEnd.None? ==> Stamp(v.endTime.value) == Stamp(projected) + 3600000
    ensures v.title == Some(if initial.Some? then initial.value.title else "")
    ensures v.note == Some(if initial.Some? then initial.value.note else "")
    ensures v.attendees == Some(if initial.Some? then UserIds(initial.value.attendees) else [])
    ensures v.tags == Some(if initial.Some? then InitialTagIds(initial.value) else [])
  {
    NoteValues(
      Some(if initial.Some? && initial.value.title != "" then initial.value.title else ""),
      Some(if initial.Some? && initial.value.note != "" then initial.value.note else ""),
      Some(if defaultStart.Some? then defaultStart.value else projected),
      Some(if defaultEnd.Some? then defaultEnd.value else AddOneHour(projected)),
      Some(if initial.Some? then UserIds(initial.value.attendees) else []),
      Some(if initial.Some? then InitialTagIds(initial.value) else []))
  }

  /** With neither default time given, the form opens on a one-hour span starting at the selected date. */
  lemma DefaultSpanIsOneHour(initial: Option<InitialNote>, projected: DateTime)
    requires projected.Valid()
    ensures Defaults(initial, projected, None, None).startTime == Some(projected)
    ensures Stamp(Defaults(initial, projected, None, None).endTime.value)
            - Stamp(Defaults(initial, projected, None, None).startTime.value) == 3600000
  {
  }

  /** A new form (no stored note) is never accepted as it opens: the title and note are empty. */
  lemma NewFormNeedsTitleAndNote(projected: DateTime, defaultStart: Option<DateTime>, defaultEnd: Option<DateTime>)
    requires projected.Valid()
    ensures TitleRequired in Issues(Defaults(None, projected, defaultStart, defaultEnd))
    ensures NoteRequired in Issues(Defaults(None, projected, defaultStart, defaultEnd))
    ensures AttendeeRequired in Issues(Defaults(None, projected, defaultStart, defaultEnd))
  {
    IssueMessages(Defaults(None, projected, defaultStart, defaultEnd));
  }

  /**
   * A new form becomes acceptable once a title, a note and an attendee are
   * entered: the default times already pass.
   */
  lemma NewFormFilledAccepted(projected: DateTime, defaultStart: Option<DateTime>, defaultEnd: Option<DateTime>,
                              title: string, note: string, attendees: seq<string>)
    requires projected.Valid() && title != "" && note != "" && attendees != []
    ensures Issues(Defaults(None, projected, defaultStart, defaultEnd).(title := Some(title), note := Some(note),
                                                                       attendees := Some(attendees))) == []
  {
  }

  /** The values the reset effect loads from a stored note. */
  function Loaded(n: InitialNote): (v: NoteValues)
    ensures v.title == Some(n.title) && v.note == Some(n.note)
    ensures v.startTime == Some(n.startTime) && v.endTime == Some(n.endTime)
    ensures v.attendees == Some(UserIds(n.attendees)) && v.tags == Some(InitialTagIds(n))
  {
    NoteValues(Some(n.title), Some(n.note), Some(n.startTime), Some(n.endTime),
               Some(UserIds(n.attendees)), Some(InitialTagIds(n)))
  }

  /** A loaded note passes the schema exactly when its title and text are non-empty and it has an attendee. */
  lemma LoadedAccepted(n: InitialNote)
    ensures Issues(Loaded(n)) == [] <==> n.title != "" && n.note != "" && |n.attendees| >= 1
  {
  }

  /** The submitted attendees: the multi-select's when it has any, else the form's own. */
  function SubmittedAttendees(selected: seq<string>, formAttendees: seq<string>): (r: seq<string>)
    ensures |selected| > 0 ==> r == selected
    ensures |selected| == 0 ==> r == formAttendees
  {
    if |selected| > 0 then selected else formAttendees
  }

  /** Once the schema has accepted the form, the submitted attendee list is never empty. */
  lemma SubmittedAttendeesNonEmpty(v: NoteValues, selected: seq<string>)
    requires Issues(v) == []
    ensures |SubmittedAttendees(selected, v.attendees.value)| >= 1
  {
  }

  /** What handleSubmit hands to onSubmit. */
  datatype Payload = Payload(title: string, note: string, startTime: DateTime, endTime: DateTime,
                             attendees: seq<string>, tags: seq<string>)

  class Form {
    var values: NoteValues
    var description: Value
    var selectedUsers: seq<string>
    var selectedTags: seq<string>
    var submitLoading: bool

    /**
     * Mounting: the defaults, the parsed stored description (or "" when
     * there is no stored note text), and the stored note's attendee and tag
     * ids as the selections.
     */
    constructor(initial: Option<InitialNote>, parsed: Value, projected: DateTime,
                defaultStart: Option<DateTime>, defaultEnd: Option<DateTime>)
      requires projected.Valid()
      ensures values == Defaults(initial, projected, defaultStart, defaultEnd)
      ensures description == (if initial.Some? && initial.value.note != "" then parsed else Str(""))
      ensures selectedUsers == (if initial.Some? then UserIds(initial.value.attendees) else [])
      ensures selectedTags == (if initial.Some? then InitialTagIds(initial.value) else [])
      ensures !submitLoading
    {
      values := Defaults(initial, projected, defaultStart, defaultEnd);
      description := if initial.Some? && initial.value.note != "" then parsed else Str("");
      selectedUsers := if initial.Some? then UserIds(initial.value.attendees) else [];
      selectedTags := if initial.Some? then InitialTagIds(initial.value) else [];
      submitLoading := false;
    }

    /**
     * The effect on a new stored note: its title, times, attendee ids and
     * tag ids go into the form and the selections, its parsed text into
     * the editor.
     */
    method LoadInitialNote(n: InitialNote, parsed: Value)
      modifies this
      ensures values == Loaded(n) && description == parsed
      ensures selectedUsers == UserIds(n.attendees) && selectedTags == InitialTagIds(n)
      ensures submitLoading == old(submitLoading)
    {
      values := Loaded(n);
      description := parsed;
      selectedUsers := UserIds(n.attendees);
      selectedTags := InitialTagIds(n);
    }

    /** The title input's onChange: the form's title takes the typed text. */
    method SetTitle(title: string)
      modifies this
      ensures values == old(values).(title := Some(title))
      ensures description == old(description) && selectedUsers == old(selectedUsers)
      ensures selectedTags == old(selectedTags) && submitLoading == old(submitLoading)
    {
      values := values.(title := Some(title));
    }

    /** The start picker's setDate, which is the field's onChange. */
    method SetStartTime(t: DateTime)
      modifies this
      ensures values == old(values).(startTime := Some(t))
      ensures description == old(description) && selectedUsers == old(selectedUsers)
      ensures selectedTags == old(selectedTags) && submitLoading == old(submitLoading)
    {
      values := values.(startTime := Some(t));
    }

    /** The end picker's setDate, which is the field's onChange. */
    method SetEndTime(t: DateTime)
      modifies this
      ensures values == old(values).(endTime := Some(t))
      ensures description == old(description) && selectedUsers == old(selectedUsers)
      ensures selectedTags == old(selectedTags) && submitLoading == old(submitLoading)
    {
      values := values.(endTime := Some(t));
    }

    /**
     * The editor's onChange: the editor keeps the new content and the
     * form's `note` becomes its JSON text (serialized, given).
     */
    method SetDescription(content: Value, serialized: string)
      modifies this
      ensures description == content && values == old(values).(note := Some(serialized))
      ensures selectedUsers == old(selectedUsers) && selectedTags == old(selectedTags)
      ensures submitLoading == old(submitLoading)
    {
      description := content;
      values := values.(note := Some(serialized));
    }

    /** The attendee multi-select: both the selection and the form's `attendees` take the new ids. */
    method SetSelectedUsers(ids: seq<string>)
      modifies this
      ensures selectedUsers == ids && values == old(values).(attendees := Some(ids))
      ensures description == old(description)
      ensures selectedTags == old(selectedTags) && submitLoading == old(submitLoading)
    {
      selectedUsers := ids;
      values := values.(attendees := Some(ids));
    }

    /** The tag multi-select: only the selection changes; the form's `tags` keeps its default. */
    method SetSelectedTags(ids: seq<string>)
      modifies this
      ensures selectedTags == ids && values == old(values) && description == old(description)
      ensures selectedUsers == old(selectedUsers) && submitLoading == old(submitLoading)
    {
      selectedTags := ids;
    }

    /**
     * handleSubmit for values the schema accepted.  serialized is
     * JSON.stringify of the editor content and threw whether onSubmit
     * threw.  The payload is built and sent while the loading flag is on
     * (loadingWhileSent), and the flag is off again afterwards, thrown or
     * not; a throw is passed on to the caller (rethrown).
     */
    method HandleSubmit(data: NoteValues, serialized: string, threw: bool)
      returns (payload: Payload, loadingWhileSent: bool, rethrown: bool)
      requires Issues(data) == []
      modifies this
      ensures payload == Payload(data.title.value, serialized, data.startTime.value, data.endTime.value,
                                 SubmittedAttendees(selectedUsers, data.attendees.value), selectedTags)
      ensures |payload.attendees| >= 1
      ensures loadingWhileSent && !submitLoading && rethrown == threw
      ensures values == old(values) && description == old(description)
      ensures selectedUsers == old(selectedUsers) && selectedTags == old(selectedTags)
    {
      submitLoading := true;
      payload := Payload(data.title.value, serialized, data.startTime.value, data.endTime.value,
                         SubmittedAttendees(selectedUsers, data.attendees.value), selectedTags);
      loadingWhileSent := submitLoading;
      SubmittedAttendeesNonEmpty(data, selectedUsers);
      rethrown := threw;
      submitLoading := false;
    }
  }
}
