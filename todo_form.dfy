/**
 * The todo form: its validation schema, the initial selections taken from
 * the todo being edited, the "Save as private" toggle with its alert
 * (private todos may carry neither assignees nor mentions), and the
 * create/update payloads sent on submit.
 */
module TodoForm {
  import opened Wrappers
  import opened JsValue
  import opened RichText
  import Clock
  import opened NoteTypes

  const TitleTooShort := "Todo must be at least 5 characters."
  const DueDateRequired := "Due date is required"
  const TooManyTags := "You can provide up to 10 tag values only."

  /** The todo being edited (absent when creating); `description` is the stored document, already parsed. */
  datatype TodoData = TodoData(
    id: Option<string>, title: Option<string>, description: Option<Value>,
    isPrivate: Option<bool>, dueDate: Option<Clock.DateTime>, status: Option<string>,
    assignedTo: Option<seq<User>>, tags: Option<seq<Tag>>)

  /** The values the form hands to its submit handler. */
  datatype TodoValues = TodoValues(
    todo: string, dueDate: Option<Clock.DateTime>, isPrivate: Option<bool>,
    tags: seq<string>, assignedTo: Option<seq<string>>)

  datatype Flag = Create | Update

  /** The mutation input: `createTodo` spreads the form values, `updateTodo` lists its fields. */
  datatype Payload =
    | CreateTodo(todo: string, dueDate: Option<Clock.DateTime>, isPrivate: Option<bool>,
                 description: Value, assignedTo: seq<string>, tags: seq<string>, mentions: set<Value>)
    | UpdateTodo(id: Option<string>, todo: string, dueDate: Option<Clock.DateTime>, isPrivate: Option<bool>,
                 status: Option<string>, description: Value, assignedTo: seq<string>, tags: seq<string>,
                 mentions: set<Value>)

  /** A JavaScript string's `length`: UTF-16 code units, two for a character above U+FFFF. */
  function CodeUnits(s: string): (n: nat)
    ensures |s| <= n <= 2 * |s|
    ensures (forall i :: 0 <= i < |s| ==> s[i] as int <= 0xFFFF) ==> n == |s|
  {
    if s == [] then 0 else (if s[0] as int > 0xFFFF then 2 else 1) + CodeUnits(s[1..])
  }

  /**
   * The schema's issues, in field order; the values are accepted exactly
   * when there are none.  zod's `min(5)` measures `length`, in code units.
   */
  function SchemaIssues(v: TodoValues): (issues: seq<string>)
    ensures issues == [] <==> CodeUnits(v.todo) >= 5 && v.dueDate.Some? && |v.tags| <= 10
    ensures TitleTooShort in issues <==> CodeUnits(v.todo) < 5
    ensures DueDateRequired in issues <==> v.dueDate.None?
    ensures TooManyTags in issues <==> |v.tags| > 10
  {
    (if CodeUnits(v.todo) < 5 then [TitleTooShort] else []) +
    (if v.dueDate.None? then [DueDateRequired] else []) +
    (if |v.tags| > 10 then [TooManyTags] else [])
  }

  /** Three characters outside the Basic Multilingual Plane are six code units: long enough for a title. */
  lemma AstralTitleLongEnough(dueDate: Clock.DateTime)
    ensures CodeUnits("\U{1F600}\U{1F600}\U{1F600}") == 6
    ensures SchemaIssues(TodoValues("\U{1F600}\U{1F600}\U{1F600}", Some(dueDate), None, [], None)) == []
  {
    var s := "\U{1F600}\U{1F600}\U{1F600}";
    assert s[1..][1..][1..] == [];
  }

  /**
   * The guard of the private toggle: Ok(true) when the description has a
   * mention or an assignee is selected, and the search's exception otherwise.
   */
  function PrivacyBlocked(doc: Value, users: seq<string>): (r: Result<bool, JsError>)
    ensures r.Err? <==> MentionIds(doc).Err?
    ensures r == Ok(false) <==> MentionIds(doc) == Ok({}) && users == []
  {
    var ids := MentionIds(doc);
    if ids.Err? then Err(ids.error) else Ok(ids.value != {} || users != [])
  }

  /** After the alert's Proceed, turning private on again is not blocked. */
  lemma ProceedUnblocks(doc: Value)
    requires WellFormed(doc) && Convert(doc).Ok?
    ensures PrivacyBlocked(Convert(doc).value, []) == Ok(false)
  {
    ConvertClearsMentionIds(doc);
  }

  /** When the toggle was blocked, the search succeeded, so Proceed's conversion does not throw. */
  lemma BlockedProceedConverts(doc: Value, users: seq<string>)
    requires WellFormed(doc) && !IsNullish(doc) && PrivacyBlocked(doc, users).Ok?
    ensures Convert(doc).Ok?
  {
    FindOkConvertOk(doc);
  }

  class Form {
    const data: Option<TodoData>
    const flag: Flag
    var description: Value
    var privateTodo: bool
    /** The form's own `isPrivate` value, which the checkbox shows and the payload sends. */
    var isPrivateField: bool
    var selectedUsers: seq<string>
    var selectedTags: seq<string>
    var openAlert: bool
    var submitLoading: bool
    /** The enclosing sheet, closed by `setOpen(false)` once a submit settles. */
    var sheetOpen: bool

    /** Initial state: selections are the ids of the todo's assignees and tags; private defaults to false. */
    constructor(data: Option<TodoData>, flag: Flag)
      ensures this.data == data && this.flag == flag
      ensures description == if data.Some? && data.value.description.Some? then data.value.description.value else Str("")
      ensures privateTodo == isPrivateField == (data.Some? && data.value.isPrivate == Some(true))
      ensures selectedUsers == if data.Some? && data.value.assignedTo.Some? then UserIds(data.value.assignedTo.value) else []
      ensures selectedTags == if data.Some? && data.value.tags.Some? then TagIds(data.value.tags.value) else []
      ensures !openAlert && !submitLoading && sheetOpen
    {
      this.data := data;
      this.flag := flag;
      var d := if data.Some? then data.value else TodoData(None, None, None, None, None, None, None, None);
      description := if d.description.Some? then d.description.value else Str("");
      privateTodo := d.isPrivate == Some(true);
      isPrivateField := d.isPrivate == Some(true);
      selectedUsers := if d.assignedTo.Some? then UserIds(d.assignedTo.value) else [];
      selectedTags := if d.tags.Some? then TagIds(d.tags.value) else [];
      openAlert := false;
      submitLoading := false;
      sheetOpen := true;
    }

    /**
     * The checkbox's onCheckedChange.  Turning private on searches the
     * description: with a mention or an assignee the alert opens and nothing
     * else changes; otherwise the flag is applied.  Turning it off always
     * applies.  A search that throws changes nothing.
     */
    method OnCheckedChange(value: bool) returns (thrown: bool)
      modifies this
      ensures description == old(description) && selectedUsers == old(selectedUsers)
      ensures selectedTags == old(selectedTags) && submitLoading == old(submitLoading) && sheetOpen == old(sheetOpen)
      ensures thrown <==> value && PrivacyBlocked(old(description), old(selectedUsers)).Err?
      ensures value && PrivacyBlocked(old(description), old(selectedUsers)) == Ok(true) ==>
        (openAlert && privateTodo == old(privateTodo) && isPrivateField == old(isPrivateField))
      ensures (!value || PrivacyBlocked(old(description), old(selectedUsers)) == Ok(false)) ==>
        (privateTodo == value && isPrivateField == value && openAlert == old(openAlert))
      ensures thrown ==> (privateTodo == old(privateTodo) && isPrivateField == old(isPrivateField) && openAlert == old(openAlert))
    {
      thrown := false;
      if value {
        var mentions := FindAllValuesByKey(description);
        if mentions.Err? {
          thrown := true;
        } else if mentions.value != {} || selectedUsers != [] {
          openAlert := true;
        } else {
          privateTodo := value;
          isPrivateField := value;
        }
      } else {
        privateTodo := value;
        isPrivateField := value;
      }
    }

    /** The alert's Cancel: the checkbox goes back to unchecked and the alert closes. */
    method Cancel()
      modifies this
      ensures !isPrivateField && !openAlert
      ensures description == old(description) && privateTodo == old(privateTodo)
      ensures selectedUsers == old(selectedUsers) && selectedTags == old(selectedTags)
      ensures submitLoading == old(submitLoading) && sheetOpen == old(sheetOpen)
    {
      isPrivateField := false;
      openAlert := false;
    }

    /**
     * The alert's Proceed (handleMentionTextConversion): mentions become
     * plain text, assignees are cleared and the todo becomes private.  When
     * the conversion throws, nothing changes.
     */
    method Proceed() returns (thrown: bool)
      modifies this
      ensures thrown <==> Convert(old(description)).Err?
      ensures thrown ==> (description == old(description) && privateTodo == old(privateTodo) &&
        isPrivateField == old(isPrivateField) && selectedUsers == old(selectedUsers) && openAlert == old(openAlert))
      ensures !thrown ==> (description == Convert(old(description)).value && selectedUsers == [] &&
        privateTodo && isPrivateField && !openAlert)
      ensures !thrown && WellFormed(old(description)) ==> NoMentions(description) && MentionIds(description) == Ok({})
      ensures selectedTags == old(selectedTags) && submitLoading == old(submitLoading) && sheetOpen == old(sheetOpen)
    {
      var text := Convert(description);
      if text.Err? {
        return true;
      }
      if WellFormed(description) {
        ConvertedHasNoMentions(description);
        ConvertClearsMentionIds(description);
      }
      description := text.value;
      selectedUsers := [];
      privateTodo := true;
      isPrivateField := true;
      openAlert := false;
      thrown := false;
    }

    /**
     * onSubmit for values the schema accepted: the mentions are searched
     * first (a throw sends nothing), then the loading flag is set and the
     * create or update input is built.  An update carries the todo's
     * existing status.
     */
    method Submit(values: TodoValues) returns (r: Result<Payload, JsError>)
      requires SchemaIssues(values) == []
      modifies this
      ensures r.Err? <==> MentionIds(old(description)).Err?
      ensures r.Ok? ==> submitLoading
      ensures r.Err? ==> submitLoading == old(submitLoading)
      ensures r.Ok? && flag == Create ==> MentionIds(description).Ok? && r.value == CreateTodo(values.todo, values.dueDate, values.isPrivate,
        description, selectedUsers, selectedTags, MentionIds(description).value)
      ensures r.Ok? && flag == Update ==> MentionIds(description).Ok? && r.value == UpdateTodo(
        if data.Some? then data.value.id else None, values.todo, values.dueDate, values.isPrivate,
        if data.Some? then data.value.status else None,
        description, selectedUsers, selectedTags, MentionIds(description).value)
      ensures description == old(description) && selectedUsers == old(selectedUsers) && selectedTags == old(selectedTags)
      ensures privateTodo == old(privateTodo) && isPrivateField == old(isPrivateField)
      ensures openAlert == old(openAlert) && sheetOpen == old(sheetOpen)
    {
      var mentions := FindAllValuesByKey(description);
      if mentions.Err? {
        return Err(mentions.error);
      }
      submitLoading := true;
      if flag == Create {
        r := Ok(CreateTodo(values.todo, values.dueDate, values.isPrivate,
                           description, selectedUsers, selectedTags, mentions.value));
      } else {
        var d := if data.Some? then data.value else TodoData(None, None, None, None, None, None, None, None);
        r := Ok(UpdateTodo(d.id, values.todo, values.dueDate, values.isPrivate, d.status,
                           description, selectedUsers, selectedTags, mentions.value));
      }
    }

    /** The mutation's `finally`, whether it succeeded or failed: loading ends and the sheet closes. */
    method Settle()
      modifies this
      ensures !submitLoading && !sheetOpen
      ensures description == old(description) && selectedUsers == old(selectedUsers) && selectedTags == old(selectedTags)
      ensures privateTodo == old(privateTodo) && isPrivateField == old(isPrivateField) && openAlert == old(openAlert)
    {
      submitLoading := false;
      sheetOpen := false;
    }
  }
}
