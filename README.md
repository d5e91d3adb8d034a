# todo_note — a verified model of the calendar, notes and todo logic

This project models the stateful and computational core of the todo_note
front-end in Dafny, and proves properties of that model. The front-end is a
React and TypeScript app with a notes calendar, an event calendar and a todo
list. The model covers:

- **Calendar grid.** Which notes go to which day column, and where each note's box goes. The layout is count-based: 10 side by side in day view, 2 in week view, then a "+N" box. The model also covers the note card's height and its "Xh Ym" label, and the half-hour slots that a click turns into a 30-minute range.
- **Todo status.** The table of allowed moves, the options it enables, and the update that takes effect after the server answers.
- **Rich-text mentions.** The tiptap document is a JSON tree. `findAllValuesByKey` collects mention ids, and `convertMentionsToText` rewrites mention nodes into text nodes. The todo form's privacy toggle builds on both.
- **Mention picker.** The cyclic highlight, the key handling, the pick payload, and the first-five, prefix-matching suggestion filter.
- **Shared event list.** Append, batch append, and delete by id, where ids are compared with JavaScript's `Number()`. Edit is delete-then-append, and cancelling after a drag puts the old event back.
- **Filters.** The note filter's snapshots and created-by toggle. The todo filter bar's single shared selection, query building and reset.
- **Note forms.** The zod schemas, the default times, the attendee fallback and the loading flag. The date-time picker's keep-the-time and keep-the-date merges, its disabled days and its AM/PM default.
- **Add-note sheet and notes page.** Controlled versus uncontrolled opening, the `onClose` calls, and how a clicked slot reaches the form.

One module per source file, plus shared modules:

- `Wrappers`: Option and Result.
- `Clock`: local `Date` fields with the MakeDay overflow of ECMAScript's setters.
- `JsValue`: JSON values with JavaScript property reads.
- `JsNumber`: `Number()` on strings, following the StringNumericLiteral grammar of section 7.1.4.1.1 of ECMA-262.
- `RichText`: the mention search and rewrite shared by two forms.
- `NoteTypes`: the note, user and tag records.
- `ArrayFilter`: `Array.prototype.filter` with a test that does not throw.

Stateful components are classes whose fields are the React state. Their
methods are the handlers, and each method states the whole new state. Pure
expressions are functions, and lemmas relate them.

The calendar layout is count-based. The box width comes from the per-view
cap, and week view features `dayNotes[0]`. Notes are neither grouped by
overlap nor ordered by length.

## Model

| member | source | states |
|---|---|---|
| CalendarView.MaxNotes | src/pages/notes/components/calendar-view.tsx:83 | the cap is 10 in day view and 2 in week view |
| CalendarView.Top | src/pages/notes/components/calendar-view.tsx:93 | a clock time h:m with h < 24, m < 60 lies in [0, 2400) px |
| CalendarView.TopKeepsOrder | src/pages/notes/components/calendar-view.tsx:93 | a later clock time is placed strictly lower |
| CalendarView.Height | src/pages/notes/components/calendar-view.tsx:94 | never above 50 px; 0 for a zero-length note; exactly 50 from 30 minutes on; non-negative for non-negative durations |
| CalendarView.HeightMonotone | src/pages/notes/components/calendar-view.tsx:94 | a longer note is never shorter |
| CalendarView.NotesForDay | src/pages/notes/components/calendar-view.tsx:49-57 | a note is in a day's list iff its start's IST date is that day (the end is ignored) |
| CalendarView.NotesForDayKeepsOrder | src/pages/notes/components/calendar-view.tsx:50 | the per-day filter keeps input order (distributes over concatenation) |
| CalendarView.OneColumnPerNote | src/pages/notes/components/calendar-view.tsx:49-57 | a note lands in at most one day column |
| CalendarView.Layout | src/pages/notes/components/calendar-view.tsx:81-188 | up to the cap: one box per note at left index*100/max %, width 100/max %; day view past 10: the first ten; week view past 2: dayNotes[0] at left 0, width 50 %, plus a "+(count-1)" box at 50 % with the same top and height |
| CalendarView.LayoutFitsColumn | src/pages/notes/components/calendar-view.tsx:83-96 | every box stays in [0, 100] %, boxes are pairwise disjoint horizontally, and valid notes get tops in [0, 2400) and heights at most 50 |
| CalendarView.RenderDay | src/pages/notes/components/calendar-view.tsx:81-82 | every note box in a day's column is one of the given notes and belongs to that day; no notes give no boxes |
| CalendarView.CurrentTimePosition | src/pages/notes/components/calendar-view.tsx:60-64 | the current-time line uses the same formula as note tops and lies in [0, 2400) |
| Clock.ToIST | src/pages/notes/components/calendar-view.tsx:74-76 | the IST reading of an instant in a browser at a fixed UTC offset: the wall clock shifted by (330 - offset) minutes with the milliseconds dropped, and unchanged apart from the milliseconds in an IST browser |
| CalendarView.HandleTimeSlotClick | src/pages/notes/components/calendar-view.tsx:66-78 | the IST projections of the day and of a local start at hour:00 or hour:30 and an end 30 minutes later; in an IST browser the start is the day at that time |
| CalendarView.SlotEastOfIst | src/pages/notes/components/calendar-view.tsx:74-76 | in any year, the first cell of 1 April clicked at UTC+9 reads as 31 March, 20:30 to 21:00 |
| CalendarView.SlotClick | src/pages/notes/components/calendar-view.tsx:229-231 | cell i < 48 gives a start i half-hours after the day's local midnight, shifted to IST, and a 30-minute range; in an IST browser hour i/2 and minute 0 or 30 by parity on the day itself |
| NoteCard.NotePosition | src/pages/notes/components/note-card.tsx:47-67 | top is 0; height is 100*(endH-startH) + (100/60)*(endM-startM), negative iff the end's clock time precedes the start's, zero iff they are equal |
| NoteCard.JsRem | src/pages/notes/components/note-card.tsx:76 | JavaScript's truncating `%`: sign of the dividend, magnitude below the divisor |
| NoteCard.DurationSplit | src/pages/notes/components/note-card.tsx:74-76 | for a non-negative duration, minutes lie in 0..59 and hours*60 + minutes = floor(ms/60000) |
| NoteCard.NegativeDurationSplit | src/pages/notes/components/note-card.tsx:74-77 | a duration of -1 minute shows as "-1h -1m" |
| NoteCard.NegativeDurationSplitAll | src/pages/notes/components/note-card.tsx:74-76 | a negative duration has negative hours; whole hours give 0 minutes, otherwise minutes lie in -60..-1 and hours*60 + minutes = floor(ms/60000) - 60 |
| NoteCard.DigitsRoundTrip | src/pages/notes/components/note-card.tsx:77 | the numeral printed for a number reads back as that number |
| NoteCard.DurationText | src/pages/notes/components/note-card.tsx:77 | for a non-negative duration the label is the unsigned numerals of the split's hours and minutes, `{h}h {m}m` |
| NoteCard.NegativeDurationText | src/pages/notes/components/note-card.tsx:74-77 | a negative duration prints "-{H}h 0m" for whole hours, else "-{H}h -{M}m", with both numbers negative |
| NoteCard.Card.constructor | src/pages/notes/components/note-card.tsx:42-45 | both dialogs closed; the card remembers whether onEdit and onDelete were passed |
| NoteCard.Card.HandleDelete | src/pages/notes/components/note-card.tsx:82-85 | with onDelete, it receives exactly the note's id and the delete dialog closes; without it (as the calendar renders cards, calendar-view.tsx:109), a TypeError and the dialog stays |
| NoteCard.Card.HandleEdit | src/pages/notes/components/note-card.tsx:87-90 | with onEdit, it receives the note and the details dialog closes; without it, a TypeError and the dialog stays |
| NoteCard.Card.Trash | src/pages/notes/components/note-card.tsx:128-131 | the details dialog closes and the delete dialog opens |
| NoteCard.Card.Click | src/pages/notes/components/note-card.tsx:100-104 | a click on the card opens the details dialog |
| NoteCard.Card.SetShowDialog | src/pages/notes/components/note-card.tsx:112 | only the details dialog's flag changes |
| NoteCard.Card.SetShowDeleteDialog | src/pages/notes/components/note-card.tsx:217 | only the delete dialog's flag changes |
| StatusDropdown.Parse | src/pages/todo/components/status-dropdown.tsx:33-50 | a name parses iff it is one of the five keys, to the status of that name |
| StatusDropdown.Moves | src/pages/todo/components/status-dropdown.tsx:33-50 | no self-moves, no move to notStarted, completed is the only terminal status and is reachable in one step from every other |
| StatusDropdown.Options | src/pages/todo/components/status-dropdown.tsx:71-94 | the four options in menu order, each enabled iff the table allows the move; an unknown status throws, an inherited property name disables all |
| StatusDropdown.OfferedTargets | src/pages/todo/components/status-dropdown.tsx:71-94 | overdue is never offered, and from completed every option is disabled |
| StatusDropdown.Dropdown.constructor | src/pages/todo/components/status-dropdown.tsx:30 | the dropdown holds the todo's id and the parent's status |
| StatusDropdown.Dropdown.HandleStatusSelect | src/pages/todo/components/status-dropdown.tsx:52-58 | the request carries the todo id and the value; the local status becomes the value only when the server resolves |
| RichText.FindAllValuesByKey | src/pages/todo/components/todo-form.tsx:119-140 | the result is the mention-id set: every id comes from a reachable mention node and every reachable mention node's `attrs.user_id` is in it; it throws iff some reachable object has a `type: "mention"` entry and nullish `attrs` |
| RichText.SearchThrowsIff | src/pages/todo/components/todo-form.tsx:119-140 | the search throws iff a reachable object has a `type: "mention"` entry and nullish `attrs` |
| RichText.IdsComeFromMentionNodes | src/pages/todo/components/todo-form.tsx:127-130 | every collected id is the `attrs.user_id` of a reachable node whose `type` is "mention" |
| RichText.MentionNodesFound | src/pages/todo/components/todo-form.tsx:122-135 | every reachable mention node's id is collected, at any depth, inside arrays or objects |
| RichText.Convert | src/pages/todo/components/todo-form.tsx:142-161 | null or undefined throws; a conversion keeps the value's kind; a primitive is returned as it is |
| RichText.MentionNode | src/pages/todo/components/todo-form.tsx:146-150 | a mention node throws iff its attrs is nullish, else is rewritten |
| RichText.RewriteMention | src/pages/todo/components/todo-form.tsx:147-149 | `type` becomes "text", `text` becomes the old `attrs.id`, `attrs` is gone, every other key is unchanged |
| RichText.ConvertedHasNoMentions | src/pages/todo/components/todo-form.tsx:142-161 | after a conversion no mention node is left |
| RichText.ConvertClearsMentionIds | src/pages/todo/components/todo-form.tsx:119-161 | after a conversion the search finds no ids |
| RichText.ConvertIdempotent | src/pages/todo/components/todo-form.tsx:142-161 | converting a converted document changes nothing |
| RichText.NoMentionsConvertIdentity | src/pages/todo/components/todo-form.tsx:145-156 | a document without mention nodes converts to itself |
| RichText.FindOkConvertOk | src/pages/todo/components/todo-form.tsx:119-161 | when the search does not throw, the conversion does not either |
| TodoForm.CodeUnits | src/pages/todo/components/todo-form.tsx:48 | a string's UTF-16 length lies between its character count and twice it, and equals the count when no character is above U+FFFF |
| TodoForm.SchemaIssues | src/pages/todo/components/todo-form.tsx:47-58 | accepted iff the title has at least 5 UTF-16 code units, a due date is given and there are at most 10 tags; each message appears iff its rule fails |
| TodoForm.AstralTitleLongEnough | src/pages/todo/components/todo-form.tsx:48 | a title of three emoji is 6 code units long and passes the 5-character minimum |
| TodoForm.PrivacyBlocked | src/pages/todo/components/todo-form.tsx:272-280 | the toggle is unblocked iff the description has no mentions and no assignee is selected; it throws iff the search throws |
| TodoForm.ProceedUnblocks | src/pages/todo/components/todo-form.tsx:207-213 | after Proceed, turning private on is no longer blocked |
| TodoForm.BlockedProceedConverts | src/pages/todo/components/todo-form.tsx:272-280 | a blocked toggle means the search succeeded, so Proceed's conversion does not throw |
| TodoForm.Form.constructor | src/pages/todo/components/todo-form.tsx:96-105 | selections are the ids of the todo's assignees and tags; private defaults to false |
| TodoForm.Form.OnCheckedChange | src/pages/todo/components/todo-form.tsx:272-284 | turning private on is blocked (alert open, flag unchanged) with mentions or assignees, applied otherwise; turning off always applies |
| TodoForm.Form.Cancel | src/pages/todo/components/todo-form.tsx:310-311 | the checkbox returns to unchecked |
| TodoForm.Form.Proceed | src/pages/todo/components/todo-form.tsx:207-213 | the todo is private, assignees are cleared and the description has no mention left |
| TodoForm.Form.Submit | src/pages/todo/components/todo-form.tsx:163-205 | create spreads the form values; update carries the todo's id and existing status; both carry the selections and the mentions found at submit time |
| TodoForm.Form.Settle | src/pages/todo/components/todo-form.tsx:178-181 | the loading flag clears and the sheet closes, success or not |
| MentionList.Up | src/components/minimal-tiptap/components/mentions/mention-list.tsx:24-26 | stays in [0, n); from 0 wraps to n-1; from 0 < i < n goes to i-1; an empty list or a NaN index gives NaN |
| MentionList.Down | src/components/minimal-tiptap/components/mentions/mention-list.tsx:28-30 | stays in [0, n); from n-1 wraps to 0; from i < n-1 goes to i+1; an empty list or a NaN index gives NaN |
| MentionList.UpDownInverse | src/components/minimal-tiptap/components/mentions/mention-list.tsx:24-30 | up then down, and down then up, return to the same index |
| MentionList.MentionAttrs | src/components/minimal-tiptap/components/mentions/mention-list.tsx:16-20 | the payload keeps the item's fields, sets `user_id` to its id and `id` to "lastName, firstName" |
| MentionList.SelectItem | src/components/minimal-tiptap/components/mentions/mention-list.tsx:12-15 | a command is issued iff the index names an item |
| MentionList.Picker.constructor | src/components/minimal-tiptap/components/mentions/mention-list.tsx:10 | the highlight starts on the first item |
| MentionList.Picker.Click | src/components/minimal-tiptap/components/mentions/mention-list.tsx:69-71 | a click on button i issues the command SelectItem gives for index i |
| MentionList.Picker.SetItems | src/components/minimal-tiptap/components/mentions/mention-list.tsx:36 | a new item list resets the index to 0 |
| MentionList.Picker.OnKeyDown | src/components/minimal-tiptap/components/mentions/mention-list.tsx:39-56 | only ArrowUp, ArrowDown and Enter are consumed; other keys change nothing |
| Suggestion.LowerChar | src/components/minimal-tiptap/components/mentions/suggestion.tsx:14 | ASCII letters are lowered, other characters kept |
| Suggestion.QueryCaseIgnored | src/components/minimal-tiptap/components/mentions/suggestion.tsx:14 | a query and its lowered form match the same users |
| Suggestion.Filter | src/components/minimal-tiptap/components/mentions/suggestion.tsx:14 | a user is kept iff its lowered first or last name starts with the lowered query |
| Suggestion.FilterKeepsOrder | src/components/minimal-tiptap/components/mentions/suggestion.tsx:14 | the filter keeps org-list order |
| Suggestion.EmptyQueryKeepsAll | src/components/minimal-tiptap/components/mentions/suggestion.tsx:14 | the empty query matches everyone |
| Suggestion.Items | src/components/minimal-tiptap/components/mentions/suggestion.tsx:11-16 | at most 5, each a matching user of the list, a prefix of the matches, and all matches when fewer than 5 |
| Suggestion.EmptyQueryItems | src/components/minimal-tiptap/components/mentions/suggestion.tsx:14-15 | the empty query gives the first min(5, n) users |
| Suggestion.RouteKey | src/components/minimal-tiptap/components/mentions/suggestion.tsx:55-62 | only Escape is handled by the popup itself; OnKeyDown's contract is stated through it |
| Suggestion.OnKeyDown | src/components/minimal-tiptap/components/mentions/suggestion.tsx:55-63 | Escape hides the popup and returns true; other keys are forwarded: ArrowUp and ArrowDown move the picker's index by Up and Down, Enter issues SelectItem on it, those three return true and the rest false; undefined without a picker |
| JsNumber.NoDigitIsNaN | src/pages/notes/context/events-context.tsx:63 | an id with no decimal digit (other than "", Infinity) is NaN |
| JsNumber.NumeralValue | src/pages/notes/context/events-context.tsx:63 | a decimal digit string converts to its value |
| JsNumber.LeadingZeroAlias | src/pages/notes/context/events-context.tsx:63 | "07" and "7" are the same number, so they delete each other |
| JsNumber.TrimIgnored | src/pages/notes/context/events-context.tsx:63 | surrounding white space does not change the number |
| ArrayFilter.FilterBy | src/pages/notes/context/events-context.tsx:63 | an element is kept iff it passes the test, and the result is never longer than the input |
| ArrayFilter.FilterByKeepsOrder | src/pages/notes/context/events-context.tsx:63 | the filter distributes over concatenation, so kept elements stay in order |
| EventsContext.Without | src/pages/notes/context/events-context.tsx:61-65 | an event survives iff its numeric id differs from the given one |
| EventsContext.WithoutKeepsOrder | src/pages/notes/context/events-context.tsx:61-65 | deletion keeps the survivors' order |
| EventsContext.DeleteIdempotent | src/pages/notes/context/events-context.tsx:61-65 | deleting an id twice equals deleting it once |
| EventsContext.NaNIdDeletesNothing | src/pages/notes/context/events-context.tsx:63 | a non-numeric id deletes nothing |
| EventsContext.NaNEventSurvives | src/pages/notes/context/events-context.tsx:63 | an event with a non-numeric id is never deleted |
| EventsContext.AddEachIsBatch | src/pages/notes/context/events-context.tsx:53-59 | appending a batch one event at a time is appending the batch |
| EventsContext.Store.constructor | src/pages/notes/context/events-context.tsx:46-51 | no events and all four dialogs closed |
| EventsContext.Store.AddEvent | src/pages/notes/context/events-context.tsx:53-55 | one event at the end, earlier ones unchanged |
| EventsContext.Store.AddEvents | src/pages/notes/context/events-context.tsx:57-59 | the batch at the end in order, the same as addEvent on each |
| EventsContext.Store.DeleteEvent | src/pages/notes/context/events-context.tsx:61-65 | the list becomes the events with a different numeric id |
| EventsContext.Store.SetEventViewOpen | src/pages/notes/context/events-context.tsx:48 | only the view dialog's flag changes |
| EventsContext.Store.SetEventAddOpen | src/pages/notes/context/events-context.tsx:49 | only the add dialog's flag changes |
| EventsContext.Store.SetEventEditOpen | src/pages/notes/context/events-context.tsx:50 | only the edit dialog's flag changes |
| EventsContext.Store.SetEventDeleteOpen | src/pages/notes/context/events-context.tsx:51 | only the delete dialog's flag changes |
| EventsContext.UseEvents | src/pages/notes/context/events-context.tsx:34-40 | outside a provider the hook fails with its message |
| EventEditForm.Issues | src/pages/notes/components/event-edit-form.tsx:35-49 | accepted iff there is an id, a start, an end and a non-empty colour; start before end is not checked |
| EventEditForm.EndBeforeStartAccepted | src/pages/notes/components/event-edit-form.tsx:38-45 | an event ending before it starts is accepted |
| EventEditForm.ValuesOf | src/pages/notes/components/event-edit-form.tsx:94-101 | the form takes the event's id, title, times and colour |
| EventEditForm.ResetEvent | src/pages/notes/components/event-edit-form.tsx:79-86 | the restored event has the pre-drag id, start, end and colour |
| EventEditForm.SavedEvent | src/pages/notes/components/event-edit-form.tsx:106-113 | the saved event carries the form's id, times and colour |
| EventEditForm.SaveUnchangedIsReset | src/pages/notes/components/event-edit-form.tsx:77-115 | saving an event's own values stores what a cancel restores |
| EventEditForm.ReplaceLeavesOne | src/pages/notes/components/event-edit-form.tsx:114-115 | after delete-then-append by a numeric id exactly one event has that id |
| EventEditForm.NaNReplaceDuplicates | src/pages/notes/components/event-edit-form.tsx:114-115 | with a non-numeric id the old copy stays beside the new one |
| EventEditForm.Form.constructor | src/pages/notes/components/event-edit-form.tsx:60-103 | the form holds the event's values, as the mount-time reset effect loads them |
| EventEditForm.Form.Load | src/pages/notes/components/event-edit-form.tsx:94-101 | a new event resets the form to that event's values |
| EventEditForm.Form.Cancel | src/pages/notes/components/event-edit-form.tsx:77-92 | after a drag with an old event: delete its id and append it back; otherwise the list is unchanged; the dialog closes |
| EventEditForm.Form.Submit | src/pages/notes/components/event-edit-form.tsx:105-116 | every event with the edited numeric id goes, the new one is appended, the dialog closes |
| EventAddForm.Issues | src/pages/notes/components/event-add-form.tsx:40-55 | accepted iff a non-empty title, a start and an end are given; start before end is not checked |
| EventAddForm.Defaults | src/pages/notes/components/event-add-form.tsx:83-92 | empty title and note, the slot's times, no attendees or tags |
| EventAddForm.DefaultsNeedTitle | src/pages/notes/components/event-add-form.tsx:40-92 | a reset form is refused for its empty title only |
| EventAddForm.NoteText | src/pages/notes/components/event-add-form.tsx:121 | the serialized description, else the form's note, else "" |
| EventAddForm.Form.constructor | src/pages/notes/components/event-add-form.tsx:72-92 | empty description and selections, and the slot's defaults as the reset effect loads them |
| EventAddForm.Form.SetSelectedUsers | src/pages/notes/components/event-add-form.tsx:253 | only the attendee selection changes |
| EventAddForm.Form.SetSelectedTags | src/pages/notes/components/event-add-form.tsx:269 | only the tag selection changes |
| EventAddForm.Form.SetDescription | src/pages/notes/components/event-add-form.tsx:190 | only the description changes |
| EventAddForm.Form.Reset | src/pages/notes/components/event-add-form.tsx:83-92 | a new slot resets the values to the defaults |
| EventAddForm.Form.Submit | src/pages/notes/components/event-add-form.tsx:117-133 | attendees and tags come from the selections, mentions from the description; the event is appended with the server's id only after creation succeeds |
| NoteFilter.RemoveAll | src/pages/notes/components/note-filter.tsx:89 | every occurrence of the id is removed, the rest kept |
| NoteFilter.RemoveAllKeepsOrder | src/pages/notes/components/note-filter.tsx:89 | removal distributes over concatenation, so the survivors keep their order |
| NoteFilter.RemoveAllCounts | src/pages/notes/components/note-filter.tsx:89 | the id's count drops to zero and every other id keeps its multiplicity |
| NoteFilter.RemoveAbsent | src/pages/notes/components/note-filter.tsx:89 | removing an absent id changes nothing |
| NoteFilter.Toggle | src/pages/notes/components/note-filter.tsx:87-90 | append when absent, remove every occurrence when present; other ids keep their membership |
| NoteFilter.ToggleTwice | src/pages/notes/components/note-filter.tsx:87-90 | toggling twice restores membership, and the exact list when the id was absent |
| NoteFilter.Sheet.constructor | src/pages/notes/components/note-filter.tsx:33-38 | all filters empty and the sheet closed |
| NoteFilter.Sheet.HandleSearchChange | src/pages/notes/components/note-filter.tsx:43-52 | only the search changes; the emitted snapshot is the new state |
| NoteFilter.Sheet.HandleUserSelect | src/pages/notes/components/note-filter.tsx:54-63 | only the attendees change; the emitted snapshot is the new state |
| NoteFilter.Sheet.HandleTagSelect | src/pages/notes/components/note-filter.tsx:65-74 | only the tags change; the emitted snapshot is the new state |
| NoteFilter.Sheet.HandleMentionSelect | src/pages/notes/components/note-filter.tsx:76-85 | only the mentions change; the emitted snapshot is the new state |
| NoteFilter.Sheet.HandleCreatedBySelect | src/pages/notes/components/note-filter.tsx:87-99 | only created-by changes, by the toggle; the emitted snapshot is the new state |
| NoteFilter.Sheet.ClearFilters | src/pages/notes/components/note-filter.tsx:101-114 | all five fields empty and an all-empty snapshot emitted |
| NoteFilter.Sheet.SetShowFilters | src/pages/notes/components/note-filter.tsx:128 | only the sheet's open flag changes; the filters stay as they were |
| SingleSelect.BuildQuery | src/pages/todo/components/filter/single-select-dropdown.tsx:116-121 | `{by, options: {[by]: value}}` with exactly one option key, equal to by |
| SingleSelect.Find | src/pages/todo/components/filter/single-select-dropdown.tsx:122 | the first entry whose value matches, or none iff no entry matches |
| SingleSelect.Checked | src/pages/todo/components/filter/single-select-dropdown.tsx:139-146 | the check mark is on iff the entry's value is the selected value |
| SingleSelect.PickedIsChecked | src/pages/todo/components/filter/single-select-dropdown.tsx:122-146 | after a pick, exactly the entries with the picked value are checked |
| SingleSelect.TriggerLabel | src/pages/todo/components/filter/single-select-dropdown.tsx:52-80 | the selection's label, else the dropdown's |
| SingleSelect.PickedLabel | src/pages/todo/components/filter/single-select-dropdown.tsx:52-122 | after picking a value the trigger shows the caption of the first entry with that value, or the dropdown's label when no entry has it |
| SingleSelect.Dropdown.constructor | src/pages/todo/components/filter/single-select-dropdown.tsx:43 | the list starts closed, with the dropdown's `by` and entries |
| SingleSelect.Dropdown.SetOpen | src/pages/todo/components/filter/single-select-dropdown.tsx:48 | the list's open flag takes the value |
| SingleSelect.Dropdown.HandleValueChange | src/pages/todo/components/filter/single-select-dropdown.tsx:115-125 | the selection is the found entry, the query is the built one, and the list closes |
| TodoFilterSection.StatusValuesCoverStatuses | src/pages/todo/components/todo-filter-section.tsx:15-41 | five entries keyed by "status", one per status, no value twice |
| TodoFilterSection.UserValues | src/pages/todo/components/todo-filter-section.tsx:79-83 | one entry per user: its id, labelled "lastName, firstName" |
| TodoFilterSection.WrapAssignedTo | src/pages/todo/components/todo-filter-section.tsx:103 | `options.assignedTo` becomes a one-element list, everything else kept |
| TodoFilterSection.Forwarded | src/pages/todo/components/todo-filter-section.tsx:71-120 | assigned-to forwards a wrapped value; the other dropdowns forward the built query |
| TodoFilterSection.Section.Shown | src/pages/todo/components/todo-filter-section.tsx:69-115 | a dropdown shows the shared selection only when its `by` matches |
| TodoFilterSection.AtMostOneShown | src/pages/todo/components/todo-filter-section.tsx:69-115 | no two dropdowns show a selection at once |
| TodoFilterSection.Section.constructor | src/pages/todo/components/todo-filter-section.tsx:55-56 | no selection; the applied flag and the query are the parent's |
| TodoFilterSection.Section.ClearButtonShown | src/pages/todo/components/todo-filter-section.tsx:123 | the clear button shows iff a filter is applied; Pick shows it and Clear hides it |
| TodoFilterSection.Section.Pick | src/pages/todo/components/todo-filter-section.tsx:71-120 | any pick applies the filter, shows the clear button and forwards the query; only the picking dropdown shows it |
| TodoFilterSection.Section.Clear | src/pages/todo/components/todo-filter-section.tsx:126-130 | no selection, the default `{by: "orgId"}` query, nothing applied, the clear button hidden, and every dropdown back to its own label |
| NoteForm.Issues | src/pages/notes/components/note-form.tsx:29-46 | accepted iff the title and note are non-empty, both dates are given and there is an attendee |
| NoteForm.IssueMessages | src/pages/notes/components/note-form.tsx:29-46 | each of the schema's messages appears iff its rule fails, and "Required" iff the title, note or attendee list is missing |
| NoteForm.Defaults | src/pages/notes/components/note-form.tsx:68-82 | start is defaultStartTime or the selected date; end is defaultEndTime or one hour after it, each override on its own |
| NoteForm.DefaultSpanIsOneHour | src/pages/notes/components/note-form.tsx:68-77 | without explicit times the end is exactly one hour after the start |
| NoteForm.NewFormNeedsTitleAndNote | src/pages/notes/components/note-form.tsx:29-80 | a new form is refused as it opens |
| NoteForm.NewFormFilledAccepted | src/pages/notes/components/note-form.tsx:29-80 | a new form is accepted once a title, a note and an attendee are filled in |
| NoteForm.Loaded | src/pages/notes/components/note-form.tsx:84-93 | a stored note's title, times, attendee ids and tag ids |
| NoteForm.LoadedAccepted | src/pages/notes/components/note-form.tsx:29-93 | a loaded note is accepted iff its title and text are non-empty and it has an attendee |
| NoteForm.SubmittedAttendees | src/pages/notes/components/note-form.tsx:106 | the selections when non-empty, else the form's attendees |
| NoteForm.SubmittedAttendeesNonEmpty | src/pages/notes/components/note-form.tsx:44-106 | an accepted form never submits an empty attendee list |
| NoteForm.Form.constructor | src/pages/notes/components/note-form.tsx:58-81 | the defaults; the parsed stored text or ""; the stored note's attendee and tag ids as selections; not loading |
| NoteForm.Form.SetTitle | src/pages/notes/components/note-form.tsx:124 | only the form's title changes |
| NoteForm.Form.SetStartTime | src/pages/notes/components/note-form.tsx:141 | only the form's start time changes |
| NoteForm.Form.SetEndTime | src/pages/notes/components/note-form.tsx:158 | only the form's end time changes |
| NoteForm.Form.SetDescription | src/pages/notes/components/note-form.tsx:175-178 | the editor keeps the new content and the form's `note` becomes its JSON text; nothing else changes |
| NoteForm.Form.SetSelectedUsers | src/pages/notes/components/note-form.tsx:206-208 | the selection and the form's `attendees` both become the new ids; nothing else changes |
| NoteForm.Form.SetSelectedTags | src/pages/notes/components/note-form.tsx:226 | only the tag selection changes; the form's `tags` keeps its value |
| NoteForm.Form.LoadInitialNote | src/pages/notes/components/note-form.tsx:84-97 | a new stored note loads into the form and the selections |
| NoteForm.Form.HandleSubmit | src/pages/notes/components/note-form.tsx:100-111 | the payload uses the attendee fallback and the selected tags; loading is on while sending and off afterwards, thrown or not |
| DateTimePicker.PickDay | src/components/date-time-picker.tsx:23-33 | the picked day with the old hours and minutes when there is a value, the picked day otherwise |
| DateTimePicker.KeepDateAsWritten | src/components/date-time-picker.tsx:41-44 | the time change as written keeps the projected clock time |
| DateTimePicker.AsWrittenShiftsMonth | src/components/date-time-picker.tsx:42-44 | 31 March moved onto 1 April comes out as 1 May |
| DateTimePicker.KeepDate | src/components/date-time-picker.tsx:41-44 | the current year, month and day with the new clock time |
| DateTimePicker.AsWrittenAgreesEarlyInMonth | src/components/date-time-picker.tsx:41-44 | the written and intended merges agree when the projected day is at most 28 |
| DateTimePicker.Disabled | src/components/date-time-picker.tsx:74-76 | a day is offered iff it is not before now and, read in the local zone with the given UTC offset, not after 2100-01-01T00:00Z |
| DateTimePicker.TodayDisabledAfterMidnight | src/components/date-time-picker.tsx:75 | today's midnight is refused once the clock is past midnight |
| DateTimePicker.NothingAfterLimit | src/components/date-time-picker.tsx:75 | once now is past 2100-01-01T00:00Z every day is refused |
| DateTimePicker.LastDayDependsOnZone | src/components/date-time-picker.tsx:75 | local midnight of 1 January 2100 is offered at UTC and refused at UTC-5 |
| DateTimePicker.DefaultPeriod | src/components/date-time-picker.tsx:85 | "PM" iff a displayed value's hour is 12 or later |
| DateTimePicker.PickDayKeepsPeriod | src/components/date-time-picker.tsx:23-33 | picking a day keeps the AM/PM default of the current value |
| DateTimePicker.TimeChangeTakesPeriod | src/components/date-time-picker.tsx:37-47 | after a time change the AM/PM default is that of the new time |
| DateTimePicker.Picker.constructor | src/components/date-time-picker.tsx:20-21 | the value is the `date` prop and the popover starts closed |
| DateTimePicker.Picker.SetPopoverOpen | src/components/date-time-picker.tsx:54 | only the popover's open flag changes |
| DateTimePicker.Picker.HandleOnSelect | src/components/date-time-picker.tsx:23-35 | a picked day becomes the value keeping the old time; an empty pick keeps the value; the popover always closes |
| DateTimePicker.Picker.HandleTimeChange | src/components/date-time-picker.tsx:37-47 | with both a new time and a value, the new time on the current day; otherwise nothing changes |
| AddNote.Sheet.constructor | src/pages/notes/components/add-note.tsx:30-31 | the props as given, and the own open flag false |
| AddNote.Sheet.IsControlled | src/pages/notes/components/add-note.tsx:45 | controlled iff both `open` and `onOpenChange` are given |
| AddNote.Sheet.IsOpen | src/pages/notes/components/add-note.tsx:46 | `open` when controlled, the own flag otherwise |
| AddNote.Sheet.HandleOpenChange | src/pages/notes/components/add-note.tsx:34-43 | the change goes to onOpenChange when given, else to the own flag; onClose runs on closing only |
| AddNote.Sheet.HandleSubmit | src/pages/notes/components/add-note.tsx:48-60 | refetch runs only after creation; the sheet closes only when both succeed |
| AddNote.HalfControlledStaysClosed | src/pages/notes/components/add-note.tsx:31-46 | with onOpenChange but no `open`, the sheet shows closed |
| NotesPage.CalendarNotes | src/pages/notes/index.tsx:88 | missing data gives the calendar no notes |
| NotesPage.CalendarShowsFetched | src/pages/notes/index.tsx:88 | without data a day's column is empty, and every card shown is one of the fetched notes |
| NotesPage.Page.constructor | src/pages/notes/index.tsx:16-23 | week view, sheet closed, no slot |
| NotesPage.Page.SetViewMode | src/pages/notes/index.tsx:60 | only the view mode changes |
| NotesPage.Page.SetSelectedDate | src/pages/notes/index.tsx:91 | only the selected date changes |
| NotesPage.Page.AddNoteDate | src/pages/notes/index.tsx:102 | the slot's date when there is a slot, else the selected date |
| NotesPage.Page.DefaultStartTime | src/pages/notes/index.tsx:103 | the slot's start, nothing without a slot |
| NotesPage.Page.DefaultEndTime | src/pages/notes/index.tsx:104 | the slot's end, nothing without a slot |
| NotesPage.Page.HandleTimeSlotSelect | src/pages/notes/index.tsx:36-39 | the slot is stored and the sheet opens |
| NotesPage.Page.HandleAddNoteClose | src/pages/notes/index.tsx:41-44 | the sheet closes and the slot is cleared |
| NotesPage.Page.HandleAddNoteClick | src/pages/notes/index.tsx:46-49 | the sheet opens with no slot, on the selected date without default times |
| NotesPage.Page.OnSheetOpenChange | src/pages/notes/index.tsx:100-108 | the sheet's open change sets showAddNote, and a close also clears the slot |
| NotesPage.Page.MountSheet | src/pages/notes/index.tsx:100-108 | the page's sheet is controlled and shows showAddNote |
| NotesPage.Page.SelectSlot | src/pages/notes/index.tsx:36-93 | a clicked cell opens the sheet on the IST reading of its day, with the IST start of the cell and an end 30 minutes later; in an IST browser the day itself at the cell's time |
| NotesPage.SlotSetsFormTimes | src/pages/notes/index.tsx:102-104 | the slot's start and end reach the note form's defaults |
| NotesPage.NoSlotOneHourSpan | src/pages/notes/index.tsx:102-104 | without a slot the form opens on the selected date and the hour after it |

## Left out

- Time zones. The browser's zone is a fixed UTC offset in minutes, from UTC-12 to UTC+14, with no daylight-saving change. The `toLocaleString("en-US", {timeZone: "Asia/Kolkata"})` round trip is modelled by `Clock.ToIST` for the slot click, which is where the page takes its dates from the projection. Elsewhere each projected date, and the hour and minute read from it, is an input: a note's `Moment` carries its IST date and its local hour and minute, and the picker and note form take the projected value as a parameter.
- Dates before year 1 are not modelled. The slot click requires a day in year 1 or later so that the shift to IST can step back a day.
- Calendar libraries. date-fns and date-fns-tz (`startOfWeek`, `eachDayOfInterval`, `format`, `formatInTimeZone`) are not modelled. The week's days and the formatted labels are opaque. `addHours(t, 1)` is read as one wall-clock hour, with no daylight-saving jumps.
- Server I/O. GraphQL queries and mutations (Apollo) are outcomes given as parameters: `serverResolves`, `serverId`, `created`, `threw`. The auth link, polling and toasts are not modelled.
- Rendering, animation and effect timing. React effects are methods the caller invokes: the reset effects, and the mention list's index reset.
- JSON text. `JSON.parse` of a stored description and `JSON.stringify` of the editor content are inputs. Parse errors are not modelled.
- RichText.Convert: models the result value of `convertMentionsToText`. It does not model the in-place mutation, aliasing between the caller's object and the result, or a throw that leaves a tree half converted.
- RichText.MentionIds: a JavaScript `Set` keeps values by identity, while the model's set uses structural equality. The array that the spread builds, and its order, is not modelled.
- Suggestion.Lower: lowers only A to Z. `toLowerCase` also maps other Unicode letters.
- JsNumber.ToNumber: works on exact reals. It does not model rounding to double precision, overflow to Infinity, or negative zero.
- Suggestion.OnKeyDown: does not model the TypeError that Escape raises when the popup was never created (no client rect).
- The `CalendarEvent` type's definition and the FullCalendar wiring are not part of this model. The edit form's event shape is the fields the form reads.
- EventEditForm.Form.Load: does not model the parsed description that the reset effect stores. The description enters Submit as the serialized string.
- NoteForm.Issues, EventAddForm.Issues, EventEditForm.Issues: a date field is either given or missing. zod's "That's not a date!" for an invalid date is not modelled.
- TodoForm.SchemaIssues: the due date is either given or missing. zod's message for an invalid date is not modelled.
- DateTimePicker.Picker.HandleTimeChange: uses the corrected merge KeepDate, not the sequential setters of date-time-picker.tsx:41-44 (see Findings, where AsWrittenShiftsMonth models them as written).
- DateTimePicker.Disabled: the local zone's UTC offset is one fixed number. Daylight-saving changes between now and 2100 are not modelled.
- Dialog internals. Radix dialog and popover closing gestures are reduced to the `Set...Open` methods.
- Selection limits. Those of the multi-select (10 tags, 999 users) are enforced inside a component that is not part of this model.
- The value that the command palette hands to `onSelect` is taken as given.

## Findings

| source | as written | input that shows it | evidently intended | confidence | as-written member | corrected member |
|---|---|---|---|---|---|---|
| src/components/date-time-picker.tsx:41-44 | `setFullYear`, `setMonth` and `setDate` are called one at a time, and `setMonth` keeps the projected day-of-month, which rolls over in a shorter month | projected time 2024-03-31 10:30, current value 2024-04-01: the result is 2024-05-01 10:30 | the current value's year, month and day with the new clock time (one `setFullYear(y, m, d)` call) | not executed | DateTimePicker.AsWrittenShiftsMonth | DateTimePicker.KeepDate |

`DateTimePicker.Picker.HandleTimeChange` uses the corrected merge.
`DateTimePicker.AsWrittenAgreesEarlyInMonth` shows that the two merges agree
whenever the projected day-of-month is at most 28.
