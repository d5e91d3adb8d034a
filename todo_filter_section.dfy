/**
 * The todo list's filter bar: four single-select dropdowns (status, created
 * by, assigned to, mentioned) sharing one selection, so that at most one of
 * them shows a choice; any pick marks the filter as applied and forwards
 * its query (the assigned-to query with its value wrapped in a list); and a
 * clear button, shown only while a filter is applied, that resets it all.
 */
module TodoFilterSection {
  import opened Wrappers
  import opened JsValue
  import opened SingleSelect
  import StatusDropdown
  import NoteTypes

  /** The status dropdown's five entries, in the order of the status table. */
  const StatusValues: seq<Entry> := [
    Entry("status", "notStarted", "Not Started"),
    Entry("status", "active", "Active"),
    Entry("status", "onHold", "On Hold"),
    Entry("status", "overdue", "Overdue"),
    Entry("status", "completed", "Completed")
  ]

  /** The status filter offers every status exactly once, each keyed by "status". */
  lemma StatusValuesCoverStatuses()
    ensures |StatusValues| == 5
    ensures forall e :: e in StatusValues ==> e.filterBy == "status" && StatusDropdown.Parse(e.value).Some?
    ensures forall s: StatusDropdown.Status :: exists i :: 0 <= i < 5 && StatusValues[i].value == StatusDropdown.Name(s)
    ensures forall i, j :: 0 <= i < j < 5 ==> StatusValues[i].value != StatusValues[j].value
  {
    forall s: StatusDropdown.Status
      ensures exists i :: 0 <= i < 5 && StatusValues[i].value == StatusDropdown.Name(s)
    {
      match s
      case NotStarted => assert StatusValues[0].value == StatusDropdown.Name(s);
      case Active => assert StatusValues[1].value == StatusDropdown.Name(s);
      case OnHold => assert StatusValues[2].value == StatusDropdown.Name(s);
      case Overdue => assert StatusValues[3].value == StatusDropdown.Name(s);
      case Completed => assert StatusValues[4].value == StatusDropdown.Name(s);
    }
  }

  /** A user dropdown's entries: the user's id, shown as "lastName, firstName". */
  function UserValues(filterBy: string, users: seq<NoteTypes.User>): (r: seq<Entry>)
    ensures |r| == |users|
    ensures forall i :: 0 <= i < |r| ==>
      r[i] == Entry(filterBy, users[i].id, users[i].lastName + ", " + users[i].firstName)
  {
    if users == [] then []
    else [Entry(filterBy, users[0].id, users[0].lastName + ", " + users[0].firstName)] + UserValues(filterBy, users[1..])
  }

  const DefaultQuery: Value := Obj([Field("by", Str("orgId"))])

  /** The assigned-to wrapper: `query.options.assignedTo = [query.options.assignedTo]`. */
  function WrapAssignedTo(query: Value): (r: Value)
    requires query.Obj? && Get(query.fields, "options").Obj?
    ensures r.Obj? && Get(r.fields, "by") == Get(query.fields, "by")
    ensures Get(r.fields, "options").Obj?
    ensures Get(Get(r.fields, "options").fields, "assignedTo") == Arr([Get(Get(query.fields, "options").fields, "assignedTo")])
    ensures forall k :: k != "assignedTo" ==>
      Get(Get(r.fields, "options").fields, k) == Get(Get(query.fields, "options").fields, k)
  {
    var options := Get(query.fields, "options").fields;
    Obj(Put(query.fields, "options", Obj(Put(options, "assignedTo", Arr([Get(options, "assignedTo")])))))
  }

  /** What a pick in the dropdown for filterBy forwards: the built query, wrapped for assigned-to. */
  function Forwarded(filterBy: string, value: string): (q: Value)
    ensures q.Obj? && Get(q.fields, "by") == Str(filterBy)
    ensures filterBy == "assignedTo" ==>
      Get(q.fields, "options").Obj? && Get(Get(q.fields, "options").fields, "assignedTo") == Arr([Str(value)])
    ensures filterBy != "assignedTo" ==> q == BuildQuery(filterBy, value)
  {
    var q := BuildQuery(filterBy, value);
    if filterBy == "assignedTo" then WrapAssignedTo(q) else q
  }

  class Section {
    var selectedValues: Option<Entry>
    /** The parent's `isFilterApplied` and `query`, written through the setters it passes down. */
    var isFilterApplied: bool
    var query: Value

    constructor(isFilterApplied: bool, query: Value)
      ensures selectedValues.None? && this.isFilterApplied == isFilterApplied && this.query == query
    {
      selectedValues := None;
      this.isFilterApplied := isFilterApplied;
      this.query := query;
    }

    /** The selection a dropdown is given: the shared one when its `by` is the dropdown's, else null. */
    function Shown(filterBy: string): (r: Option<Entry>)
      reads this
      ensures r.Some? ==> r == selectedValues && r.value.filterBy == filterBy
      ensures r.None? ==> selectedValues.None? || selectedValues.value.filterBy != filterBy
    {
      if selectedValues.Some? && selectedValues.value.filterBy == filterBy then selectedValues else None
    }

    /** The clear button is rendered exactly while a filter is applied. */
    function ClearButtonShown(): (shown: bool)
      reads this
      ensures shown <==> isFilterApplied
    {
      isFilterApplied
    }

    /**
     * A pick of value in the dropdown for filterBy: the selection becomes the
     * first entry with that value, the filter is applied, and the query is
     * forwarded.
     */
    method Pick(filterBy: string, values: seq<Entry>, value: string)
      modifies this
      ensures selectedValues == Find(values, value)
      ensures isFilterApplied && query == Forwarded(filterBy, value) && ClearButtonShown()
      ensures (forall e :: e in values ==> e.filterBy == filterBy) ==>
        (Shown(filterBy) == selectedValues && forall other :: other != filterBy ==> Shown(other).None?)
    {
      var selection := Find(values, value);
      var forwarded := Forwarded(filterBy, value);
      selectedValues := selection;
      isFilterApplied := true;
      query := forwarded;
      PickShown(this, filterBy, values, value);
    }

    /** Clear Filter: no selection, the default query, and nothing applied. */
    method Clear()
      modifies this
      ensures selectedValues.None? && query == DefaultQuery && !isFilterApplied && !ClearButtonShown()
      ensures forall filterBy :: Shown(filterBy).None?
      ensures forall dropdownLabel, filterBy :: TriggerLabel(dropdownLabel, Shown(filterBy)) == dropdownLabel
    {
      selectedValues := None;
      query := DefaultQuery;
      isFilterApplied := false;
    }
  }

  /** When every entry of the dropdown is its own, the entry it finds shows there and nowhere else. */
  lemma PickShown(s: Section, filterBy: string, values: seq<Entry>, value: string)
    requires s.selectedValues == Find(values, value)
    ensures (forall e :: e in values ==> e.filterBy == filterBy) ==>
      (s.Shown(filterBy) == s.selectedValues && forall other :: other != filterBy ==> s.Shown(other).None?)
  {
    if forall e :: e in values ==> e.filterBy == filterBy {
      OnlyOwnerShows(s, filterBy);
    }
  }

  /** A selection made in the dropdown for filterBy is shown there and nowhere else. */
  lemma OnlyOwnerShows(s: Section, filterBy: string)
    requires s.selectedValues.Some? ==> s.selectedValues.value.filterBy == filterBy
    ensures s.Shown(filterBy) == s.selectedValues
    ensures forall other :: other != filterBy ==> s.Shown(other).None?
  {
  }

  /** Two different dropdowns never both show the shared selection. */
  lemma AtMostOneShown(s: Section, a: string, b: string)
    requires a != b
    ensures s.Shown(a).None? || s.Shown(b).None?
  {
  }
}
