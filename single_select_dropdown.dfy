/**
 * One filter dropdown of the todo list: picking an entry builds the query
 * `{by, options: {[by]: value}}`, reports the first entry with that value
 * as the selection (or null), and closes the list.  The trigger shows the
 * selected entry's label, and the check mark sits on the entries whose
 * value is the selected one.
 */
module SingleSelect {
  import opened Wrappers
  import opened JsValue

  /** A dropdown entry; `filterBy` and `caption` are the source's `by` (the query field it filters on) and `label`. */
  datatype Entry = Entry(filterBy: string, value: string, caption: string)

  /** The query object handed to setQuery. */
  function BuildQuery(filterBy: string, value: string): (q: Value)
    ensures q.Obj? && Keys(q.fields) == {"by", "options"}
    ensures Get(q.fields, "by") == Str(filterBy)
    ensures Get(q.fields, "options").Obj? && Keys(Get(q.fields, "options").fields) == {filterBy}
    ensures Get(Get(q.fields, "options").fields, filterBy) == Str(value)
  {
    Obj([Field("by", Str(filterBy)), Field("options", Obj([Field(filterBy, Str(value))]))])
  }

  /** `values.find(item => item.value === value) || null`: the first entry with that value. */
  function Find(values: seq<Entry>, value: string): (r: Option<Entry>)
    ensures r.Some? ==> r.value in values && r.value.value == value
    ensures r.Some? ==> exists i :: (0 <= i < |values| && values[i] == r.value && r.value.value == value &&
                                     forall j :: 0 <= j < i ==> values[j].value != value)
    ensures r.None? <==> forall e :: e in values ==> e.value != value
  {
    if values == [] then None
    else if values[0].value == value then Some(values[0])
    else
      var rest := Find(values[1..], value);
      if rest.Some? then
        var i :| 0 <= i < |values[1..]| && values[1..][i] == rest.value && rest.value.value == value &&
          forall j :: 0 <= j < i ==> values[1..][j].value != value;
        assert values[i + 1] == rest.value;
        rest
      else
        rest
  }

  /** The check mark: on exactly the entries whose value equals the selected value. */
  function Checked(entry: Entry, selected: Option<Entry>): (on: bool)
    ensures on <==> selected.Some? && entry.value == selected.value.value
  {
    selected.Some? && entry.value == selected.value.value
  }

  /** The trigger's text: the selection's label, else the dropdown's own label. */
  function TriggerLabel(dropdownLabel: string, selected: Option<Entry>): (text: string)
    ensures selected.Some? ==> text == selected.value.caption
    ensures selected.None? ==> text == dropdownLabel
  {
    if selected.Some? then selected.value.caption else dropdownLabel
  }

  /**
   * After a pick the trigger names what was picked: the label of the first
   * entry with the picked value, and the dropdown's own label when no entry
   * has it.
   */
  lemma PickedLabel(dropdownLabel: string, values: seq<Entry>, value: string)
    ensures (exists e :: e in values && e.value == value) ==>
      exists i :: 0 <= i < |values| && values[i].value == value &&
        TriggerLabel(dropdownLabel, Find(values, value)) == values[i].caption &&
        forall j :: 0 <= j < i ==> values[j].value != value
    ensures (forall e :: e in values ==> e.value != value) ==> TriggerLabel(dropdownLabel, Find(values, value)) == dropdownLabel
  {
  }

  /** Picking a listed entry checks that entry and every entry sharing its value, and no other. */
  lemma PickedIsChecked(values: seq<Entry>, value: string, e: Entry)
    requires e in values
    ensures Checked(e, Find(values, value)) <==> e.value == value
  {
  }

  class Dropdown {
    const filterBy: string
    const values: seq<Entry>
    var open: bool

    constructor(filterBy: string, values: seq<Entry>)
      ensures this.filterBy == filterBy && this.values == values && !open
    {
      this.filterBy := filterBy;
      this.values := values;
      open := false;
    }

    method SetOpen(value: bool)
      modifies this
      ensures open == value
    {
      open := value;
    }

    /**
     * handleValueChange: the selection and the query it hands to the
     * parent's setters, and the list closed.
     */
    method HandleValueChange(value: string) returns (selection: Option<Entry>, query: Value)
      modifies this
      ensures selection == Find(values, value) && query == BuildQuery(filterBy, value)
      ensures !open
    {
      query := BuildQuery(filterBy, value);
      selection := Find(values, value);
      open := false;
    }
  }
}
