/**
 * The todo status dropdown: the table of allowed moves between the five
 * statuses, the four options it offers with their disabled flags, and the
 * status update that takes effect only once the server has accepted it.
 */
module StatusDropdown {
  import opened Wrappers
  import opened JsValue

  datatype Status = NotStarted | Active | OnHold | Overdue | Completed

  function Name(s: Status): string {
    match s
    case NotStarted => "notStarted"
    case Active => "active"
    case OnHold => "onHold"
    case Overdue => "overdue"
    case Completed => "completed"
  }

  /** The status a key of the table names, if any. */
  function Parse(name: string): (r: Option<Status>)
    ensures r.Some? ==> Name(r.value) == name
    ensures r.None? ==> forall s :: Name(s) != name
  {
    if name == "notStarted" then Some(NotStarted)
    else if name == "active" then Some(Active)
    else if name == "onHold" then Some(OnHold)
    else if name == "overdue" then Some(Overdue)
    else if name == "completed" then Some(Completed)
    else None
  }

  /**
   * The moves the table allows out of s.  No status moves to itself, none
   * moves back to notStarted, completed is the only terminal status and it
   * can be reached in one step from every other one.
   */
  function Moves(s: Status): (r: set<Status>)
    ensures s !in r
    ensures NotStarted !in r
    ensures r == {} <==> s == Completed
    ensures s != Completed ==> Completed in r
  {
    match s
    case NotStarted => {Completed, Active}
    case Active => {OnHold, Completed}
    case OnHold => {Active, Completed}
    case Overdue => {Completed}
    case Completed => {}
  }

  /** Property names every object literal inherits from Object.prototype. */
  const InheritedNames: set<string> := {
    "constructor", "hasOwnProperty", "isPrototypeOf", "propertyIsEnumerable",
    "toString", "toLocaleString", "valueOf", "__proto__",
    "__defineGetter__", "__defineSetter__", "__lookupGetter__", "__lookupSetter__" }

  /** The options in menu order; overdue has none. */
  const Offered: seq<Status> := [Completed, Active, OnHold, NotStarted]

  datatype Row = Row(value: Status, disabled: bool)

  /**
   * The options rendered for the current status string: each one is enabled
   * exactly when the table allows the move.  A name that is neither a key of
   * the table nor an inherited property makes `statusMap[status]` undefined,
   * and reading a flag from it throws.  An inherited property has no flags,
   * so every option is disabled.
   */
  function Options(current: string): (r: Result<seq<Row>, JsError>)
    ensures r.Err? <==> Parse(current).None? && current !in InheritedNames
    ensures r.Ok? ==> |r.value| == |Offered| && forall i :: 0 <= i < |Offered| ==> r.value[i].value == Offered[i]
    ensures r.Ok? && Parse(current).Some? ==>
      forall i :: 0 <= i < |r.value| ==> (r.value[i].disabled <==> r.value[i].value !in Moves(Parse(current).value))
    ensures r.Ok? && Parse(current).None? ==> forall i :: 0 <= i < |r.value| ==> r.value[i].disabled
  {
    var from := Parse(current);
    if from.None? && current !in InheritedNames then Err(TypeError)
    else
      var allowed := if from.Some? then Moves(from.value) else {};
      Ok(seq(|Offered|, i requires 0 <= i < |Offered| => Row(Offered[i], Offered[i] !in allowed)))
  }

  /** Overdue is never a target, and from completed nothing can be chosen. */
  lemma OfferedTargets(current: string)
    requires Options(current).Ok?
    ensures forall row :: row in Options(current).value ==> row.value != Overdue
    ensures current == "completed" ==> forall row :: row in Options(current).value ==> row.disabled
  {
    var rows := Options(current).value;
    forall row | row in rows ensures row.value != Overdue {
      var i :| 0 <= i < |rows| && rows[i] == row;
    }
  }

  /** The variables of the UPDATE_TODO_STATUS mutation. */
  datatype StatusInput = StatusInput(id: string, status: string)

  class Dropdown {
    const todoId: string
    /** The parent's status, written through `setStatus`. */
    var status: string

    constructor(todoId: string, status: string)
      ensures this.todoId == todoId && this.status == status
    {
      this.todoId := todoId;
      this.status := status;
    }

    /**
     * handleStatusSelect: the request carries the todo's id and the chosen
     * value; the local status becomes that value only once the server
     * resolves, and is untouched when it rejects.
     */
    method HandleStatusSelect(value: string, serverResolves: bool) returns (input: StatusInput)
      modifies this
      ensures input == StatusInput(todoId, value)
      ensures status == if serverResolves then value else old(status)
    {
      input := StatusInput(todoId, value);
      if serverResolves {
        status := value;
      }
    }
  }
}
