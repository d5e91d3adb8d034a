/**
 * The notes filter sheet: a search text and four id lists (attendees, tags,
 * mentions, created by).  Every change stores the new value and hands the
 * parent a full snapshot of the five fields; clearing empties them all.
 */
module NoteFilter {

  /** The object passed to onFilterChange. */
  datatype Filters = Filters(search: string, createdBy: seq<string>, attendees: seq<string>,
                             tags: seq<string>, mentions: seq<string>)

  const NoFilters := Filters("", [], [], [], [])

  /** `list.filter(x => x !== id)`: every occurrence of id removed, the rest in order. */
  function RemoveAll(list: seq<string>, id: string): (r: seq<string>)
    ensures |r| <= |list|
    ensures forall x :: x in r <==> x in list && x != id
  {
    if list == [] then []
    else (if list[0] == id then [] else [list[0]]) + RemoveAll(list[1..], id)
  }

  /** The survivors keep their order: removing from a concatenation concatenates the two removals. */
  lemma {:induction false} RemoveAllKeepsOrder(a: seq<string>, b: seq<string>, id: string)
    ensures RemoveAll(a + b, id) == RemoveAll(a, id) + RemoveAll(b, id)
  {
    if a != [] {
      var head := if a[0] == id then [] else [a[0]];
      assert (a + b)[0] == a[0] && (a + b)[1..] == a[1..] + b;
      RemoveAllKeepsOrder(a[1..], b, id);
      calc {
        RemoveAll(a + b, id);
        head + RemoveAll(a[1..] + b, id);
        head + (RemoveAll(a[1..], id) + RemoveAll(b, id));
        (head + RemoveAll(a[1..], id)) + RemoveAll(b, id);
      }
    } else {
      assert a + b == b;
    }
  }

  /** Every other id survives as often as it occurred; id itself is gone. */
  lemma {:induction false} RemoveAllCounts(list: seq<string>, id: string)
    ensures multiset(RemoveAll(list, id)) == multiset(list)[id := 0]
  {
    if list != [] {
      RemoveAllCounts(list[1..], id);
      assert list == [list[0]] + list[1..];
    }
  }

  /** Removing an id that is not there changes nothing. */
  lemma {:induction false} RemoveAbsent(list: seq<string>, id: string)
    requires id !in list
    ensures RemoveAll(list, id) == list
  {
    if list != [] {
      assert list == [list[0]] + list[1..];
      RemoveAbsent(list[1..], id);
    }
  }

  lemma {:induction false} RemoveAllAppend(list: seq<string>, id: string)
    requires id !in list
    ensures RemoveAll(list + [id], id) == list
  {
    if list == [] {
      assert [id][1..] == [];
    } else {
      assert (list + [id])[0] == list[0] && (list + [id])[1..] == list[1..] + [id];
      RemoveAllAppend(list[1..], id);
      assert list == [list[0]] + list[1..];
    }
  }

  /**
   * handleCreatedBySelect's new list: the id appended when absent, every
   * occurrence of it removed when present.
   */
  function Toggle(list: seq<string>, id: string): (r: seq<string>)
    ensures id !in list ==> r == list + [id]
    ensures id in list ==> r == RemoveAll(list, id) && id !in r
    ensures forall x :: x != id ==> (x in r <==> x in list)
  {
    if id in list then RemoveAll(list, id) else list + [id]
  }

  /**
   * Toggling twice restores membership; starting from an absent id it
   * restores the list exactly.
   */
  lemma ToggleTwice(list: seq<string>, id: string)
    ensures forall x :: x in Toggle(Toggle(list, id), id) <==> x in list
    ensures id !in list ==> Toggle(Toggle(list, id), id) == list
  {
    if id !in list {
      RemoveAllAppend(list, id);
    }
  }

  class Sheet {
    var search: string
    var selectedUsers: seq<string>
    var selectedTags: seq<string>
    var selectedMentions: seq<string>
    var selectedCreatedBy: seq<string>
    var showFilters: bool

    /** The five fields as a snapshot. */
    function Current(): Filters
      reads this
    {
      Filters(search, selectedCreatedBy, selectedUsers, selectedTags, selectedMentions)
    }

    /** Initial state: nothing selected, the sheet closed. */
    constructor()
      ensures Current() == NoFilters && !showFilters
    {
      search := "";
      selectedUsers := [];
      selectedTags := [];
      selectedMentions := [];
      selectedCreatedBy := [];
      showFilters := false;
    }

    method HandleSearchChange(value: string) returns (emitted: Filters)
      modifies this
      ensures Current() == old(Current()).(search := value)
      ensures emitted == Current() && showFilters == old(showFilters)
    {
      search := value;
      emitted := Current();
    }

    method HandleUserSelect(users: seq<string>) returns (emitted: Filters)
      modifies this
      ensures Current() == old(Current()).(attendees := users)
      ensures emitted == Current() && showFilters == old(showFilters)
    {
      selectedUsers := users;
      emitted := Current();
    }

    method HandleTagSelect(tags: seq<string>) returns (emitted: Filters)
      modifies this
      ensures Current() == old(Current()).(tags := tags)
      ensures emitted == Current() && showFilters == old(showFilters)
    {
      selectedTags := tags;
      emitted := Current();
    }

    method HandleMentionSelect(mentions: seq<string>) returns (emitted: Filters)
      modifies this
      ensures Current() == old(Current()).(mentions := mentions)
      ensures emitted == Current() && showFilters == old(showFilters)
    {
      selectedMentions := mentions;
      emitted := Current();
    }

    /** The created-by checkbox of one user: toggle that id. */
    method HandleCreatedBySelect(userId: string) returns (emitted: Filters)
      modifies this
      ensures Current() == old(Current()).(createdBy := Toggle(old(selectedCreatedBy), userId))
      ensures emitted == Current() && showFilters == old(showFilters)
    {
      selectedCreatedBy := Toggle(selectedCreatedBy, userId);
      emitted := Current();
    }

    /** clearFilters: every field empty, and the empty snapshot handed on. */
    method ClearFilters() returns (emitted: Filters)
      modifies this
      ensures Current() == NoFilters && emitted == NoFilters && showFilters == old(showFilters)
    {
      search := "";
      selectedUsers := [];
      selectedTags := [];
      selectedMentions := [];
      selectedCreatedBy := [];
      emitted := Current();
    }

    /** The sheet's own open/close requests and the Apply button. */
    method SetShowFilters(open: bool)
      modifies this
      ensures showFilters == open && Current() == old(Current())
    {
      showFilters := open;
    }
  }
}
