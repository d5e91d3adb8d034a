/**
 * The mention suggestions: the org's users whose first or last name starts
 * with the typed query, ignoring case, cut to the first five; and the key
 * routing of the suggestion popup, where Escape hides the popup and every
 * other key goes to the picker.
 */
module Suggestion {
  import opened Wrappers
  import opened JsValue
  import MentionList
  import opened ArrayFilter

  /** toLowerCase on one character, for the ASCII letters A to Z. */
  function LowerChar(c: char): (r: char)
    ensures 'A' <= c <= 'Z' ==> r as int == c as int + 32
    ensures !('A' <= c <= 'Z') ==> r == c
    ensures !('A' <= r <= 'Z')
  {
    if 'A' <= c <= 'Z' then (c as int + 32) as char else c
  }

  /** toLowerCase, character by character. */
  function Lower(s: string): (r: string)
    ensures |r| == |s| && forall i :: 0 <= i < |s| ==> r[i] == LowerChar(s[i])
  {
    if s == [] then [] else [LowerChar(s[0])] + Lower(s[1..])
  }

  /** Lowering twice is lowering once. */
  lemma LowerIdempotent(s: string)
    ensures Lower(Lower(s)) == Lower(s)
  {
  }

  function StartsWith(s: string, prefix: string): bool {
    |prefix| <= |s| && s[..|prefix|] == prefix
  }

  /** The filter's test: the lowered first or last name starts with the lowered query. */
  predicate Matches(user: seq<Field>, query: string)
    requires MentionList.IsUser(user)
  {
    StartsWith(Lower(Get(user, "firstName").s), Lower(query)) ||
    StartsWith(Lower(Get(user, "lastName").s), Lower(query))
  }

  /** The query's case does not matter: a query and its lowered form match the same users. */
  lemma QueryCaseIgnored(user: seq<Field>, query: string)
    requires MentionList.IsUser(user)
    ensures Matches(user, query) == Matches(user, Lower(query))
  {
    LowerIdempotent(query);
  }

  /** The filter's callback; a value that is not a user object never passes. */
  function Matcher(query: string): seq<Field> -> bool {
    u => MentionList.IsUser(u) && Matches(u, query)
  }

  /** `.filter(...)`: the matching users, in list order. */
  function Filter(users: seq<seq<Field>>, query: string): (r: seq<seq<Field>>)
    requires forall u :: u in users ==> MentionList.IsUser(u)
    ensures |r| <= |users|
    ensures forall u :: u in r <==> u in users && Matches(u, query)
  {
    FilterBy(users, Matcher(query))
  }

  /** The filter keeps list order: filtering a concatenation concatenates the filtered parts. */
  lemma FilterKeepsOrder(a: seq<seq<Field>>, b: seq<seq<Field>>, query: string)
    requires forall u :: u in a + b ==> MentionList.IsUser(u)
    ensures Filter(a + b, query) == Filter(a, query) + Filter(b, query)
  {
    FilterByKeepsOrder(a, b, Matcher(query));
  }

  /** The empty query is a prefix of every name: everyone matches. */
  lemma EmptyQueryKeepsAll(users: seq<seq<Field>>)
    requires forall u :: u in users ==> MentionList.IsUser(u)
    ensures Filter(users, "") == users
  {
    assert Lower("") == "";
    FilterByAll(users, Matcher(""));
  }

  /**
   * `items`: the first five matches in the org list's order.  There are at
   * most five, each one is a user of the list whose name starts with the
   * query, and fewer than five come back only when fewer than five match.
   */
  function Items(users: seq<seq<Field>>, query: string): (r: seq<seq<Field>>)
    requires forall u :: u in users ==> MentionList.IsUser(u)
    ensures |r| <= 5
    ensures forall u :: u in r ==> u in users && Matches(u, query)
    ensures |r| < 5 ==> r == Filter(users, query)
    ensures r <= Filter(users, query)
  {
    var matches := Filter(users, query);
    if |matches| <= 5 then matches else matches[..5]
  }

  /** With an empty query the suggestions are the first min(5, n) users. */
  lemma EmptyQueryItems(users: seq<seq<Field>>)
    requires forall u :: u in users ==> MentionList.IsUser(u)
    ensures Items(users, "") == users[..if |users| <= 5 then |users| else 5]
  {
    EmptyQueryKeepsAll(users);
  }

  /** Where a key pressed in the popup goes. */
  datatype Route = HideAndConsume | ToPicker

  /** onKeyDown: Escape hides the popup and is consumed; every other key is the picker's. */
  function RouteKey(key: string): (r: Route)
    ensures r == HideAndConsume <==> key == "Escape"
  {
    if key == "Escape" then HideAndConsume else ToPicker
  }

  /**
   * The popup's onKeyDown with the picker behind it: Escape hides the popup
   * and answers true without reaching the picker; any other key leaves the
   * popup as it is and gets the picker's answer, or undefined (None) while
   * the picker is not mounted.  A key routed to the picker has the picker's
   * effect: the arrows move the highlight one step, Enter picks the
   * highlighted user, and nothing else changes it.
   */
  method OnKeyDown(key: string, list: MentionList.Picker?, visible: bool)
    returns (consumed: Option<bool>, nowVisible: bool, cmd: Option<seq<Field>>)
    requires list != null ==> list.Valid()
    modifies list
    ensures list != null ==> list.Valid() && list.items == old(list.items)
    ensures RouteKey(key) == HideAndConsume ==> consumed == Some(true) && !nowVisible && cmd.None?
    ensures RouteKey(key) == HideAndConsume && list != null ==> list.selectedIndex == old(list.selectedIndex)
    ensures RouteKey(key) == ToPicker ==> nowVisible == visible
    ensures RouteKey(key) == ToPicker && list == null ==> consumed.None? && cmd.None?
    ensures RouteKey(key) == ToPicker && list != null ==>
      consumed.Some? && (consumed.value <==> key in {"ArrowUp", "ArrowDown", "Enter"})
    ensures RouteKey(key) == ToPicker && list != null && key == "ArrowUp" ==>
      list.selectedIndex == MentionList.Up(old(list.selectedIndex), |list.items|) && cmd.None?
    ensures RouteKey(key) == ToPicker && list != null && key == "ArrowDown" ==>
      list.selectedIndex == MentionList.Down(old(list.selectedIndex), |list.items|) && cmd.None?
    ensures RouteKey(key) == ToPicker && list != null && key == "Enter" ==>
      list.selectedIndex == old(list.selectedIndex) && cmd == MentionList.SelectItem(list.items, list.selectedIndex)
    ensures RouteKey(key) == ToPicker && list != null && key !in {"ArrowUp", "ArrowDown", "Enter"} ==>
      list.selectedIndex == old(list.selectedIndex) && cmd.None?
  {
    if RouteKey(key) == HideAndConsume {
      return Some(true), false, None;
    }
    nowVisible := visible;
    if list == null {
      return None, nowVisible, None;
    }
    var handled;
    handled, cmd := list.OnKeyDown(key);
    consumed := Some(handled);
  }
}
