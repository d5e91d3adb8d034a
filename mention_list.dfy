/**
 * The mention picker: a list of users with a highlighted index that the
 * arrow keys move cyclically, Enter or a click picking the highlighted user,
 * and the attributes of the mention node that a pick inserts.
 */
module MentionList {
  import opened Wrappers
  import opened JsValue

  /** A user object as the org's user query returns it: `id`, `firstName` and `lastName` are strings. */
  predicate IsUser(fs: seq<Field>) {
    Get(fs, "id").Str? && Get(fs, "firstName").Str? && Get(fs, "lastName").Str?
  }

  /** `selectedIndex`: a whole number, or NaN once it was computed modulo an empty list's length. */
  datatype Index = At(i: nat) | NaN

  /** upHandler's `(i + n - 1) % n`: one step back, wrapping to the last item. */
  function Up(index: Index, n: nat): (r: Index)
    ensures n > 0 && index.At? && index.i < n ==> r.At? && r.i < n
    ensures n > 0 && index == At(0) ==> r == At(n - 1)
    ensures index.At? && 0 < index.i < n ==> r == At(index.i - 1)
    ensures n == 0 || index.NaN? ==> r.NaN?
  {
    if n == 0 || index.NaN? then NaN
    else
      var r := At((index.i + n - 1) % n);
      if 0 < index.i < n then ModOnce(index.i + n - 1, n); r else r
  }

  /** downHandler's `(i + 1) % n`: one step forward, wrapping to the first item. */
  function Down(index: Index, n: nat): (r: Index)
    ensures n > 0 && index.At? && index.i < n ==> r.At? && r.i < n
    ensures n > 0 && index == At(n - 1) ==> r == At(0)
    ensures index.At? && index.i + 1 < n ==> r == At(index.i + 1)
    ensures n == 0 || index.NaN? ==> r.NaN?
  {
    if n == 0 || index.NaN? then NaN
    else
      var r := At((index.i + 1) % n);
      if index.i + 1 < n then ModSmall(index.i + 1, n); r else r
  }

  /** Up then down, or down then up, comes back to the same item. */
  lemma UpDownInverse(index: Index, n: nat)
    requires n > 0 && index.At? && index.i < n
    ensures Down(Up(index, n), n) == index
    ensures Up(Down(index, n), n) == index
  {
    var i := index.i;
    if i > 0 {
      ModOnce(i + n - 1, n);
      ModSmall(i, n);
    } else {
      ModSmall(n - 1, n);
      ModOnce(n, n);
    }
    if i < n - 1 {
      ModSmall(i + 1, n);
      ModOnce(i + n, n);
    } else {
      ModOnce(n, n);
      ModSmall(n - 1, n);
    }
  }

  lemma ModSmall(a: int, n: int)
    requires 0 <= a < n
    ensures a % n == a
  {
  }

  lemma ModOnce(a: int, n: int)
    requires 0 < n <= a < 2 * n
    ensures a % n == a - n
  {
    assert a == n * 1 + (a - n);
  }

  /**
   * The `command` argument when item fs is picked: every property of the
   * user, `user_id` set to the user's id, and `id` replaced by
   * "lastName, firstName".
   */
  function MentionAttrs(fs: seq<Field>): (attrs: seq<Field>)
    requires IsUser(fs)
    ensures Get(attrs, "user_id") == Get(fs, "id")
    ensures Get(attrs, "id") == Str(Get(fs, "lastName").s + ", " + Get(fs, "firstName").s)
    ensures forall k :: k != "user_id" && k != "id" ==> Get(attrs, k) == Get(fs, k)
  {
    var withUserId := Put(fs, "user_id", Get(fs, "id"));
    Put(withUserId, "id", Str(Get(fs, "lastName").s + ", " + Get(fs, "firstName").s))
  }

  /** selectItem: a command only when the index names an existing item. */
  function SelectItem(items: seq<seq<Field>>, index: Index): (cmd: Option<seq<Field>>)
    requires forall fs :: fs in items ==> IsUser(fs)
    ensures cmd.Some? <==> index.At? && index.i < |items|
    ensures cmd.Some? ==> items[index.i] in items && cmd.value == MentionAttrs(items[index.i])
  {
    if index.At? && index.i < |items| then Some(MentionAttrs(items[index.i])) else None
  }

  class Picker {
    var items: seq<seq<Field>>
    var selectedIndex: Index

    /** With at least one item, the highlighted index names one of them. */
    predicate Valid()
      reads this
    {
      (forall fs :: fs in items ==> IsUser(fs)) &&
      (|items| > 0 ==> selectedIndex.At? && selectedIndex.i < |items|)
    }

    constructor(items: seq<seq<Field>>)
      requires forall fs :: fs in items ==> IsUser(fs)
      ensures Valid() && this.items == items && selectedIndex == At(0)
    {
      this.items := items;
      selectedIndex := At(0);
    }

    /** The effect on a new item list: the highlight goes back to the first item. */
    method SetItems(newItems: seq<seq<Field>>)
      requires forall fs :: fs in newItems ==> IsUser(fs)
      modifies this
      ensures Valid() && items == newItems && selectedIndex == At(0)
    {
      items := newItems;
      selectedIndex := At(0);
    }

    /** A click on the index-th button. */
    method Click(index: nat) returns (cmd: Option<seq<Field>>)
      requires Valid()
      ensures cmd == SelectItem(items, At(index))
    {
      cmd := SelectItem(items, At(index));
    }

    /**
     * onKeyDown: ArrowUp and ArrowDown move the highlight, Enter picks the
     * highlighted item; those three keys are consumed, any other key is not
     * and changes nothing.
     */
    method OnKeyDown(key: string) returns (consumed: bool, cmd: Option<seq<Field>>)
      requires Valid()
      modifies this
      ensures Valid() && items == old(items)
      ensures consumed <==> key in {"ArrowUp", "ArrowDown", "Enter"}
      ensures key == "ArrowUp" ==> selectedIndex == Up(old(selectedIndex), |items|) && cmd.None?
      ensures key == "ArrowDown" ==> selectedIndex == Down(old(selectedIndex), |items|) && cmd.None?
      ensures key == "Enter" ==> selectedIndex == old(selectedIndex) && cmd == SelectItem(items, selectedIndex)
      ensures !consumed ==> selectedIndex == old(selectedIndex) && cmd.None?
    {
      cmd := None;
      if key == "ArrowUp" {
        selectedIndex := Up(selectedIndex, |items|);
        return true, None;
      }
      if key == "ArrowDown" {
        selectedIndex := Down(selectedIndex, |items|);
        return true, None;
      }
      if key == "Enter" {
        cmd := SelectItem(items, selectedIndex);
        return true, cmd;
      }
      consumed := false;
    }
  }
}
