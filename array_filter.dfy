/**
 * Array.prototype.filter with a test that does not throw: the elements that
 * pass, in their original order.  The event list's delete and the mention
 * suggestions both filter this way.
 */
module ArrayFilter {

  function FilterBy<T(!new)>(s: seq<T>, keep: T -> bool): (r: seq<T>)
    ensures |r| <= |s|
    ensures forall x :: x in r <==> x in s && keep(x)
  {
    if s == [] then []
    else (if keep(s[0]) then [s[0]] else []) + FilterBy(s[1..], keep)
  }

  /** The filter keeps order: it distributes over concatenation. */
  lemma {:induction false} FilterByKeepsOrder<T(!new)>(a: seq<T>, b: seq<T>, keep: T -> bool)
    ensures FilterBy(a + b, keep) == FilterBy(a, keep) + FilterBy(b, keep)
  {
    if a != [] {
      assert (a + b)[0] == a[0] && (a + b)[1..] == a[1..] + b;
      FilterByKeepsOrder(a[1..], b, keep);
      var head := if keep(a[0]) then [a[0]] else [];
      calc {
        FilterBy(a + b, keep);
        head + FilterBy(a[1..] + b, keep);
        head + (FilterBy(a[1..], keep) + FilterBy(b, keep));
        (head + FilterBy(a[1..], keep)) + FilterBy(b, keep);
      }
    } else {
      assert a + b == b;
    }
  }

  /** When every element passes, the list comes back as it is. */
  lemma {:induction false} FilterByAll<T(!new)>(s: seq<T>, keep: T -> bool)
    requires forall x :: x in s ==> keep(x)
    ensures FilterBy(s, keep) == s
  {
    if s != [] {
      assert s[0] in s;
      assert forall x :: x in s[1..] ==> x in s;
      FilterByAll(s[1..], keep);
    }
  }

  /** When no element passes, nothing is left. */
  lemma {:induction false} FilterByNone<T(!new)>(s: seq<T>, keep: T -> bool)
    requires forall x :: x in s ==> !keep(x)
    ensures FilterBy(s, keep) == []
  {
    if s != [] {
      assert s[0] in s;
      assert forall x :: x in s[1..] ==> x in s;
      FilterByNone(s[1..], keep);
    }
  }
}
