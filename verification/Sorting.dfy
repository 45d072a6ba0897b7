/** Sorting by a given order, in place of the library's. */
module Sorting {
  ghost predicate IsOrder<T(!new)>(less: (T, T) -> bool) {
    && (forall a, b :: !(less(a, b) && less(b, a)))
    && (forall a, b, c :: !less(a, b) && !less(b, c) ==> !less(a, c))
  }

  predicate Sorted<T>(s: seq<T>, less: (T, T) -> bool) {
    forall i, j :: 0 <= i < j < |s| ==> !less(s[j], s[i])
  }

  method Sort<T(!new)>(s: seq<T>, less: (T, T) -> bool) returns (out: seq<T>)
    requires IsOrder(less)
    ensures Sorted(out, less) && multiset(out) == multiset(s)
  {
    out := [];
    for i := 0 to |s|
      invariant Sorted(out, less) && multiset(out) == multiset(s[..i])
    {
      assert s[..i + 1] == s[..i] + [s[i]];
      out := Insert(out, s[i], less);
    }
    assert s[..|s|] == s;
  }

  method Insert<T(!new)>(sorted: seq<T>, x: T, less: (T, T) -> bool) returns (out: seq<T>)
    requires IsOrder(less) && Sorted(sorted, less)
    ensures Sorted(out, less) && multiset(out) == multiset(sorted) + multiset{x}
  {
    var i := |sorted|;
    while i > 0 && less(x, sorted[i - 1])
      invariant 0 <= i <= |sorted|
      invariant forall j :: i <= j < |sorted| ==> less(x, sorted[j])
    {
      i := i - 1;
    }
    assert forall j :: 0 <= j < i ==> !less(x, sorted[j]) by {
      assert forall j :: 0 <= j < i - 1 ==> !less(sorted[i - 1], sorted[j]);
    }
    assert sorted == sorted[..i] + sorted[i..];
    out := sorted[..i] + [x] + sorted[i..];
    InsertedIsSorted(sorted, i, x, less);
  }

  lemma InsertedIsSorted<T>(sorted: seq<T>, i: nat, x: T, less: (T, T) -> bool)
    requires Sorted(sorted, less) && i <= |sorted|
    requires forall j :: 0 <= j < i ==> !less(x, sorted[j])
    requires forall j :: i <= j < |sorted| ==> !less(sorted[j], x)
    ensures Sorted(sorted[..i] + [x] + sorted[i..], less)
  {
  }
}
