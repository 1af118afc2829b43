/** The contract of Go's sort.Slice: a permutation in order, equal elements in any order. */
module Sorting {
  ghost predicate WeakOrder<T(!new)>(less: (T, T) -> bool) {
    && (forall a, b :: less(a, b) ==> !less(b, a))
    && (forall a, b, c :: !less(b, a) && !less(c, b) ==> !less(c, a))
  }

  ghost predicate Ordered<T(!new)>(s: seq<T>, less: (T, T) -> bool) {
    forall i, j :: 0 <= i < j < |s| ==> !less(s[j], s[i])
  }

  lemma InsertedOrdered<T(!new)>(x: T, s: seq<T>, less: (T, T) -> bool, k: nat)
    requires WeakOrder(less) && Ordered(s, less) && k <= |s|
    requires forall i :: 0 <= i < k ==> less(s[i], x)
    requires k < |s| ==> !less(s[k], x)
    ensures Ordered(s[..k] + [x] + s[k..], less)
  {
    forall i | k <= i < |s| ensures !less(s[i], x) {
      if i > k { assert !less(s[i], s[k]); }
    }
  }

  /** One pass of insertion: `x` goes in front of the first element it does not follow. */
  method InsertOrdered<T(!new)>(x: T, s: seq<T>, less: (T, T) -> bool) returns (r: seq<T>)
    requires WeakOrder(less) && Ordered(s, less)
    ensures Ordered(r, less)
    ensures multiset(r) == multiset(s) + multiset{x}
  {
    var k := 0;
    while k < |s| && less(s[k], x)
      invariant 0 <= k <= |s|
      invariant forall i :: 0 <= i < k ==> less(s[i], x)
    {
      k := k + 1;
    }
    r := s[..k] + [x] + s[k..];
    assert s == s[..k] + s[k..];
    InsertedOrdered(x, s, less, k);
  }

  method SortSlice<T(!new)>(s: seq<T>, less: (T, T) -> bool) returns (r: seq<T>)
    requires WeakOrder(less)
    ensures Ordered(r, less)
    ensures multiset(r) == multiset(s)
  {
    r := [];
    for i := 0 to |s|
      invariant Ordered(r, less)
      invariant multiset(r) == multiset(s[..i])
    {
      assert s[..i + 1] == s[..i] + [s[i]];
      r := InsertOrdered(s[i], r, less);
    }
    assert s[..|s|] == s;
  }
}
