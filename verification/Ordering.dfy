// Orders given by a comparator, sorted sequences and permutations.
module Ordering {

  // What a sorting routine may assume of its comparator.
  ghost predicate StrictWeak<T(!new)>(lt: (T, T) -> bool)
  {
    && (forall x :: !lt(x, x))
    && (forall x, y, z :: lt(x, y) && lt(y, z) ==> lt(x, z))
    && (forall x, y, z :: lt(x, z) ==> lt(x, y) || lt(y, z))
  }

  ghost predicate Sorted<T>(s: seq<T>, lt: (T, T) -> bool)
  {
    forall i, j :: 0 <= i < j < |s| ==> !lt(s[j], s[i])
  }

  // A routine such as parlay::sort: its result is ordered and has the same elements.
  ghost predicate SortsBy<T(!new)>(sort: seq<T> -> seq<T>, lt: (T, T) -> bool)
  {
    forall s :: Sorted(sort(s), lt) && multiset(sort(s)) == multiset(s)
  }

  // No element of the first list comes after an element of the second.
  ghost predicate Precedes<T>(a: seq<T>, b: seq<T>, lt: (T, T) -> bool)
  {
    forall i, j :: 0 <= i < |a| && 0 <= j < |b| ==> !lt(b[j], a[i])
  }

  lemma SortedAppend<T>(a: seq<T>, b: seq<T>, lt: (T, T) -> bool)
    requires Sorted(a, lt) && Sorted(b, lt) && Precedes(a, b, lt)
    ensures Sorted(a + b, lt)
  {
  }
}
