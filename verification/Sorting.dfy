/** Sorting by any strict weak order; it stands for the library sorts of slices. */
module Sorting {

  /** What a comparison must satisfy: `less` is asymmetric and its negation is transitive. */
  ghost predicate IsOrder<T(!new)>(less: (T, T) -> bool) {
    && (forall a, b :: less(a, b) ==> !less(b, a))
    && (forall a, b, c :: !less(b, a) && less(b, c) ==> less(a, c))
  }

  predicate Sorted<T>(s: seq<T>, less: (T, T) -> bool) {
    forall i, j :: 0 <= i < j < |s| ==> !less(s[j], s[i])
  }

  function Insert<T(!new)>(x: T, s: seq<T>, less: (T, T) -> bool): (r: seq<T>)
    requires IsOrder(less) && Sorted(s, less)
    ensures multiset(r) == multiset(s) + multiset{x} && Sorted(r, less)
  {
    if s == [] || !less(s[0], x) then
      InsertFirst(x, s, less);
      [x] + s
    else
      assert s == [s[0]] + s[1..];
      var rest := Insert(x, s[1..], less);
      InsertLater(x, s, rest, less);
      [s[0]] + rest
  }

  lemma InsertFirst<T(!new)>(x: T, s: seq<T>, less: (T, T) -> bool)
    requires IsOrder(less) && Sorted(s, less) && (s == [] || !less(s[0], x))
    ensures Sorted([x] + s, less)
  {
    forall j | 0 <= j < |s| ensures !less(s[j], x) {
      assert j > 0 ==> !less(s[j], s[0]);
    }
  }

  lemma InsertLater<T(!new)>(x: T, s: seq<T>, rest: seq<T>, less: (T, T) -> bool)
    requires IsOrder(less) && Sorted(s, less) && s != [] && less(s[0], x)
    requires Sorted(rest, less) && multiset(rest) == multiset(s[1..]) + multiset{x}
    ensures Sorted([s[0]] + rest, less)
  {
    forall j | 0 <= j < |rest| ensures !less(rest[j], s[0]) {
      assert rest[j] in multiset(rest);
      if rest[j] != x { assert rest[j] in s[1..]; }
    }
  }

  /** A sorted rearrangement. */
  function Sort<T(!new)>(s: seq<T>, less: (T, T) -> bool): (r: seq<T>)
    requires IsOrder(less)
    ensures multiset(r) == multiset(s) && Sorted(r, less)
  {
    if s == [] then []
    else
      assert s == [s[0]] + s[1..];
      Insert(s[0], Sort(s[1..], less), less)
  }
}
