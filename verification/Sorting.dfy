/** Python's stable list sort. */
module Sorting {
  /** A strict order: what `sorted` compares with. */
  ghost predicate StrictOrder<T(!new)>(less: (T, T) -> bool) {
    && (forall a, b :: less(a, b) ==> !less(b, a))
    && (forall a, b, c :: less(a, b) && less(b, c) ==> less(a, c))
  }

  function Insert<T>(x: T, s: seq<T>, less: (T, T) -> bool): (r: seq<T>)
    ensures multiset(r) == multiset{x} + multiset(s)
    ensures forall y :: y in r ==> y == x || y in s
  {
    if s == [] then [x]
    else
      assert s == [s[0]] + s[1..];
      if less(x, s[0]) then [x] + s else [s[0]] + Insert(x, s[1..], less)
  }

  /** Equal elements keep their order, because later elements are inserted after them. */
  function Sort<T>(s: seq<T>, less: (T, T) -> bool): (r: seq<T>)
    ensures multiset(r) == multiset(s)
  {
    if s == [] then []
    else
      var last := |s| - 1;
      assert s == s[..last] + [s[last]];
      Insert(s[last], Sort(s[..last], less), less)
  }

  ghost predicate Sorted<T>(s: seq<T>, less: (T, T) -> bool) {
    forall i, j :: 0 <= i < j < |s| ==> !less(s[j], s[i])
  }

  lemma ConsSorted<T>(x: T, s: seq<T>, less: (T, T) -> bool)
    requires Sorted(s, less) && forall y :: y in s ==> !less(y, x)
    ensures Sorted([x] + s, less)
  {
    var r := [x] + s;
    forall i, j | 0 <= i < j < |r| ensures !less(r[j], r[i]) {
      if i == 0 { assert r[j] == s[j - 1] && s[j - 1] in s; }
    }
  }

  lemma {:induction false} InsertSorted<T(!new)>(x: T, s: seq<T>, less: (T, T) -> bool)
    requires StrictOrder(less) && Sorted(s, less)
    ensures Sorted(Insert(x, s, less), less)
  {
    if s == [] {
    } else if less(x, s[0]) {
      forall y | y in s ensures !less(y, x) {
        var i :| 0 <= i < |s| && s[i] == y;
        var first := s[0];
        assert less(y, x) ==> less(y, first);
      }
      ConsSorted(x, s, less);
    } else {
      var rest := s[1..];
      assert forall i :: 0 <= i < |rest| ==> !less(rest[i], s[0]);
      InsertSorted(x, rest, less);
      ConsSorted(s[0], Insert(x, rest, less), less);
    }
  }

  lemma {:induction false} SortSorts<T(!new)>(s: seq<T>, less: (T, T) -> bool)
    requires StrictOrder(less)
    ensures Sorted(Sort(s, less), less)
  {
    if s != [] {
      var last := |s| - 1;
      SortSorts(s[..last], less);
      InsertSorted(s[last], Sort(s[..last], less), less);
    }
  }
}
