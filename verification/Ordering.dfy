/** Sorting by an order given as a predicate: what an ORDER BY clause does to a list of rows. */
module Ordering {

  ghost predicate Transitive<T(!new)>(le: (T, T) -> bool) {
    forall x, y, z :: le(x, y) && le(y, z) ==> le(x, z)
  }

  ghost predicate Total<T(!new)>(le: (T, T) -> bool) {
    forall x, y :: le(x, y) || le(y, x)
  }

  ghost predicate Sorted<T>(xs: seq<T>, le: (T, T) -> bool) {
    forall i, j :: 0 <= i < j < |xs| ==> le(xs[i], xs[j])
  }

  function Insert<T>(x: T, xs: seq<T>, le: (T, T) -> bool): seq<T> {
    if xs == [] then [x]
    else if le(x, xs[0]) then [x] + xs
    else [xs[0]] + Insert(x, xs[1..], le)
  }

  function Sort<T>(xs: seq<T>, le: (T, T) -> bool): seq<T> {
    if xs == [] then [] else Insert(xs[0], Sort(xs[1..], le), le)
  }

  lemma {:induction false} InsertMembers<T>(x: T, xs: seq<T>, le: (T, T) -> bool)
    ensures multiset(Insert(x, xs, le)) == multiset{x} + multiset(xs)
    ensures forall y :: y in Insert(x, xs, le) <==> y == x || y in xs
  {
    if xs == [] || le(x, xs[0]) {
    } else {
      InsertMembers(x, xs[1..], le);
      assert xs == [xs[0]] + xs[1..];
    }
  }

  lemma {:induction false} InsertSorts<T(!new)>(x: T, xs: seq<T>, le: (T, T) -> bool)
    requires Transitive(le) && Total(le) && Sorted(xs, le)
    ensures Sorted(Insert(x, xs, le), le)
  {
    if xs == [] {
    } else {
      if le(x, xs[0]) {
        forall j | 0 <= j < |xs| ensures le(x, xs[j]) {
          assert j == 0 || le(xs[0], xs[j]);
        }
      } else {
        InsertSorts(x, xs[1..], le);
        InsertMembers(x, xs[1..], le);
        var rest := Insert(x, xs[1..], le);
        forall j | 0 <= j < |rest| ensures le(xs[0], rest[j]) {
          assert rest[j] in rest;
        }
      }
    }
  }

  /** Sorting keeps every row, as often as it was there, and puts them in order. */
  lemma {:induction false} SortSorts<T(!new)>(xs: seq<T>, le: (T, T) -> bool)
    requires Transitive(le) && Total(le)
    ensures Sorted(Sort(xs, le), le) && multiset(Sort(xs, le)) == multiset(xs)
  {
    if xs == [] {
    } else {
      SortSorts(xs[1..], le);
      InsertSorts(xs[0], Sort(xs[1..], le), le);
      InsertMembers(xs[0], Sort(xs[1..], le), le);
      assert xs == [xs[0]] + xs[1..];
    }
  }

  lemma {:induction false} SortedStays<T>(xs: seq<T>, le: (T, T) -> bool)
    requires Sorted(xs, le)
    ensures Sort(xs, le) == xs
  {
    if xs == [] {
    } else {
      SortedStays(xs[1..], le);
      assert |xs| > 1 ==> le(xs[0], xs[1]);
    }
  }

  lemma SameMembers<T>(xs: seq<T>, ys: seq<T>)
    requires multiset(xs) == multiset(ys)
    ensures |xs| == |ys| && forall x :: x in xs <==> x in ys
  {
    assert |multiset(xs)| == |xs| && |multiset(ys)| == |ys|;
    forall x ensures x in xs <==> x in ys {
      assert x in multiset(xs) <==> x in multiset(ys);
    }
  }
}
