/** Sorting by a strict total order: the sorted form is a permutation, and there is only one. */
module Sorting {
  import opened LexOrder

  /** Put `x` in front of the first element that is not below it. */
  function Place<T>(less: (T, T) -> bool, x: T, s: seq<T>): seq<T> {
    if s == [] then [x] else if less(s[0], x) then [s[0]] + Place(less, x, s[1..]) else [x] + s
  }

  function Sort<T>(less: (T, T) -> bool, s: seq<T>): seq<T> {
    if s == [] then [] else Place(less, s[0], Sort(less, s[1..]))
  }

  /** No element is above its successor. */
  ghost predicate Ascending<T>(less: (T, T) -> bool, s: seq<T>) {
    forall i, j :: 0 <= i < j < |s| ==> !less(s[j], s[i])
  }

  lemma {:induction false} PlacePermutes<T>(less: (T, T) -> bool, x: T, s: seq<T>)
    ensures multiset(Place(less, x, s)) == multiset(s) + multiset{x}
  {
    if s != [] && less(s[0], x) {
      PlacePermutes(less, x, s[1..]);
      assert s == [s[0]] + s[1..];
    }
  }

  lemma {:induction false} SortPermutes<T>(less: (T, T) -> bool, s: seq<T>)
    ensures multiset(Sort(less, s)) == multiset(s)
  {
    if s != [] {
      SortPermutes(less, s[1..]);
      PlacePermutes(less, s[0], Sort(less, s[1..]));
      assert s == [s[0]] + s[1..];
    }
  }

  lemma InPlaced<T>(less: (T, T) -> bool, x: T, s: seq<T>, y: T)
    requires y in Place(less, x, s)
    ensures y == x || y in s
  {
    PlacePermutes(less, x, s);
    assert y in multiset(Place(less, x, s));
  }

  lemma {:induction false} PlaceAscends<T(!new)>(less: (T, T) -> bool, x: T, s: seq<T>)
    requires StrictTotal(less) && Ascending(less, s)
    ensures Ascending(less, Place(less, x, s))
  {
    var p := Place(less, x, s);
    if s != [] && less(s[0], x) {
      PlaceAscends(less, x, s[1..]);
      forall j | 1 <= j < |p| ensures !less(p[j], p[0]) {
        assert p[j] == Place(less, x, s[1..])[j - 1];
        InPlaced(less, x, s[1..], p[j]);
      }
    } else if s != [] {
      forall j | 1 <= j < |p| ensures !less(p[j], p[0]) {
        assert p[j] == s[j - 1];
        if less(s[j - 1], x) { assert x == s[0] || less(x, s[0]); }
      }
    }
  }

  lemma {:induction false} SortAscends<T(!new)>(less: (T, T) -> bool, s: seq<T>)
    requires StrictTotal(less)
    ensures Ascending(less, Sort(less, s))
  {
    if s != [] {
      SortAscends(less, s[1..]);
      PlaceAscends(less, s[0], Sort(less, s[1..]));
    }
  }

  lemma Trichotomy<T(!new)>(less: (T, T) -> bool, x: T, y: T)
    requires StrictTotal(less)
    ensures x == y || less(x, y) || less(y, x)
  {
  }

  /** Nothing in an ascending list is below its head. */
  lemma HeadIsLeast<T(!new)>(less: (T, T) -> bool, s: seq<T>, x: T)
    requires StrictTotal(less) && Ascending(less, s) && x in s
    ensures !less(x, s[0])
  {
    var i :| 0 <= i < |s| && s[i] == x;
  }

  lemma TailOf<T>(s: seq<T>)
    requires s != []
    ensures multiset(s[1..]) == multiset(s) - multiset{s[0]}
  {
    assert s == [s[0]] + s[1..];
  }

  /** Two ascending lists of the same elements are the same list. */
  lemma {:induction false} AscendingUnique<T(!new)>(less: (T, T) -> bool, a: seq<T>, b: seq<T>)
    requires StrictTotal(less) && Ascending(less, a) && Ascending(less, b) && multiset(a) == multiset(b)
    ensures a == b
  {
    assert |multiset(a)| == |a| && |multiset(b)| == |b|;
    if a != [] {
      assert a[0] in multiset(b) && b[0] in multiset(a);
      HeadIsLeast(less, a, b[0]);
      HeadIsLeast(less, b, a[0]);
      Trichotomy(less, a[0], b[0]);
      TailOf(a);
      TailOf(b);
      AscendingUnique(less, a[1..], b[1..]);
      assert a == [a[0]] + a[1..] && b == [b[0]] + b[1..];
    }
  }

  /** Sorted forms agree exactly on permutations. */
  lemma SortIsCanonical<T(!new)>(less: (T, T) -> bool, a: seq<T>, b: seq<T>)
    requires StrictTotal(less)
    ensures Sort(less, a) == Sort(less, b) <==> multiset(a) == multiset(b)
  {
    SortPermutes(less, a);
    SortPermutes(less, b);
    SortAscends(less, a);
    SortAscends(less, b);
    if multiset(a) == multiset(b) { AscendingUnique(less, Sort(less, a), Sort(less, b)); }
  }

  ghost predicate Distinct<T(!new)>(s: seq<T>) {
    forall i, j :: 0 <= i < j < |s| ==> s[i] != s[j]
  }

  ghost predicate HasEqualNeighbours<T(!new)>(s: seq<T>) {
    exists i :: 0 <= i < |s| - 1 && s[i] == s[i + 1]
  }

  lemma TwiceThere<T(!new)>(s: seq<T>, i: nat, j: nat)
    requires i < j < |s| && s[i] == s[j]
    ensures multiset(s)[s[i]] >= 2
  {
    assert s == s[..j] + s[j..];
    assert s[..j][i] in multiset(s[..j]) && s[j..][0] in multiset(s[j..]);
  }

  lemma {:induction false} DistinctOnce<T(!new)>(s: seq<T>)
    requires Distinct(s)
    ensures forall x :: multiset(s)[x] <= 1
  {
    if s != [] {
      var rest := s[1..];
      assert forall i :: 0 <= i < |rest| ==> rest[i] == s[i + 1];
      DistinctOnce(rest);
      assert s == [s[0]] + rest;
      assert s[0] !in multiset(rest);
    }
  }

  lemma DistinctIsMultiplicity<T(!new)>(s: seq<T>)
    ensures Distinct(s) <==> forall x :: multiset(s)[x] <= 1
  {
    if Distinct(s) {
      DistinctOnce(s);
    } else {
      var i, j :| 0 <= i < j < |s| && s[i] == s[j];
      TwiceThere(s, i, j);
    }
  }

  /** In a sorted list, comparing neighbours finds every duplicate of the original. */
  lemma NeighboursShowDuplicates<T(!new)>(less: (T, T) -> bool, s: seq<T>)
    requires StrictTotal(less)
    ensures HasEqualNeighbours(Sort(less, s)) <==> !Distinct(s)
  {
    var t := Sort(less, s);
    SortPermutes(less, s);
    SortAscends(less, s);
    DistinctIsMultiplicity(s);
    DistinctIsMultiplicity(t);
    if !Distinct(t) {
      var i, j :| 0 <= i < j < |t| && t[i] == t[j];
      Trichotomy(less, t[i], t[i + 1]);
      assert t[i] == t[i + 1];
    }
  }
}
