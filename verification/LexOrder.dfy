/** Lexicographic order over a strict total order, and what adjacent sortedness implies. */
module LexOrder {

  ghost predicate StrictOrder<T(!new)>(less: (T, T) -> bool) {
    && (forall x :: !less(x, x))
    && (forall x, y, z :: less(x, y) && less(y, z) ==> less(x, z))
  }

  ghost predicate StrictTotal<T(!new)>(less: (T, T) -> bool) {
    StrictOrder(less) && forall x, y :: x == y || less(x, y) || less(y, x)
  }

  predicate LexLess<T(==)>(less: (T, T) -> bool, a: seq<T>, b: seq<T>) {
    if b == [] then false
    else if a == [] then true
    else if a[0] == b[0] then LexLess(less, a[1..], b[1..])
    else less(a[0], b[0])
  }

  lemma {:induction false} LexIrreflexive<T(!new)>(less: (T, T) -> bool, a: seq<T>)
    ensures !LexLess(less, a, a)
  {
    if a != [] { LexIrreflexive(less, a[1..]); }
  }

  lemma {:induction false} LexTransitive<T(!new)>(less: (T, T) -> bool, a: seq<T>, b: seq<T>, c: seq<T>)
    requires StrictTotal(less)
    requires LexLess(less, a, b) && LexLess(less, b, c)
    ensures LexLess(less, a, c)
  {
    if a != [] && a[0] == b[0] && b[0] == c[0] {
      LexTransitive(less, a[1..], b[1..], c[1..]);
    } else if a != [] && a[0] != b[0] && b[0] != c[0] {
      assert less(a[0], b[0]) && less(b[0], c[0]);
      assert !less(a[0], a[0]);
    }
  }

  lemma {:induction false} LexTotal<T(!new)>(less: (T, T) -> bool, a: seq<T>, b: seq<T>)
    requires StrictTotal(less)
    ensures a == b || LexLess(less, a, b) || LexLess(less, b, a)
  {
    if a != [] && b != [] {
      if a[0] == b[0] {
        LexTotal(less, a[1..], b[1..]);
        assert a == [a[0]] + a[1..] && b == [b[0]] + b[1..];
      } else {
        assert less(a[0], b[0]) || less(b[0], a[0]);
      }
    }
  }

  /** Lexicographic comparison of a strict total order is a strict total order on sequences. */
  lemma LexStrictTotal<T(!new)>(less: (T, T) -> bool)
    requires StrictTotal(less)
    ensures StrictTotal((a: seq<T>, b: seq<T>) => LexLess(less, a, b))
  {
    forall a: seq<T> ensures !LexLess(less, a, a) { LexIrreflexive(less, a); }
    forall a: seq<T>, b: seq<T>, c: seq<T> | LexLess(less, a, b) && LexLess(less, b, c) ensures LexLess(less, a, c) {
      LexTransitive(less, a, b, c);
    }
    forall a: seq<T>, b: seq<T> ensures a == b || LexLess(less, a, b) || LexLess(less, b, a) {
      LexTotal(less, a, b);
    }
  }

  ghost predicate AdjacentSorted<T>(less: (T, T) -> bool, s: seq<T>) {
    forall i :: 0 <= i < |s| - 1 ==> less(s[i], s[i + 1])
  }

  /** Comparing only neighbours is enough: the whole list is then sorted and free of duplicates. */
  lemma {:induction false} AdjacentIsGlobal<T(!new)>(less: (T, T) -> bool, s: seq<T>, i: nat, j: nat)
    requires StrictOrder(less) && AdjacentSorted(less, s) && i < j < |s|
    ensures less(s[i], s[j]) && s[i] != s[j]
  {
    assert less(s[j - 1], s[j - 1 + 1]);
    if i < j - 1 {
      AdjacentIsGlobal(less, s, i, j - 1);
      assert less(s[i], s[j - 1]);
    }
    assert !less(s[i], s[i]);
  }

  predicate IntLess(a: int, b: int) { a < b }

  lemma IntStrictTotal()
    ensures StrictTotal(IntLess)
  {
  }
}
