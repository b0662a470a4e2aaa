/**
 * Strict total orders, sorted sequences and the sorted set of distinct
 * keys that pandas builds for `groupby(..., sort=True)` and for the
 * categories of `astype('category')`.
 */
module Ordering {

  ghost predicate StrictTotalOrder<T(!new)>(less: (T, T) -> bool)
  {
    && (forall x :: !less(x, x))
    && (forall x, y, z :: less(x, y) && less(y, z) ==> less(x, z))
    && (forall x, y :: x != y ==> less(x, y) || less(y, x))
  }

  predicate StrictlySorted<T>(s: seq<T>, less: (T, T) -> bool)
  {
    forall i, j :: 0 <= i < j < |s| ==> less(s[i], s[j])
  }

  /** Inserts `x` into `s` unless it is already there; keeps a sorted `s` sorted. */
  function Insert<T(==, !new)>(x: T, s: seq<T>, less: (T, T) -> bool): (r: seq<T>)
    ensures forall y :: y in r <==> y == x || y in s
  {
    if s == [] then [x]
    else if x == s[0] then s
    else if less(x, s[0]) then [x] + s
    else [s[0]] + Insert(x, s[1..], less)
  }

  /** The distinct elements of `s` in ascending order. */
  function SortedDistinct<T(==, !new)>(s: seq<T>, less: (T, T) -> bool): (r: seq<T>)
    ensures forall y :: y in r <==> y in s
  {
    if s == [] then []
    else Insert(s[|s| - 1], SortedDistinct(s[..|s| - 1], less), less)
  }

  lemma {:induction false} InsertSorted<T(!new)>(x: T, s: seq<T>, less: (T, T) -> bool)
    requires StrictTotalOrder(less)
    requires StrictlySorted(s, less)
    ensures StrictlySorted(Insert(x, s, less), less)
  {
    if s != [] && x != s[0] && !less(x, s[0]) {
      assert StrictlySorted(s[1..], less);
      InsertSorted(x, s[1..], less);
      var rest := Insert(x, s[1..], less);
      assert less(s[0], x);
      forall y | y in rest ensures less(s[0], y) {
        if y != x {
          var k :| 0 <= k < |s[1..]| && s[1..][k] == y;
          assert s[k + 1] == y;
        }
      }
    }
  }

  /** A strictly sorted sequence under a strict order has no repeated element. */
  lemma SortedIsDistinct<T(!new)>(s: seq<T>, less: (T, T) -> bool)
    requires StrictTotalOrder(less)
    requires StrictlySorted(s, less)
    ensures forall i, j :: 0 <= i < j < |s| ==> s[i] != s[j]
  {
  }

  lemma {:induction false} SortedDistinctSorted<T(!new)>(s: seq<T>, less: (T, T) -> bool)
    requires StrictTotalOrder(less)
    ensures StrictlySorted(SortedDistinct(s, less), less)
    ensures forall i, j :: 0 <= i < j < |SortedDistinct(s, less)| ==> SortedDistinct(s, less)[i] != SortedDistinct(s, less)[j]
  {
    if s != [] {
      SortedDistinctSorted(s[..|s| - 1], less);
      InsertSorted(s[|s| - 1], SortedDistinct(s[..|s| - 1], less), less);
    }
    SortedIsDistinct(SortedDistinct(s, less), less);
  }

  /** Python's `str` comparison: lexicographic by code point, a proper prefix first. */
  predicate StrLess(a: string, b: string)
  {
    if a == [] then b != []
    else if b == [] then false
    else if a[0] != b[0] then a[0] < b[0]
    else StrLess(a[1..], b[1..])
  }

  lemma {:induction false} StrLessIrreflexive(a: string)
    ensures !StrLess(a, a)
  {
    if a != [] {
      StrLessIrreflexive(a[1..]);
    }
  }

  lemma {:induction false} StrLessTransitive(a: string, b: string, c: string)
    requires StrLess(a, b) && StrLess(b, c)
    ensures StrLess(a, c)
  {
    if a != [] && a[0] == b[0] && b[0] == c[0] {
      StrLessTransitive(a[1..], b[1..], c[1..]);
    }
  }

  lemma {:induction false} StrLessTotal(a: string, b: string)
    requires a != b
    ensures StrLess(a, b) || StrLess(b, a)
  {
    if a != [] && b != [] && a[0] == b[0] {
      assert a == [a[0]] + a[1..] && b == [b[0]] + b[1..];
      StrLessTotal(a[1..], b[1..]);
    }
  }

  lemma StrLessIsStrictTotalOrder()
    ensures StrictTotalOrder(StrLess)
  {
    forall a | true ensures !StrLess(a, a) {
      StrLessIrreflexive(a);
    }
    forall a, b, c | StrLess(a, b) && StrLess(b, c) ensures StrLess(a, c) {
      StrLessTransitive(a, b, c);
    }
    forall a, b | a != b ensures StrLess(a, b) || StrLess(b, a) {
      StrLessTotal(a, b);
    }
  }
}
