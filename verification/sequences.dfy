/**
 * Counting and de-duplication over sequences: the building blocks of
 * `unique()`, `value_counts`-style tables and group sizes.
 */
module Sequences {

  /** Number of positions of `s` that hold `x`. */
  function Occurrences<T(==)>(s: seq<T>, x: T): (n: nat)
    ensures n <= |s|
    ensures n > 0 <==> x in s
  {
    if s == [] then 0
    else Occurrences(s[..|s| - 1], x) + (if s[|s| - 1] == x then 1 else 0)
  }

  predicate NoDuplicates<T(==)>(s: seq<T>)
  {
    forall i, j :: 0 <= i < j < |s| ==> s[i] != s[j]
  }

  /** The distinct elements of `s`, in order of first appearance (pandas `unique()`). */
  function Distinct<T(==, !new)>(s: seq<T>): (d: seq<T>)
    ensures NoDuplicates(d)
    ensures forall x :: x in d <==> x in s
  {
    if s == [] then []
    else
      var d := Distinct(s[..|s| - 1]);
      if s[|s| - 1] in d then d else d + [s[|s| - 1]]
  }

  /** One field of every row, in row order: a DataFrame column. */
  function Column<R, V>(rows: seq<R>, field: R -> V): (column: seq<V>)
    ensures |column| == |rows| && forall i :: 0 <= i < |rows| ==> column[i] == field(rows[i])
  {
    seq(|rows|, i requires 0 <= i < |rows| => field(rows[i]))
  }

  /** Position of the first `x` in `s`. */
  function IndexOf<T(==)>(s: seq<T>, x: T): (i: nat)
    requires x in s
    ensures i < |s| && s[i] == x
    ensures forall j :: 0 <= j < i ==> s[j] != x
  {
    if s[0] == x then 0 else 1 + IndexOf(s[1..], x)
  }

  /** In a sequence that starts with `p`, an element of `p` is first found where `p` has it first. */
  lemma IndexOfInPrefix<T>(p: seq<T>, s: seq<T>, x: T)
    requires |p| <= |s| && s[..|p|] == p && x in p
    ensures IndexOf(s, x) == IndexOf(p, x)
  {
    var i, k := IndexOf(s, x), IndexOf(p, x);
    assert s[k] == p[k] == x;
    assert i <= k;
    assert p[i] == s[i];
  }

  /** `unique()` lists the values in the order in which they first appear. */
  lemma {:induction false} DistinctFirstAppearance<T(!new)>(s: seq<T>)
    ensures forall i, j :: 0 <= i < j < |Distinct(s)| ==> IndexOf(s, Distinct(s)[i]) < IndexOf(s, Distinct(s)[j])
    decreases |s|
  {
    if s != [] {
      var p, x := s[..|s| - 1], s[|s| - 1];
      var d, dp := Distinct(s), Distinct(p);
      DistinctFirstAppearance(p);
      forall y | y in p
        ensures IndexOf(s, y) == IndexOf(p, y)
      {
        IndexOfInPrefix(p, s, y);
      }
      if x !in dp {
        assert d == dp + [x];
        assert IndexOf(s, x) == |s| - 1;
        forall i | 0 <= i < |dp|
          ensures IndexOf(s, d[i]) < IndexOf(s, x)
        {
          assert d[i] == dp[i] && dp[i] in p;
        }
      }
    }
  }

  /** The sum, over the elements `u`, of how often each occurs in `s`. */
  function SumOccurrences<T(==)>(s: seq<T>, u: seq<T>): (n: nat)
  {
    if u == [] then 0 else Occurrences(s, u[0]) + SumOccurrences(s, u[1..])
  }

  lemma {:induction false} OccurrencesAppend<T>(a: seq<T>, b: seq<T>, x: T)
    ensures Occurrences(a + b, x) == Occurrences(a, x) + Occurrences(b, x)
    decreases |b|
  {
    if b == [] {
      assert a + b == a;
    } else {
      var b' := b[..|b| - 1];
      assert (a + b)[..|a + b| - 1] == a + b';
      OccurrencesAppend(a, b', x);
    }
  }

  /** An element that occurs in a duplicate-free sequence occurs there exactly once. */
  lemma {:induction false} OccurrencesInDistinct<T>(u: seq<T>, x: T)
    requires NoDuplicates(u)
    ensures Occurrences(u, x) == if x in u then 1 else 0
  {
    if u != [] {
      var u' := u[..|u| - 1];
      assert NoDuplicates(u');
      OccurrencesInDistinct(u', x);
    }
  }

  lemma {:induction false} SumOccurrencesSnoc<T>(s: seq<T>, x: T, u: seq<T>)
    ensures SumOccurrences(s + [x], u) == SumOccurrences(s, u) + Occurrences(u, x)
    decreases |u|
  {
    if u != [] {
      OccurrencesAppend(s, [x], u[0]);
      OccurrencesAppend([u[0]], u[1..], x);
      assert [u[0]] + u[1..] == u;
      SumOccurrencesSnoc(s, x, u[1..]);
    }
  }

  /**
   * Counting every element of a duplicate-free cover `u` of `s` accounts
   * for each position of `s` exactly once: the counts sum to `|s|`.
   */
  lemma {:induction false} OccurrencesPartition<T>(s: seq<T>, u: seq<T>)
    requires NoDuplicates(u)
    requires forall x :: x in s ==> x in u
    ensures SumOccurrences(s, u) == |s|
    decreases |s|
  {
    if s == [] {
      SumOfNothing(u);
    } else {
      var s' := s[..|s| - 1];
      var x := s[|s| - 1];
      assert s' + [x] == s;
      OccurrencesPartition(s', u);
      SumOccurrencesSnoc(s', x, u);
      OccurrencesInDistinct(u, x);
    }
  }

  lemma {:induction false} SumOfNothing<T>(u: seq<T>)
    ensures SumOccurrences([], u) == 0
  {
    if u != [] {
      SumOfNothing(u[1..]);
    }
  }
}
