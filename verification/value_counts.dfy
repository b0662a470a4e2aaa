/**
 * `count_values(df, column)`: a dictionary from each distinct value of a
 * column to the number of rows that hold it, filled in a loop over the
 * column's `unique()` values.
 */
module ValueCounts {
  import opened Sequences

  /** The sum of the values of a finite map, in no particular key order. */
  ghost function MapTotal<K>(m: map<K, nat>): (total: nat)
    decreases |m.Keys|
  {
    if m == map[] then 0
    else
      var k :| k in m;
      assert (m - {k}).Keys < m.Keys;
      m[k] + MapTotal(m - {k})
  }

  /** Any key can be taken out first: the total does not depend on the order. */
  lemma {:induction false} MapTotalRemove<K>(m: map<K, nat>, k: K)
    requires k in m
    ensures MapTotal(m) == m[k] + MapTotal(m - {k})
    decreases |m.Keys|
  {
    assert exists j :: j in m && MapTotal(m) == m[j] + MapTotal(m - {j});
    var j :| j in m && MapTotal(m) == m[j] + MapTotal(m - {j});
    if j != k {
      assert (m - {j}).Keys < m.Keys && (m - {k}).Keys < m.Keys;
      MapTotalRemove(m - {j}, k);
      MapTotalRemove(m - {k}, j);
      assert m - {j} - {k} == m - {k} - {j};
    }
  }

  /** Adding a new key adds its value to the total. */
  lemma MapTotalAdd<K>(m: map<K, nat>, k: K, v: nat)
    requires k !in m
    ensures MapTotal(m[k := v]) == MapTotal(m) + v
  {
    MapTotalRemove(m[k := v], k);
    assert m[k := v] - {k} == m;
  }

  lemma {:induction false} SumOccurrencesAppend<T>(s: seq<T>, u: seq<T>, x: T)
    ensures SumOccurrences(s, u + [x]) == SumOccurrences(s, u) + Occurrences(s, x)
  {
    if u == [] {
      assert [] + [x] == [x] && [x][1..] == [];
    } else {
      assert (u + [x])[1..] == u[1..] + [x];
      SumOccurrencesAppend(s, u[1..], x);
    }
  }

  /**
   * A frequency table of a column: its keys are exactly the values that
   * occur in the column, each maps to the number of rows holding it (so to
   * at least one), and the counts add up to the number of rows.
   */
  ghost predicate IsCountTable<T(!new)>(counts: map<T, nat>, column: seq<T>)
  {
    && (forall x :: x in counts <==> x in column)
    && (forall x :: x in counts ==> counts[x] == Occurrences(column, x) && counts[x] >= 1)
    && MapTotal(counts) == |column|
  }

  /** A column has only one frequency table, whatever order its values were visited in. */
  lemma CountTableUnique<T(!new)>(a: map<T, nat>, b: map<T, nat>, column: seq<T>)
    requires IsCountTable(a, column) && IsCountTable(b, column)
    ensures a == b
  {
  }

  /** The table after the loop has visited the values `done`. */
  ghost predicate TableSoFar<T(!new)>(counts: map<T, nat>, column: seq<T>, done: seq<T>)
  {
    && (forall x :: x in counts <==> x in done)
    && (forall x :: x in counts ==> counts[x] == Occurrences(column, x))
    && MapTotal(counts) == SumOccurrences(column, done)
  }

  /** One iteration of the loop: a value not yet visited gets its count. */
  lemma CountStep<T(!new)>(counts: map<T, nat>, column: seq<T>, done: seq<T>, value: T)
    requires TableSoFar(counts, column, done) && value !in done
    ensures TableSoFar(counts[value := Occurrences(column, value)], column, done + [value])
  {
    MapTotalAdd(counts, value, Occurrences(column, value));
    SumOccurrencesAppend(column, done, value);
  }

  /** After the last value the table is complete. */
  lemma TableComplete<T(!new)>(counts: map<T, nat>, column: seq<T>, uniqueValues: seq<T>)
    requires NoDuplicates(uniqueValues) && forall x :: x in uniqueValues <==> x in column
    requires TableSoFar(counts, column, uniqueValues)
    ensures IsCountTable(counts, column)
  {
    OccurrencesPartition(column, uniqueValues);
  }

  lemma NotYetVisited<T>(u: seq<T>, i: nat)
    requires NoDuplicates(u) && i < |u|
    ensures u[i] !in u[..i]
  {
  }

  /** `count_values(df, column)`. */
  method CountValues<T(==, !new)>(column: seq<T>) returns (counts: map<T, nat>)
    ensures IsCountTable(counts, column)
  {
    var uniqueValues := Distinct(column);
    counts := map[];
    for i := 0 to |uniqueValues|
      invariant TableSoFar(counts, column, uniqueValues[..i])
    {
      var value := uniqueValues[i];
      var count := Occurrences(column, value);
      NotYetVisited(uniqueValues, i);
      CountStep(counts, column, uniqueValues[..i], value);
      assert uniqueValues[..i + 1] == uniqueValues[..i] + [value];
      counts := counts[value := count];
    }
    assert uniqueValues[..|uniqueValues|] == uniqueValues;
    TableComplete(counts, column, uniqueValues);
  }
}
