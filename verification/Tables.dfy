/**
  Sums over database tables. A table whose rows have generated identifiers is a
  sequence (the identifier is the index); a table looked up by a unique owner is
  a map. The lemmas say how a sum changes when one row is added or rewritten.
 */
module Tables {

  datatype Option<+T> = None | Some(value: T)

  function Max(a: int, b: int): int {
    if a < b then b else a
  }

  function Min(a: int, b: int): int {
    if a < b then a else b
  }

  /** The sum of `f` over all rows of a table. */
  function Sum<T>(rows: seq<T>, f: T -> int): int {
    if rows == [] then 0 else Sum(rows[..|rows| - 1], f) + f(rows[|rows| - 1])
  }

  lemma SumAppend<T>(rows: seq<T>, row: T, f: T -> int)
    ensures Sum(rows + [row], f) == Sum(rows, f) + f(row)
  {
    assert (rows + [row])[..|rows|] == rows;
  }

  lemma {:induction false} SumUpdate<T>(rows: seq<T>, i: nat, row: T, f: T -> int)
    requires i < |rows|
    ensures Sum(rows[i := row], f) == Sum(rows, f) - f(rows[i]) + f(row)
  {
    var last := |rows| - 1;
    if i == last {
      assert rows[i := row][..last] == rows[..last];
    } else {
      assert rows[i := row][..last] == rows[..last][i := row];
      SumUpdate(rows[..last], i, row, f);
    }
  }

  lemma {:induction false} SumNonNegative<T>(rows: seq<T>, f: T -> int)
    requires forall i :: 0 <= i < |rows| ==> f(rows[i]) >= 0
    ensures Sum(rows, f) >= 0
    ensures forall i :: 0 <= i < |rows| ==> f(rows[i]) <= Sum(rows, f)
  {
    if rows != [] {
      SumNonNegative(rows[..|rows| - 1], f);
    }
  }

  /** The sum of `f` over all values of a map. */
  ghost function Total<K, V>(m: map<K, V>, f: V -> int): int {
    if m == map[] then 0 else
      var k :| k in m;
      Total(m - {k}, f) + f(m[k])
  }

  /** Any key may be taken out first. */
  lemma {:induction false} TotalPick<K, V>(m: map<K, V>, k: K, f: V -> int)
    requires k in m
    ensures Total(m, f) == Total(m - {k}, f) + f(m[k])
    decreases |m|
  {
    var j :| j in m && Total(m, f) == Total(m - {j}, f) + f(m[j]);
    if j != k {
      TotalPick(m - {j}, k, f);
      TotalPick(m - {k}, j, f);
      assert m - {j} - {k} == m - {k} - {j};
    }
  }

  lemma TotalUpdate<K, V>(m: map<K, V>, k: K, v: V, f: V -> int)
    ensures Total(m[k := v], f) == Total(m, f) - (if k in m then f(m[k]) else 0) + f(v)
  {
    TotalPick(m[k := v], k, f);
    assert m[k := v] - {k} == m - {k};
    if k in m {
      TotalPick(m, k, f);
    } else {
      assert m - {k} == m;
    }
  }
}
