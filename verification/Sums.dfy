/** Sums over the rows of a table, independent of any order of the rows. */
module Sums {
  import opened Domain

  type Rows = map<TxId, Transaction>

  ghost function Sum(rows: Rows, f: Transaction -> int): int
    decreases |rows|
  {
    if exists k :: k in rows then
      var k :| k in rows;
      f(rows[k]) + Sum(rows - {k}, f)
    else 0
  }

  lemma {:induction false} SumRemove(rows: Rows, k: TxId, f: Transaction -> int)
    requires k in rows
    ensures Sum(rows, f) == f(rows[k]) + Sum(rows - {k}, f)
    decreases |rows|
  {
    var j :| j in rows && Sum(rows, f) == f(rows[j]) + Sum(rows - {j}, f);
    if j != k {
      SumRemove(rows - {j}, k, f);
      SumRemove(rows - {k}, j, f);
      assert rows - {j} - {k} == rows - {k} - {j};
    }
  }

  lemma SumInsert(rows: Rows, k: TxId, t: Transaction, f: Transaction -> int)
    requires k !in rows
    ensures Sum(rows[k := t], f) == Sum(rows, f) + f(t)
  {
    SumRemove(rows[k := t], k, f);
    assert rows[k := t] - {k} == rows;
  }

  lemma SumUpdate(rows: Rows, k: TxId, t: Transaction, f: Transaction -> int)
    requires k in rows
    ensures Sum(rows[k := t], f) == Sum(rows, f) - f(rows[k]) + f(t)
  {
    SumRemove(rows, k, f);
    SumRemove(rows[k := t], k, f);
    assert rows[k := t] - {k} == rows - {k};
  }

  /** A weight that splits as g + h row by row splits as a sum. */
  lemma {:induction false} SumSplit(rows: Rows, f: Transaction -> int, g: Transaction -> int, h: Transaction -> int)
    requires forall k :: k in rows ==> f(rows[k]) == g(rows[k]) + h(rows[k])
    ensures Sum(rows, f) == Sum(rows, g) + Sum(rows, h)
    decreases |rows|
  {
    if k :| k in rows {
      SumRemove(rows, k, f);
      SumRemove(rows, k, g);
      SumRemove(rows, k, h);
      SumSplit(rows - {k}, f, g, h);
    }
  }

  lemma SumSame(rows: Rows, f: Transaction -> int, g: Transaction -> int)
    requires forall k :: k in rows ==> f(rows[k]) == g(rows[k])
    ensures Sum(rows, f) == Sum(rows, g)
  {
    var zero := (t: Transaction) => 0;
    SumSplit(rows, f, g, zero);
    SumSplit(rows, zero, zero, zero);
  }

  lemma {:induction false} SumNonNegative(rows: Rows, f: Transaction -> int)
    requires forall k :: k in rows ==> f(rows[k]) >= 0
    ensures Sum(rows, f) >= 0
    decreases |rows|
  {
    if k :| k in rows {
      SumRemove(rows, k, f);
      SumNonNegative(rows - {k}, f);
    }
  }
}
