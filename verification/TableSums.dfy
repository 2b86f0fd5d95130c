/** Sums of a weight over the rows of a table. */
module TableSums {
  import opened JobTable

  function Total(rows: Table, upTo: nat, weight: Row -> nat): nat
    requires upTo <= |rows|
  {
    if upTo == 0 then 0 else Total(rows, upTo - 1, weight) + weight(rows[upTo - 1])
  }

  lemma {:induction false} TotalUpdate(rows: Table, upTo: nat, weight: Row -> nat, i: JobId, row: Row)
    requires upTo <= |rows| && i < |rows|
    ensures Total(rows[i := row], upTo, weight) + (if i < upTo then weight(rows[i]) else 0)
         == Total(rows, upTo, weight) + (if i < upTo then weight(row) else 0)
  {
    if upTo > 0 {
      TotalUpdate(rows, upTo - 1, weight, i, row);
    }
  }

  lemma {:induction false} TotalOfPrefix(rows: Table, more: Table, upTo: nat, weight: Row -> nat)
    requires upTo <= |rows|
    ensures Total(rows + more, upTo, weight) == Total(rows, upTo, weight)
  {
    if upTo > 0 {
      TotalOfPrefix(rows, more, upTo - 1, weight);
    }
  }

  lemma {:induction false} TotalMonotone(rows: Table, upTo: nat, small: Row -> nat, large: Row -> nat)
    requires upTo <= |rows|
    requires forall i | 0 <= i < upTo :: small(rows[i]) <= large(rows[i])
    ensures Total(rows, upTo, small) <= Total(rows, upTo, large)
  {
    if upTo > 0 {
      TotalMonotone(rows, upTo - 1, small, large);
    }
  }
}
