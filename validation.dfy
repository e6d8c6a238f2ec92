/**
 * The validation engine: every cell is classified against the fixed range
 * [MinValue, MaxValue], and the error count is the number of cells outside
 * it, recomputed over the whole ledger. Validation never changes a value.
 */
module Validation {
  import opened LedgerTree

  const MinValue: real := 0.0
  /** The per-cell ceiling of the grid (one hundred million). */
  const MaxValue: real := 100000000.0

  /** A cell value is valid when it lies in [MinValue, MaxValue]. */
  predicate IsValidValue(v: real)
  {
    v >= MinValue && v <= MaxValue
  }

  /** Every cell of every row is valid. */
  predicate AllValid(rows: seq<Row>)
  {
    forall i, k :: 0 <= i < |rows| && 0 <= k < |rows[i].values| ==> IsValidValue(rows[i].values[k])
  }

  /** Number of entries of `vs` that fail validation. */
  function CellErrors(vs: seq<real>): (n: nat)
    ensures n <= |vs|
    ensures n == 0 <==> forall k :: 0 <= k < |vs| ==> IsValidValue(vs[k])
  {
    if vs == [] then 0
    else CellErrors(vs[..|vs| - 1]) + (if IsValidValue(vs[|vs| - 1]) then 0 else 1)
  }

  /** Number of (row, month) cells of the ledger that fail validation. */
  function ErrorCount(rows: seq<Row>): (n: nat)
    ensures n == 0 <==> AllValid(rows)
  {
    if rows == [] then 0
    else
      var n := ErrorCount(rows[..|rows| - 1]) + CellErrors(rows[|rows| - 1].values);
      assert AllValid(rows) <==> AllValid(rows[..|rows| - 1]) && CellErrors(rows[|rows| - 1].values) == 0 by {
        assert forall i :: 0 <= i < |rows| - 1 ==> rows[..|rows| - 1][i] == rows[i];
      }
      n
  }

  /** The failing cells of row `i`, whose month values are `vs`, as (row, month) pairs. */
  function RowErrorCells(i: nat, vs: seq<real>): set<(nat, nat)>
  {
    set k: nat | k < |vs| && !IsValidValue(vs[k]) :: (i, k)
  }

  /** The failing cells of the ledger, as (row, month) pairs. */
  function ErrorCells(rows: seq<Row>): set<(nat, nat)>
  {
    set i: nat, k: nat | i < |rows| && k < |rows[i].values| && !IsValidValue(rows[i].values[k]) :: (i, k)
  }

  lemma {:induction false} RowErrorCellsCount(i: nat, vs: seq<real>)
    ensures |RowErrorCells(i, vs)| == CellErrors(vs)
    decreases |vs|
  {
    if vs != [] {
      var n := |vs| - 1;
      var front := vs[..n];
      RowErrorCellsCount(i, front);
      var last: set<(nat, nat)> := if IsValidValue(vs[n]) then {} else {(i, n)};
      assert RowErrorCells(i, vs) == RowErrorCells(i, front) + last;
      assert RowErrorCells(i, front) * last == {};
    }
  }

  /** The error count is the number of (row, month) cells that fail validation. */
  lemma {:induction false} ErrorCountIsNumberOfErrorCells(rows: seq<Row>)
    ensures ErrorCount(rows) == |ErrorCells(rows)|
    decreases |rows|
  {
    if rows != [] {
      var n := |rows| - 1;
      var front := rows[..n];
      ErrorCountIsNumberOfErrorCells(front);
      RowErrorCellsCount(n, rows[n].values);
      assert ErrorCells(rows) == ErrorCells(front) + RowErrorCells(n, rows[n].values) by {
        assert forall i :: 0 <= i < n ==> front[i] == rows[i];
      }
      assert ErrorCells(front) * RowErrorCells(n, rows[n].values) == {};
    }
  }

  /** The error count of the grid: every month of every row, in order. */
  method TotalErrors(data: seq<Row>) returns (count: nat)
    ensures count == ErrorCount(data)
  {
    count := 0;
    for i := 0 to |data|
      invariant count == ErrorCount(data[..i])
    {
      var row := data[i];
      for k := 0 to |row.values|
        invariant count == ErrorCount(data[..i]) + CellErrors(row.values[..k])
      {
        assert row.values[..k + 1][..k] == row.values[..k];
        if !IsValidValue(row.values[k]) {
          count := count + 1;
        }
      }
      assert row.values[..|row.values|] == row.values;
      assert data[..i + 1][..i] == data[..i];
    }
    assert data[..|data|] == data;
  }
}
