/**
 * The ledger tree of the planning grid: a flat list of rows, each annotated
 * with its depth (`level`), read as the pre-order flattening of a tree.
 * A row's immediate children are the rows at `level + 1` inside the
 * contiguous run of deeper rows that follows it; the run ends at the first
 * row whose level is at or above the row's own.
 */
module LedgerTree {

  /** Number of month columns of the grid (January to December). */
  const Months: nat := 12

  /** One line item of the ledger; `values[m]` is the amount for month m. */
  datatype Row = Row(id: string, account: string, level: nat, isTotal: bool, values: seq<real>)

  /** The amount of row `r` in month `m`; a month the row does not carry counts as 0. */
  function Cell(r: Row, m: nat): real
  {
    if m < |r.values| then r.values[m] else 0.0
  }

  /** Every row carries a value for month `m`. */
  predicate HasMonth(rows: seq<Row>, m: nat)
  {
    forall i :: 0 <= i < |rows| ==> m < |rows[i].values|
  }

  /** Every row carries exactly the twelve months. */
  predicate HasAllMonths(rows: seq<Row>)
  {
    forall i :: 0 <= i < |rows| ==> |rows[i].values| == Months
  }

  /** The row at `index` is drawn as a parent: the next row is deeper. */
  predicate IsParentRow(rows: seq<Row>, index: nat)
  {
    index + 1 < |rows| && rows[index + 1].level > rows[index].level
  }

  /** The flat list is a pre-order tree: the first row is a root, no row is
      more than one level deeper than the row before it, and ids are unique. */
  predicate WellFormed(rows: seq<Row>)
  {
    && (|rows| > 0 ==> rows[0].level == 0)
    && (forall i :: 0 < i < |rows| ==> rows[i].level <= rows[i - 1].level + 1)
    && (forall i, j :: 0 <= i < j < |rows| ==> rows[i].id != rows[j].id)
  }

  /** Length of the leading run of rows of `s` that are deeper than `lvl`. */
  function RunLength(s: seq<Row>, lvl: nat): (k: nat)
    ensures k <= |s|
    ensures forall q :: 0 <= q < k ==> s[q].level > lvl
    ensures k < |s| ==> s[k].level <= lvl
  {
    if s == [] || s[0].level <= lvl then 0 else 1 + RunLength(s[1..], lvl)
  }

  /** Sum of month `m` over the rows at level `lvl + 1` in the leading run of
      rows of `s` deeper than `lvl`; deeper descendants are not added. */
  function RunSum(s: seq<Row>, lvl: nat, m: nat): real
  {
    if s == [] || s[0].level <= lvl then 0.0
    else (if s[0].level == lvl + 1 then Cell(s[0], m) else 0.0) + RunSum(s[1..], lvl, m)
  }

  /** Sum of month `m` over the immediate children of row `p`. */
  function ChildSum(rows: seq<Row>, p: nat, m: nat): real
    requires p < |rows|
  {
    RunSum(rows[p + 1..], rows[p].level, m)
  }

  /** Indices, from `j` on, of the rows at level `lvl + 1` before the first row at or above `lvl`. */
  function ChildrenFrom(rows: seq<Row>, lvl: nat, j: nat): (cs: seq<nat>)
    requires j <= |rows|
    ensures forall k :: 0 <= k < |cs| ==> j <= cs[k] < |rows|
    decreases |rows| - j
  {
    if j == |rows| || rows[j].level <= lvl then []
    else (if rows[j].level == lvl + 1 then [j] else []) + ChildrenFrom(rows, lvl, j + 1)
  }

  lemma {:induction false} ChildrenFromMembers(rows: seq<Row>, lvl: nat, j: nat)
    requires j <= |rows|
    ensures var cs := ChildrenFrom(rows, lvl, j);
      && (forall c :: c in cs <==> j <= c < j + RunLength(rows[j..], lvl) && rows[c].level == lvl + 1)
      && (forall a, b :: 0 <= a < b < |cs| ==> cs[a] < cs[b])
    decreases |rows| - j
  {
    if j < |rows| && rows[j].level > lvl {
      assert rows[j..][1..] == rows[j + 1..];
      ChildrenFromMembers(rows, lvl, j + 1);
    }
  }

  /** The immediate children of row `p`, in order. */
  function Children(rows: seq<Row>, p: nat): (cs: seq<nat>)
    requires p < |rows|
    ensures forall k :: 0 <= k < |cs| ==> p < cs[k] < |rows|
    ensures forall c :: c in cs <==>
      p < c <= p + RunLength(rows[p + 1..], rows[p].level) && rows[c].level == rows[p].level + 1
    ensures forall a, b :: 0 <= a < b < |cs| ==> cs[a] < cs[b]
  {
    ChildrenFromMembers(rows, rows[p].level, p + 1);
    ChildrenFrom(rows, rows[p].level, p + 1)
  }

  /** The children of a row depend only on the levels. */
  lemma {:induction false} ChildrenFromSameLevels(a: seq<Row>, b: seq<Row>, lvl: nat, j: nat)
    requires |a| == |b| && j <= |a|
    requires forall k :: 0 <= k < |a| ==> a[k].level == b[k].level
    ensures ChildrenFrom(a, lvl, j) == ChildrenFrom(b, lvl, j)
    decreases |a| - j
  {
    if j < |a| && a[j].level > lvl {
      ChildrenFromSameLevels(a, b, lvl, j + 1);
    }
  }

  /** Sum of month `m` over the rows whose indices are listed in `cs`. */
  function SumCells(rows: seq<Row>, cs: seq<nat>, m: nat): real
    requires forall k :: 0 <= k < |cs| ==> cs[k] < |rows|
  {
    if cs == [] then 0.0 else Cell(rows[cs[0]], m) + SumCells(rows, cs[1..], m)
  }

  /** Rollup consistency for month `m`: every parent row holds the sum of its immediate children. */
  predicate Consistent(rows: seq<Row>, m: nat)
  {
    forall p :: 0 <= p < |rows| && IsParentRow(rows, p) ==> Cell(rows[p], m) == ChildSum(rows, p, m)
  }

  /** Rollup consistency in every month. */
  predicate ConsistentAll(rows: seq<Row>)
  {
    forall m :: 0 <= m < Months ==> Consistent(rows, m)
  }

  lemma {:induction false} RunSumIsSumOfChildren(rows: seq<Row>, lvl: nat, j: nat, m: nat)
    requires j <= |rows|
    ensures RunSum(rows[j..], lvl, m) == SumCells(rows, ChildrenFrom(rows, lvl, j), m)
    decreases |rows| - j
  {
    if j < |rows| && rows[j].level > lvl {
      assert rows[j..][1..] == rows[j + 1..];
      RunSumIsSumOfChildren(rows, lvl, j + 1, m);
      var rest := ChildrenFrom(rows, lvl, j + 1);
      if rows[j].level == lvl + 1 {
        assert ChildrenFrom(rows, lvl, j) == [j] + rest;
        assert ([j] + rest)[1..] == rest;
      } else {
        assert ChildrenFrom(rows, lvl, j) == rest;
      }
    }
  }

  /** The sum the rollup writes into a parent is the sum over exactly its immediate children. */
  lemma ChildSumIsSumOfChildren(rows: seq<Row>, p: nat, m: nat)
    requires p < |rows|
    ensures ChildSum(rows, p, m) == SumCells(rows, Children(rows, p), m)
  {
    RunSumIsSumOfChildren(rows, rows[p].level, p + 1, m);
  }

  /** In a well-formed ledger a row is drawn as a parent exactly when it has an immediate child. */
  lemma ParentIffHasChildren(rows: seq<Row>, p: nat)
    requires WellFormed(rows)
    requires p < |rows|
    ensures IsParentRow(rows, p) <==> |Children(rows, p)| > 0
  {
    var cs := Children(rows, p);
    if IsParentRow(rows, p) {
      assert rows[p + 1..][0] == rows[p + 1];
      assert p + 1 in cs;
    } else {
      assert cs == [];
    }
  }

  /** In a well-formed ledger every row below the top level is an immediate child of an earlier row. */
  lemma {:induction false} EveryRowHasParent(rows: seq<Row>, i: nat)
    requires WellFormed(rows)
    requires i < |rows| && rows[i].level > 0
    ensures exists p :: 0 <= p < i && i in Children(rows, p)
  {
    var p := NearestShallower(rows, i, i - 1);
    assert rows[p].level == rows[i].level - 1 by {
      if p + 1 < i {
        assert rows[p + 1].level >= rows[i].level;
      }
      assert rows[p + 1].level <= rows[p].level + 1;
    }
    var s := rows[p + 1..];
    assert forall q :: 0 <= q < i - p ==> s[q].level > rows[p].level;
    assert i in Children(rows, p);
  }

  /** The last index at or before `j` whose level is below that of row `i`. */
  lemma {:induction false} NearestShallower(rows: seq<Row>, i: nat, j: int) returns (p: nat)
    requires WellFormed(rows)
    requires i < |rows| && rows[i].level > 0
    requires 0 <= j < i
    requires forall q :: j < q < i ==> rows[q].level >= rows[i].level
    ensures p <= j && rows[p].level < rows[i].level
    ensures forall q :: p < q < i ==> rows[q].level >= rows[i].level
    decreases j
  {
    if rows[j].level < rows[i].level {
      p := j;
    } else {
      p := NearestShallower(rows, i, j - 1);
    }
  }
}
