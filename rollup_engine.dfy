/**
 * The rollup engine: writing one (row, month) cell and recomputing, in one
 * backward scan, every ancestor of that row for that month only, each as the
 * sum of its immediate children.
 *
 * `Rollup` states the result as a function of the previous ledger;
 * `UpdateDataRecursive` is the array algorithm, proved equal to it. The
 * lemmas characterize `Rollup` independently of the scan (`IsRollupOf`),
 * show that this characterization has exactly one solution, and derive
 * idempotence and preservation of rollup consistency from it.
 */
module RollupEngine {
  import opened LedgerTree

  /** Row `r` with month `m` overwritten by `x`. */
  function SetCell(r: Row, m: nat, x: real): (r': Row)
    requires m < |r.values|
    ensures r'.id == r.id && r'.account == r.account && r'.level == r.level && r'.isTotal == r.isTotal
    ensures |r'.values| == |r.values| && Cell(r', m) == x
    ensures forall k :: 0 <= k < |r.values| && k != m ==> r'.values[k] == r.values[k]
  {
    r.(values := r.values[m := x])
  }

  /** Rows `x` and `y` differ at most in month `m`. */
  predicate Agree(x: Row, y: Row, m: nat)
  {
    && x.id == y.id && x.account == y.account && x.level == y.level && x.isTotal == y.isTotal
    && |x.values| == |y.values|
    && forall k :: 0 <= k < |x.values| && k != m ==> x.values[k] == y.values[k]
  }

  /** Same rows in the same order, with the same ids, accounts, levels and
      flags, and the same values in every month other than `m`. */
  predicate SameShape(a: seq<Row>, b: seq<Row>, m: nat)
  {
    |a| == |b| && forall j :: 0 <= j < |a| ==> Agree(a[j], b[j], m)
  }

  /** Index of the first row named `id`, or -1 (`Array.prototype.findIndex`). */
  function FindIndex(rows: seq<Row>, id: string): (k: int)
    ensures -1 <= k < |rows|
    ensures k == -1 <==> forall i :: 0 <= i < |rows| ==> rows[i].id != id
    ensures 0 <= k ==> rows[k].id == id && forall i :: 0 <= i < k ==> rows[i].id != id
  {
    if rows == [] then -1
    else if rows[0].id == id then 0
    else
      var k := FindIndex(rows[1..], id);
      if k == -1 then -1 else k + 1
  }

  /** Row `j` is recomputed by a backward scan that still has rows `i` down
      to 0 to visit and whose current level is `cur`: it is shallower than
      `cur` and than every row between it and `i`. */
  predicate ScanRecomputes(rows: seq<Row>, j: nat, i: int, cur: nat)
  {
    j <= i < |rows| && rows[j].level < cur && forall k :: j < k <= i ==> rows[j].level < rows[k].level
  }

  /** Row `j` is one of the rows the scan from edited row `idx` recomputes:
      it lies above `idx` and is shallower than every row after it up to
      and including `idx`. */
  predicate IsScannedAncestor(rows: seq<Row>, idx: nat, j: nat)
  {
    j < idx < |rows| && forall k :: j < k <= idx ==> rows[j].level < rows[k].level
  }

  /** The backward scan over rows `i` down to 0 with current level `cur`,
      as recursion: a row shallower than `cur` gets month `m` replaced by the
      sum of its immediate children and becomes the new current level. */
  function Propagate(rows: seq<Row>, m: nat, i: int, cur: nat): seq<Row>
    requires -1 <= i < |rows|
    requires HasMonth(rows, m)
    decreases i + 1
  {
    if i < 0 then rows
    else if rows[i].level < cur then
      Propagate(rows[i := SetCell(rows[i], m, ChildSum(rows, i, m))], m, i - 1, rows[i].level)
    else
      Propagate(rows, m, i - 1, cur)
  }

  /** The ledger after writing `v` into month `m` of the first row named
      `rowId` and rolling the change up to its ancestors. */
  function Rollup(prev: seq<Row>, rowId: string, m: nat, v: real): (r: seq<Row>)
    requires HasMonth(prev, m)
    ensures SameShape(prev, r, m)
    ensures (forall i :: 0 <= i < |prev| ==> prev[i].id != rowId) ==> r == prev
  {
    var idx := FindIndex(prev, rowId);
    if idx < 0 then prev
    else
      var start := prev[idx := SetCell(prev[idx], m, v)];
      PropagateSpec(start, m, idx - 1, prev[idx].level);
      SameShapeTrans(prev, start, Propagate(start, m, idx - 1, prev[idx].level), m);
      Propagate(start, m, idx - 1, prev[idx].level)
  }

  /** What a rollup of `prev` at row `idx`, month `m`, value `v` must be,
      stated without the scan: only month `m` changes; the edited cell holds
      `v`; every scanned ancestor holds the sum of its immediate children in
      the new ledger; every other row is unchanged. */
  predicate IsRollupOf(r: seq<Row>, prev: seq<Row>, idx: nat, m: nat, v: real)
  {
    && idx < |prev|
    && SameShape(prev, r, m)
    && Cell(r[idx], m) == v
    && (forall j :: 0 <= j < |prev| && IsScannedAncestor(prev, idx, j) ==> Cell(r[j], m) == ChildSum(r, j, m))
    && (forall j :: 0 <= j < |prev| && j != idx && !IsScannedAncestor(prev, idx, j) ==> r[j] == prev[j])
  }

  /** The array algorithm of the grid: copy the ledger, write the edited
      cell, then walk backwards carrying the current level; each row
      shallower than it is a parent whose month is recomputed by a forward
      scan over its run of descendants. */
  method UpdateDataRecursive(prev: seq<Row>, rowId: string, monthIndex: nat, numValue: real)
    returns (next: seq<Row>)
    requires HasMonth(prev, monthIndex)
    ensures next == Rollup(prev, rowId, monthIndex, numValue)
  {
    var newData := new Row[|prev|](i requires 0 <= i < |prev| => prev[i]);
    assert newData[..] == prev;
    var rowIndex := FindIndex(newData[..], rowId);
    if rowIndex == -1 {
      return prev;
    }

    newData[rowIndex] := SetCell(newData[rowIndex], monthIndex, numValue);
    var currentLevel := newData[rowIndex].level;

    for i := rowIndex downto 0
      invariant HasMonth(newData[..], monthIndex)
      invariant Propagate(newData[..], monthIndex, i - 1, currentLevel) == Rollup(prev, rowId, monthIndex, numValue)
    {
      var potentialParent := newData[i];
      if potentialParent.level < currentLevel {
        var parentIndex := i;
        var parentRow := newData[parentIndex];
        var newParentSum := SumImmediateChildren(newData, parentIndex, monthIndex);
        newData[parentIndex] := SetCell(newData[parentIndex], monthIndex, newParentSum);
        currentLevel := parentRow.level;
      }
    }
    next := newData[..];
  }

  /** The inner scan of the algorithm: walk forward from the parent over its
      run of deeper rows, stopping at the first row at or above its level,
      and add month `monthIndex` of the rows exactly one level deeper. */
  method SumImmediateChildren(data: array<Row>, parentIndex: nat, monthIndex: nat) returns (newParentSum: real)
    requires parentIndex < data.Length
    ensures newParentSum == ChildSum(data[..], parentIndex, monthIndex)
  {
    var parentRow := data[parentIndex];
    newParentSum := 0.0;
    for j := parentIndex + 1 to data.Length
      invariant newParentSum + RunSum(data[j..], parentRow.level, monthIndex)
                == ChildSum(data[..], parentIndex, monthIndex)
    {
      var childRow := data[j];
      if childRow.level <= parentRow.level {
        assert data[j..][0] == childRow;
        break;
      }
      assert data[j..][0] == childRow && data[j..][1..] == data[j + 1..];
      if childRow.level == parentRow.level + 1 {
        newParentSum := newParentSum + Cell(childRow, monthIndex);
      }
    }
  }

  // ---------------------------------------------------------------------
  // Properties of the scan and of Rollup
  // ---------------------------------------------------------------------

  lemma SameShapeTrans(a: seq<Row>, b: seq<Row>, c: seq<Row>, m: nat)
    requires SameShape(a, b, m) && SameShape(b, c, m)
    ensures SameShape(a, c, m)
  {
    forall j | 0 <= j < |a| ensures Agree(a[j], c[j], m) {
      assert Agree(a[j], b[j], m) && Agree(b[j], c[j], m);
    }
  }

  /** The scan changes only month `m`, leaves the rows after `i` alone,
      leaves every row it does not recompute alone, and leaves every row it
      recomputes equal to the sum of its immediate children in its result. */
  lemma {:induction false} PropagateSpec(rows: seq<Row>, m: nat, i: int, cur: nat)
    requires -1 <= i < |rows|
    requires HasMonth(rows, m)
    ensures var r := Propagate(rows, m, i, cur);
      && SameShape(rows, r, m)
      && (forall j :: i < j < |rows| ==> r[j] == rows[j])
      && (forall j :: 0 <= j <= i && !ScanRecomputes(rows, j, i, cur) ==> r[j] == rows[j])
      && (forall j :: 0 <= j <= i && ScanRecomputes(rows, j, i, cur) ==> Cell(r[j], m) == ChildSum(r, j, m))
    decreases i + 1
  {
    if i >= 0 {
      if rows[i].level < cur {
        var rows' := rows[i := SetCell(rows[i], m, ChildSum(rows, i, m))];
        PropagateSpec(rows', m, i - 1, rows[i].level);
        var r := Propagate(rows', m, i - 1, rows[i].level);
        assert r == Propagate(rows, m, i, cur);
        assert SameShape(rows, rows', m);
        SameShapeTrans(rows, rows', r, m);
        assert r[i + 1..] == rows[i + 1..];
        assert Cell(r[i], m) == ChildSum(r, i, m);
        forall j | 0 <= j < i
          ensures ScanRecomputes(rows, j, i, cur) <==> ScanRecomputes(rows', j, i - 1, rows[i].level)
        {
          assert forall k :: 0 <= k < |rows| ==> rows'[k].level == rows[k].level;
        }
      } else {
        PropagateSpec(rows, m, i - 1, cur);
        assert !ScanRecomputes(rows, i, i, cur);
        forall j | 0 <= j < i
          ensures ScanRecomputes(rows, j, i, cur) <==> ScanRecomputes(rows, j, i - 1, cur)
        {
        }
      }
    }
  }

  /** The rows a scan from `idx` recomputes depend only on the levels. */
  lemma ScannedAncestorsSameShape(a: seq<Row>, b: seq<Row>, idx: nat, j: nat, m: nat)
    requires SameShape(a, b, m)
    ensures IsScannedAncestor(a, idx, j) <==> IsScannedAncestor(b, idx, j)
  {
    assert forall k :: 0 <= k < |a| ==> Agree(a[k], b[k], m);
  }

  /** Two ledgers of the same shape name the same row first. */
  lemma FindIndexSameShape(a: seq<Row>, b: seq<Row>, id: string, m: nat)
    requires SameShape(a, b, m)
    ensures FindIndex(a, id) == FindIndex(b, id)
  {
    assert forall k :: 0 <= k < |a| ==> Agree(a[k], b[k], m);
  }

  /** Rollup meets its characterization: the edited cell holds `v`, every
      scanned ancestor holds the sum of its immediate children, and nothing
      else changes. */
  lemma RollupSpec(prev: seq<Row>, rowId: string, m: nat, v: real)
    requires HasMonth(prev, m)
    requires FindIndex(prev, rowId) >= 0
    ensures IsRollupOf(Rollup(prev, rowId, m, v), prev, FindIndex(prev, rowId), m, v)
  {
    var idx := FindIndex(prev, rowId);
    var start := prev[idx := SetCell(prev[idx], m, v)];
    PropagateSpec(start, m, idx - 1, prev[idx].level);
    var r := Propagate(start, m, idx - 1, prev[idx].level);
    assert r == Rollup(prev, rowId, m, v);
    forall j | 0 <= j < idx
      ensures ScanRecomputes(start, j, idx - 1, prev[idx].level) <==> IsScannedAncestor(prev, idx, j)
    {
      assert forall k :: 0 <= k < |prev| ==> start[k].level == prev[k].level;
    }
  }

  /** Two rows agreeing off month `m` and equal at month `m` are equal. */
  lemma RowsEqual(x: Row, y: Row, m: nat)
    requires Agree(x, y, m) && m < |x.values| && Cell(x, m) == Cell(y, m)
    ensures x == y
  {
    assert x.values == y.values;
  }

  lemma {:induction false} RollupDeterminedFrom(a: seq<Row>, b: seq<Row>, prev: seq<Row>, idx: nat, m: nat, v: real, k: nat)
    requires HasMonth(prev, m)
    requires IsRollupOf(a, prev, idx, m, v) && IsRollupOf(b, prev, idx, m, v)
    requires k <= |prev|
    ensures a[k..] == b[k..]
    decreases |prev| - k
  {
    if k < |prev| {
      RollupDeterminedFrom(a, b, prev, idx, m, v, k + 1);
      assert Agree(prev[k], a[k], m) && Agree(prev[k], b[k], m);
      if k == idx {
        RowsEqual(a[k], b[k], m);
      } else if IsScannedAncestor(prev, idx, k) {
        assert a[k + 1..] == b[k + 1..];
        assert ChildSum(a, k, m) == ChildSum(b, k, m);
        RowsEqual(a[k], b[k], m);
      }
      assert a[k..] == [a[k]] + a[k + 1..];
      assert b[k..] == [b[k]] + b[k + 1..];
    }
  }

  /** The characterization has exactly one solution: any two rollups of the
      same edit are the same ledger. */
  lemma RollupUnique(a: seq<Row>, b: seq<Row>, prev: seq<Row>, idx: nat, m: nat, v: real)
    requires HasMonth(prev, m)
    requires IsRollupOf(a, prev, idx, m, v) && IsRollupOf(b, prev, idx, m, v)
    ensures a == b
  {
    RollupDeterminedFrom(a, b, prev, idx, m, v, 0);
    assert a == a[0..] && b == b[0..];
  }

  /** A rollup changes no level and no id, so it keeps the ledger a
      well-formed tree carrying all twelve months. */
  lemma SameShapeWellFormed(a: seq<Row>, b: seq<Row>, m: nat)
    requires SameShape(a, b, m) && WellFormed(a) && HasAllMonths(a)
    ensures WellFormed(b) && HasAllMonths(b)
  {
    assert forall k :: 0 <= k < |a| ==> Agree(a[k], b[k], m);
  }

  lemma SameShapeHasMonth(a: seq<Row>, b: seq<Row>, m: nat, n: nat)
    requires SameShape(a, b, m) && HasMonth(a, n)
    ensures HasMonth(b, n)
  {
    assert forall k :: 0 <= k < |a| ==> Agree(a[k], b[k], m);
  }

  /** Applying the same edit twice gives the same ledger as applying it once. */
  lemma RollupIdempotent(prev: seq<Row>, rowId: string, m: nat, v: real)
    requires HasMonth(prev, m)
    ensures HasMonth(Rollup(prev, rowId, m, v), m)
    ensures Rollup(Rollup(prev, rowId, m, v), rowId, m, v) == Rollup(prev, rowId, m, v)
  {
    var r1 := Rollup(prev, rowId, m, v);
    SameShapeHasMonth(prev, r1, m, m);
    var idx := FindIndex(prev, rowId);
    if idx >= 0 {
      FindIndexSameShape(prev, r1, rowId, m);
      RollupSpec(prev, rowId, m, v);
      RollupSpec(r1, rowId, m, v);
      forall j | 0 <= j < |r1|
        ensures IsScannedAncestor(r1, idx, j) <==> IsScannedAncestor(prev, idx, j)
      {
        ScannedAncestorsSameShape(prev, r1, idx, j, m);
      }
      assert IsRollupOf(r1, r1, idx, m, v);
      RollupUnique(Rollup(r1, rowId, m, v), r1, r1, idx, m, v);
    }
  }

  /** The sum over a run depends only on the levels and on the month-`m`
      cells inside the run. */
  lemma {:induction false} RunSumFrame(s: seq<Row>, t: seq<Row>, lvl: nat, m: nat)
    requires |s| == |t|
    requires forall q :: 0 <= q < |s| ==> s[q].level == t[q].level
    requires forall q :: 0 <= q < RunLength(t, lvl) ==> Cell(s[q], m) == Cell(t[q], m)
    ensures RunSum(s, lvl, m) == RunSum(t, lvl, m)
  {
    if s != [] && t[0].level > lvl {
      RunSumFrame(s[1..], t[1..], lvl, m);
    }
  }

  /** A row the scan does not recompute has no recomputed row (and not the
      edited row) inside its run of descendants: a recomputed row there
      would make the row itself recomputed. */
  lemma RunAvoidsScan(rows: seq<Row>, idx: nat, p: nat, q: nat)
    requires p < q < |rows| && p != idx && idx < |rows|
    requires forall k :: p < k <= q ==> rows[k].level > rows[p].level
    requires !IsScannedAncestor(rows, idx, p)
    ensures q != idx && !IsScannedAncestor(rows, idx, q)
  {
  }

  /** Only month `m` changes, so rollup consistency in any other month is kept. */
  lemma ConsistentOtherMonth(a: seq<Row>, b: seq<Row>, m: nat, n: nat)
    requires SameShape(a, b, m) && n != m
    requires Consistent(a, n)
    ensures Consistent(b, n)
  {
    assert forall k :: 0 <= k < |a| ==> Agree(a[k], b[k], m);
    forall p | 0 <= p < |b| && IsParentRow(b, p)
      ensures Cell(b[p], n) == ChildSum(b, p, n)
    {
      assert IsParentRow(a, p);
      RunSumFrame(b[p + 1..], a[p + 1..], a[p].level, n);
    }
  }

  /** A row the scan does not recompute sums to the same value after the
      edit: no month-`m` cell inside its run of descendants changed. */
  lemma UnscannedRowKeepsChildSum(prev: seq<Row>, r: seq<Row>, idx: nat, m: nat, v: real, p: nat)
    requires HasMonth(prev, m)
    requires IsRollupOf(r, prev, idx, m, v)
    requires p < |prev| && p != idx && !IsScannedAncestor(prev, idx, p)
    ensures ChildSum(r, p, m) == ChildSum(prev, p, m)
  {
    assert forall k :: 0 <= k < |prev| ==> Agree(prev[k], r[k], m);
    var t := prev[p + 1..];
    var len := RunLength(t, prev[p].level);
    forall q | 0 <= q < len
      ensures Cell(r[p + 1..][q], m) == Cell(t[q], m)
    {
      assert t[q] == prev[p + 1 + q];
      forall k | p < k <= p + 1 + q ensures prev[k].level > prev[p].level {
        assert t[k - p - 1] == prev[k];
      }
      RunAvoidsScan(prev, idx, p, p + 1 + q);
    }
    RunSumFrame(r[p + 1..], t, prev[p].level, m);
  }

  /** On a ledger consistent in month `m`, an edit of a row that is not drawn
      as a parent leaves the ledger consistent in month `m`. */
  lemma RollupPreservesConsistency(prev: seq<Row>, rowId: string, m: nat, v: real)
    requires HasMonth(prev, m)
    requires Consistent(prev, m)
    requires FindIndex(prev, rowId) >= 0 ==> !IsParentRow(prev, FindIndex(prev, rowId))
    ensures Consistent(Rollup(prev, rowId, m, v), m)
  {
    var r := Rollup(prev, rowId, m, v);
    var idx := FindIndex(prev, rowId);
    if idx >= 0 {
      RollupSpec(prev, rowId, m, v);
      forall p | 0 <= p < |r| && IsParentRow(r, p)
        ensures Cell(r[p], m) == ChildSum(r, p, m)
      {
        assert Agree(prev[p], r[p], m);
        assert p + 1 < |r| ==> Agree(prev[p + 1], r[p + 1], m);
        assert IsParentRow(prev, p);
        if !IsScannedAncestor(prev, idx, p) {
          UnscannedRowKeepsChildSum(prev, r, idx, m, v, p);
        }
      }
    }
  }

  /** On a ledger consistent in every month, an edit of a row that is not
      drawn as a parent leaves it consistent in every month. */
  lemma RollupPreservesConsistentAll(prev: seq<Row>, rowId: string, m: nat, v: real)
    requires HasMonth(prev, m)
    requires ConsistentAll(prev)
    requires FindIndex(prev, rowId) >= 0 ==> !IsParentRow(prev, FindIndex(prev, rowId))
    ensures ConsistentAll(Rollup(prev, rowId, m, v))
  {
    var r := Rollup(prev, rowId, m, v);
    forall n | 0 <= n < Months ensures Consistent(r, n) {
      if n == m {
        RollupPreservesConsistency(prev, rowId, m, v);
      } else {
        ConsistentOtherMonth(prev, r, m, n);
      }
    }
  }

  /** Re-entering the value a row (leaf or parent) already holds changes
      nothing on a ledger that is consistent in that month. */
  lemma RollupOfCurrentValueIsNoOp(prev: seq<Row>, rowId: string, m: nat, v: real)
    requires HasMonth(prev, m)
    requires Consistent(prev, m)
    requires FindIndex(prev, rowId) >= 0
    requires Cell(prev[FindIndex(prev, rowId)], m) == v
    ensures Rollup(prev, rowId, m, v) == prev
  {
    var idx := FindIndex(prev, rowId);
    RollupSpec(prev, rowId, m, v);
    forall j | 0 <= j < |prev| && IsScannedAncestor(prev, idx, j)
      ensures Cell(prev[j], m) == ChildSum(prev, j, m)
    {
      assert IsParentRow(prev, j);
    }
    assert IsRollupOf(prev, prev, idx, m, v);
    RollupUnique(Rollup(prev, rowId, m, v), prev, prev, idx, m, v);
  }
}
