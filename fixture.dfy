/**
 * The ledger the planning grid starts from: Net Revenue (r1) over
 * Sparkling Soft Drinks (r2: Coca-Cola r3, Sprite r4, Fanta r5) and
 * Still Beverages (r6: Water r7, Tea r8), with twelve months each.
 */
module Fixture {
  import opened LedgerTree
  import opened RollupEngine
  import opened Validation

  const R1: Row := Row("r1", "Net Revenue", 0, true,
    [12100.0, 11800.0, 12500.0, 13200.0, 14100.0, 15800.0, 16200.0, 15900.0, 14500.0, 13800.0, 12900.0, 14200.0])
  const R2: Row := Row("r2", "Sparkling Soft Drinks", 1, false,
    [8500.0, 8200.0, 8800.0, 9200.0, 9800.0, 11000.0, 11500.0, 11200.0, 10100.0, 9600.0, 9000.0, 9900.0])
  const R3: Row := Row("r3", "Coca-Cola", 2, false,
    [5000.0, 4800.0, 5200.0, 5400.0, 5800.0, 6500.0, 6800.0, 6600.0, 6000.0, 5700.0, 5300.0, 5900.0])
  const R4: Row := Row("r4", "Sprite", 2, false,
    [2000.0, 1900.0, 2100.0, 2200.0, 2300.0, 2600.0, 2800.0, 2700.0, 2400.0, 2200.0, 2100.0, 2300.0])
  const R5: Row := Row("r5", "Fanta", 2, false,
    [1500.0, 1500.0, 1500.0, 1600.0, 1700.0, 1900.0, 1900.0, 1900.0, 1700.0, 1700.0, 1600.0, 1700.0])
  const R6: Row := Row("r6", "Still Beverages", 1, false,
    [3600.0, 3600.0, 3700.0, 4000.0, 4300.0, 4800.0, 4700.0, 4700.0, 4400.0, 4200.0, 3900.0, 4300.0])
  const R7: Row := Row("r7", "Water", 2, false,
    [1200.0, 1200.0, 1300.0, 1400.0, 1500.0, 1800.0, 1800.0, 1800.0, 1600.0, 1500.0, 1300.0, 1400.0])
  const R8: Row := Row("r8", "Tea", 2, false,
    [2400.0, 2400.0, 2400.0, 2600.0, 2800.0, 3000.0, 2900.0, 2900.0, 2800.0, 2700.0, 2600.0, 2900.0])

  /** The initial ledger of the planning grid. */
  const InitialInputRows: seq<Row> := [R1, R2, R3, R4, R5, R6, R7, R8]

  /** Eight rows, each with exactly the twelve months. */
  lemma InitialShape()
    ensures |InitialInputRows| == 8 && HasAllMonths(InitialInputRows)
  {
  }

  /** The level sequence is 0,1,2,2,2,1,2,2. */
  lemma InitialLevels()
    ensures forall i :: 0 <= i < |InitialInputRows| ==> InitialInputRows[i].level == [0, 1, 2, 2, 2, 1, 2, 2][i]
  {
  }

  /** The ids are r1..r8, pairwise different, and only r1 is marked as a total. */
  lemma InitialIds()
    ensures forall i :: 0 <= i < |InitialInputRows| ==> InitialInputRows[i].id == ['r', "12345678"[i]]
    ensures forall i, j :: 0 <= i < j < |InitialInputRows| ==> InitialInputRows[i].id != InitialInputRows[j].id
    ensures forall i :: 0 <= i < |InitialInputRows| ==> (InitialInputRows[i].isTotal <==> i == 0)
  {
    forall i, j | 0 <= i < j < |InitialInputRows|
      ensures InitialInputRows[i].id != InitialInputRows[j].id
    {
      assert InitialInputRows[i].id[1] != InitialInputRows[j].id[1];
    }
  }

  /** The level sequence starts at 0 and never rises by more than 1, and the
      ids are unique: the rows form a well-formed pre-order tree. */
  lemma InitialWellFormed()
    ensures WellFormed(InitialInputRows)
  {
    InitialLevels();
    InitialIds();
  }

  /** The immediate children of r1 are r2 and r6. */
  lemma RootChildren()
    ensures Children(InitialInputRows, 0) == [1, 5]
  {
    var rows := InitialInputRows;
    assert ChildrenFrom(rows, 0, 8) == [];
    assert ChildrenFrom(rows, 0, 7) == [];
    assert ChildrenFrom(rows, 0, 6) == [];
    assert ChildrenFrom(rows, 0, 5) == [5];
    assert ChildrenFrom(rows, 0, 4) == [5];
    assert ChildrenFrom(rows, 0, 3) == [5];
    assert ChildrenFrom(rows, 0, 2) == [5];
  }

  /** The immediate children of r2 are r3, r4 and r5. */
  lemma SparklingChildren()
    ensures Children(InitialInputRows, 1) == [2, 3, 4]
  {
    var rows := InitialInputRows;
    assert ChildrenFrom(rows, 1, 5) == [];
    assert ChildrenFrom(rows, 1, 4) == [4];
    assert ChildrenFrom(rows, 1, 3) == [3, 4];
  }

  /** The immediate children of r6 are r7 and r8. */
  lemma StillChildren()
    ensures Children(InitialInputRows, 5) == [6, 7]
  {
    var rows := InitialInputRows;
    assert ChildrenFrom(rows, 1, 8) == [];
    assert ChildrenFrom(rows, 1, 7) == [7];
  }

  /** A ledger with the initial levels. */
  predicate HasInitialLevels(e: seq<Row>)
  {
    |e| == |InitialInputRows| && forall k :: 0 <= k < |e| ==> e[k].level == InitialInputRows[k].level
  }

  lemma SumOfTwo(e: seq<Row>, a: nat, b: nat, m: nat)
    requires a < |e| && b < |e|
    ensures SumCells(e, [a, b], m) == Cell(e[a], m) + Cell(e[b], m)
  {
    assert [a, b][1..] == [b] && [b][1..] == [];
    assert SumCells(e, [b], m) == Cell(e[b], m) + SumCells(e, [], m);
    assert SumCells(e, [a, b], m) == Cell(e[a], m) + SumCells(e, [b], m);
  }

  lemma SumOfThree(e: seq<Row>, a: nat, b: nat, c: nat, m: nat)
    requires a < |e| && b < |e| && c < |e|
    ensures SumCells(e, [a, b, c], m) == Cell(e[a], m) + Cell(e[b], m) + Cell(e[c], m)
  {
    assert [a, b, c][1..] == [b, c];
    SumOfTwo(e, b, c, m);
    assert SumCells(e, [a, b, c], m) == Cell(e[a], m) + SumCells(e, [b, c], m);
  }

  /** In any ledger with the initial levels, r1 sums r2 and r6, r2 sums
      r3, r4 and r5, and r6 sums r7 and r8. */
  lemma InitialShapeChildSums(e: seq<Row>, m: nat)
    requires HasInitialLevels(e)
    ensures ChildSum(e, 0, m) == Cell(e[1], m) + Cell(e[5], m)
    ensures ChildSum(e, 1, m) == Cell(e[2], m) + Cell(e[3], m) + Cell(e[4], m)
    ensures ChildSum(e, 5, m) == Cell(e[6], m) + Cell(e[7], m)
  {
    var rows := InitialInputRows;
    ChildrenFromSameLevels(e, rows, 0, 1);
    ChildrenFromSameLevels(e, rows, 1, 2);
    ChildrenFromSameLevels(e, rows, 1, 6);
    RootChildren();
    SparklingChildren();
    StillChildren();
    ChildSumIsSumOfChildren(e, 0, m);
    ChildSumIsSumOfChildren(e, 1, m);
    ChildSumIsSumOfChildren(e, 5, m);
    SumOfTwo(e, 1, 5, m);
    SumOfThree(e, 2, 3, 4, m);
    SumOfTwo(e, 6, 7, m);
  }

  /** In every month each parent holds the sum of its immediate children:
      r1 = r2 + r6, r2 = r3 + r4 + r5, r6 = r7 + r8. */
  lemma InitialConsistent()
    ensures ConsistentAll(InitialInputRows)
  {
    var rows := InitialInputRows;
    assert forall k :: 0 <= k < Months ==> R1.values[k] == R2.values[k] + R6.values[k];
    assert forall k :: 0 <= k < Months ==> R2.values[k] == R3.values[k] + R4.values[k] + R5.values[k];
    assert forall k :: 0 <= k < Months ==> R6.values[k] == R7.values[k] + R8.values[k];
    forall m | 0 <= m < Months ensures Consistent(rows, m) {
      InitialShapeChildSums(rows, m);
      forall p | 0 <= p < |rows| && IsParentRow(rows, p)
        ensures Cell(rows[p], m) == ChildSum(rows, p, m)
      {
        assert p == 0 || p == 1 || p == 5;
      }
    }
  }

  /** The worked check of month 0: r1 = 12100 = r2 + r6 = 8500 + 3600,
      r2 = 8500 = r3 + r4 + r5 = 5000 + 2000 + 1500, r6 = 3600 = r7 + r8 = 1200 + 2400. */
  lemma InitialMonthZero()
    ensures Cell(R1, 0) == 12100.0 && Cell(R2, 0) == 8500.0 && Cell(R6, 0) == 3600.0
    ensures ChildSum(InitialInputRows, 0, 0) == Cell(R2, 0) + Cell(R6, 0) == 12100.0
    ensures ChildSum(InitialInputRows, 1, 0) == Cell(R3, 0) + Cell(R4, 0) + Cell(R5, 0) == 8500.0
    ensures Cell(R3, 0) == 5000.0 && Cell(R4, 0) == 2000.0 && Cell(R5, 0) == 1500.0
    ensures ChildSum(InitialInputRows, 5, 0) == Cell(R7, 0) + Cell(R8, 0) == 3600.0
    ensures Cell(R7, 0) == 1200.0 && Cell(R8, 0) == 2400.0
  {
    InitialShapeChildSums(InitialInputRows, 0);
  }

  /** Every initial value lies in [MinValue, MaxValue], so the initial error count is 0. */
  lemma InitialHasNoErrors()
    ensures AllValid(InitialInputRows)
    ensures ErrorCount(InitialInputRows) == 0
  {
  }

  /** The ledger after editing Coca-Cola (r3) in January from 5000 to 6000. */
  const EditedRows: seq<Row> := [
    R1.(values := R1.values[0 := 13100.0]),
    R2.(values := R2.values[0 := 9500.0]),
    R3.(values := R3.values[0 := 6000.0]),
    R4, R5, R6, R7, R8]

  /** The edited ledger still lies within the validation range everywhere. */
  lemma EditedHasNoErrors()
    ensures AllValid(EditedRows)
  {
  }

  /** The rows the scan from r3 recomputes are r1 and r2. */
  lemma CocaColaAncestors()
    ensures forall j :: 0 <= j < |InitialInputRows| ==> (IsScannedAncestor(InitialInputRows, 2, j) <==> j < 2)
  {
  }

  lemma EditedSameShape()
    ensures SameShape(InitialInputRows, EditedRows, 0) && HasInitialLevels(EditedRows)
  {
  }

  /** The edited ledger meets the characterization of a rollup of r3 in month 0 to 6000. */
  lemma EditedIsRollup()
    ensures IsRollupOf(EditedRows, InitialInputRows, 2, 0, 6000.0)
  {
    var e := EditedRows;
    EditedSameShape();
    CocaColaAncestors();
    InitialShapeChildSums(e, 0);
    assert Cell(e[0], 0) == ChildSum(e, 0, 0);
    assert Cell(e[1], 0) == ChildSum(e, 1, 0);
  }

  /** Editing r3 in month 0 from 5000 to 6000 makes r2 9500 and r1 13100 in
      month 0 and changes no other cell. */
  lemma WorkedScenario()
    ensures Rollup(InitialInputRows, "r3", 0, 6000.0) == EditedRows
  {
    var rows := InitialInputRows;
    InitialIds();
    assert FindIndex(rows, "r3") == 2 by {
      assert rows[0].id[1] != "r3"[1] && rows[1].id[1] != "r3"[1];
    }
    RollupSpec(rows, "r3", 0, 6000.0);
    EditedIsRollup();
    RollupUnique(Rollup(rows, "r3", 0, 6000.0), EditedRows, rows, 2, 0, 6000.0);
  }

  /** Typing into a parent row breaks consistency: setting r2's January to 0
      directly leaves r2 at 0 while its children r3, r4 and r5 still sum to
      8500. The scan only recomputes rows above the edited one. */
  lemma EditingParentBreaksConsistency()
    ensures IsParentRow(InitialInputRows, 1)
    ensures !Consistent(Rollup(InitialInputRows, "r2", 0, 0.0), 0)
  {
    var rows := InitialInputRows;
    InitialIds();
    assert FindIndex(rows, "r2") == 1 by {
      assert rows[0].id[1] != "r2"[1];
    }
    RollupSpec(rows, "r2", 0, 0.0);
    var r := Rollup(rows, "r2", 0, 0.0);
    assert forall k :: 0 <= k < |rows| ==> Agree(rows[k], r[k], 0);
    assert HasInitialLevels(r);
    InitialShapeChildSums(r, 0);
    assert r[2] == rows[2] && r[3] == rows[3] && r[4] == rows[4] by {
      assert !IsScannedAncestor(rows, 1, 2) && !IsScannedAncestor(rows, 1, 3) && !IsScannedAncestor(rows, 1, 4);
    }
    assert IsParentRow(r, 1) && Cell(r[1], 0) != ChildSum(r, 1, 0);
  }

  /** Re-entering a parent's own value is harmless: writing 8500 into r2's
      January, which it already holds, leaves the ledger unchanged. */
  lemma ReenteringParentValueIsNoOp()
    ensures IsParentRow(InitialInputRows, 1)
    ensures Rollup(InitialInputRows, "r2", 0, 8500.0) == InitialInputRows
  {
    var rows := InitialInputRows;
    InitialIds();
    assert FindIndex(rows, "r2") == 1 by {
      assert rows[0].id[1] != "r2"[1];
    }
    InitialConsistent();
    RollupOfCurrentValueIsNoOp(rows, "r2", 0, 8500.0);
  }
}
