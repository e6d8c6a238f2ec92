/**
 * The editing session of the planning grid: the ledger being edited, the
 * version history, the cell being edited and its raw text buffer, and the
 * scenario that decides whether anything may be edited. Cell edits go
 * through the numeric input grammar and the rollup engine; saving is gated
 * on the validation error count.
 */
module PlanningSession {
  import opened Wrappers
  import opened LedgerTree
  import opened RollupEngine
  import opened Validation
  import opened NumericInput
  import opened Fixture

  /** The planning scenario chosen in the surrounding context. */
  datatype Scenario = Budget | Actuals

  /** The (row id, month) cell that holds the input focus. */
  datatype Location = Location(id: string, idx: nat)

  /** One saved version; `timestamp` is in milliseconds since the epoch. */
  datatype HistoryEntry = HistoryEntry(id: string, timestamp: int, author: string, totalRevenue: real, note: Option<string>)

  const DayMillis: int := 86400000
  const HourMillis: int := 3600000

  /** Actuals are read-only; only a budget can be edited. */
  predicate IsReadOnly(s: Scenario)
  {
    s == Actuals
  }

  /** A cell of row `idx` is not editable: the scenario is read-only, or the
      row is computed (the total row, or a row drawn as a parent). */
  predicate IsDisabled(rows: seq<Row>, idx: nat, readOnly: bool)
    requires idx < |rows|
  {
    readOnly || rows[idx].isTotal || IsParentRow(rows, idx)
  }

  /** The edit of row `rowId` lands on an editable row, or on no row at all. */
  predicate EditsEditableRow(rows: seq<Row>, rowId: string)
  {
    var idx := FindIndex(rows, rowId);
    idx >= 0 ==> !IsDisabled(rows, idx, false)
  }

  /** In a well-formed ledger a cell is disabled exactly when the scenario is
      read-only, the row is the total row, or the row has an immediate child. */
  lemma DisabledIffComputed(rows: seq<Row>, idx: nat, readOnly: bool)
    requires WellFormed(rows) && idx < |rows|
    ensures IsDisabled(rows, idx, readOnly) <==> readOnly || rows[idx].isTotal || |Children(rows, idx)| > 0
  {
    ParentIffHasChildren(rows, idx);
  }

  /** In the initial budget the editable rows are exactly the leaves
      r3, r4, r5, r7 and r8; under Actuals no row is editable. */
  lemma InitialEditableRows()
    ensures forall idx :: 0 <= idx < |InitialInputRows| ==>
      (!IsDisabled(InitialInputRows, idx, false) <==> idx in {2, 3, 4, 6, 7})
    ensures forall idx :: 0 <= idx < |InitialInputRows| ==> IsDisabled(InitialInputRows, idx, true)
  {
    InitialLevels();
    InitialIds();
  }

  /** `values.reduce((a, b) => a + b, 0)`: the left-to-right sum. */
  function RevenueTotal(vs: seq<real>): real
  {
    if vs == [] then 0.0 else RevenueTotal(vs[..|vs| - 1]) + vs[|vs| - 1]
  }

  /** Changing one month moves the total by exactly the change of that month. */
  lemma {:induction false} RevenueTotalUpdate(vs: seq<real>, m: nat, x: real)
    requires m < |vs|
    ensures RevenueTotal(vs[m := x]) == RevenueTotal(vs) - vs[m] + x
    decreases |vs|
  {
    var n := |vs| - 1;
    var ws := vs[m := x];
    assert ws[..n] == if m == n then vs[..n] else vs[..n][m := x];
    if m < n {
      RevenueTotalUpdate(vs[..n], m, x);
    }
  }

  /** A total of valid months lies between 0 and `MaxValue` per month, so a
      saved revenue total lies between 0 and twelve times `MaxValue`. */
  lemma {:induction false} RevenueTotalBounds(vs: seq<real>)
    requires forall k :: 0 <= k < |vs| ==> IsValidValue(vs[k])
    ensures 0.0 <= RevenueTotal(vs) <= |vs| as real * MaxValue
    decreases |vs|
  {
    if vs != [] {
      RevenueTotalBounds(vs[..|vs| - 1]);
    }
  }

  lemma RevenueTotalPrefix(vs: seq<real>, k: nat)
    requires k < |vs|
    ensures RevenueTotal(vs[..k + 1]) == RevenueTotal(vs[..k]) + vs[k]
  {
    assert vs[..k + 1][..k] == vs[..k];
  }

  /** The yearly total of the initial revenue row is 167000. */
  lemma InitialRevenueTotal()
    ensures RevenueTotal(R1.values) == 167000.0
  {
    var vs := R1.values;
    assert vs[..0] == [];
    RevenueTotalPrefix(vs, 0);
    RevenueTotalPrefix(vs, 1);
    RevenueTotalPrefix(vs, 2);
    RevenueTotalPrefix(vs, 3);
    RevenueTotalPrefix(vs, 4);
    RevenueTotalPrefix(vs, 5);
    RevenueTotalPrefix(vs, 6);
    RevenueTotalPrefix(vs, 7);
    RevenueTotalPrefix(vs, 8);
    RevenueTotalPrefix(vs, 9);
    RevenueTotalPrefix(vs, 10);
    RevenueTotalPrefix(vs, 11);
    assert vs[..12] == vs;
  }

  /** The history the grid starts with: the initial load one day before
      `now`, then an adjustment four hours before `now`. */
  function InitialHistory(now: int): seq<HistoryEntry>
  {
    [ HistoryEntry("v-initial", now - DayMillis, "System Admin", 165800.0, Some("Initial Budget Load")),
      HistoryEntry("v-yesterday", now - HourMillis * 4, "John Doe", 166800.0, Some("Adjusted Q1 Targets")) ]
  }

  /** The entry a save at time `now` records for ledger `rows`. */
  function SaveEntry(rows: seq<Row>, now: nat): (e: HistoryEntry)
    requires |rows| > 0
    ensures e.totalRevenue == RevenueTotal(rows[0].values) && e.timestamp == now
  {
    HistoryEntry("v-" + NatToString(now), now, "John Doe", RevenueTotal(rows[0].values), Some("Manual Save"))
  }

  /** Two saves at different times get different ids. */
  lemma SaveEntryIdsDiffer(a: seq<Row>, b: seq<Row>, s: nat, t: nat)
    requires |a| > 0 && |b| > 0 && s != t
    ensures SaveEntry(a, s).id != SaveEntry(b, t).id
  {
    NatToStringValue(s);
    NatToStringValue(t);
    var x := "v-" + NatToString(s);
    var y := "v-" + NatToString(t);
    assert x[2..] == NatToString(s) && y[2..] == NatToString(t);
  }

  /** The state of one planning grid. */
  class Session {
    var scenario: Scenario
    var data: seq<Row>
    var history: seq<HistoryEntry>
    var editingLocation: Option<Location>
    var editValue: string

    /** The ledger is a non-empty well-formed tree whose rows all carry the twelve months. */
    ghost predicate Valid()
      reads this
    {
      |data| > 0 && WellFormed(data) && HasAllMonths(data)
    }

    /** A fresh grid at time `now`: the fixture ledger, the two initial
        history entries, no focused cell and an empty buffer. */
    constructor (scenario: Scenario, now: nat)
      ensures Valid()
      ensures this.scenario == scenario && data == InitialInputRows
      ensures history == InitialHistory(now)
      ensures editingLocation == None && editValue == ""
    {
      this.scenario := scenario;
      data := InitialInputRows;
      history := InitialHistory(now);
      editingLocation := None;
      editValue := "";
      InitialShape();
      InitialWellFormed();
    }

    /** The surrounding context switches the scenario. */
    method SetScenario(s: Scenario)
      modifies this
      ensures scenario == s
      ensures data == old(data) && history == old(history)
      ensures editingLocation == old(editingLocation) && editValue == old(editValue)
    {
      scenario := s;
    }

    /** Typing `newValue` into month `monthIndex` of row `rowId`. Nothing
        happens when the scenario is read-only or the text is not of the
        form digits, optional point, digits. Otherwise the buffer takes the
        text and, unless the text is a lone point, the committed number
        (0 for empty text) is rolled up into the ledger. */
    method HandleCellChange(rowId: string, monthIndex: nat, newValue: string)
      requires Valid() && monthIndex < Months
      modifies this
      ensures Valid()
      ensures scenario == old(scenario) && history == old(history) && editingLocation == old(editingLocation)
      ensures IsReadOnly(scenario) || !MatchesNumeric(newValue) ==>
        data == old(data) && editValue == old(editValue)
      ensures !IsReadOnly(scenario) && MatchesNumeric(newValue) ==>
        editValue == newValue &&
        data == (if newValue == "." then old(data)
                 else Rollup(old(data), rowId, monthIndex, CommittedValue(newValue).value))
      ensures ConsistentAll(old(data)) && EditsEditableRow(old(data), rowId) ==> ConsistentAll(data)
    {
      if IsReadOnly(scenario) {
        return;
      }
      if !MatchesNumeric(newValue) {
        return;
      }
      editValue := newValue;
      var numValue := CommittedValue(newValue);
      if numValue.Some? {
        var prev := data;
        data := UpdateDataRecursive(prev, rowId, monthIndex, numValue.value);
        SameShapeWellFormed(prev, data, monthIndex);
        if ConsistentAll(prev) && EditsEditableRow(prev, rowId) {
          RollupPreservesConsistentAll(prev, rowId, monthIndex, numValue.value);
        }
      }
    }

    /** Focusing month `monthIdx` of row `rowId`, whose value is
        `currentValue` and whose display text is `currentText`: unless the
        scenario is read-only, the cell becomes the edited one and the
        buffer holds its text, or nothing when the value is 0. */
    method HandleFocus(rowId: string, monthIdx: nat, currentValue: real, currentText: string)
      modifies this
      ensures scenario == old(scenario) && data == old(data) && history == old(history)
      ensures IsReadOnly(scenario) ==> editingLocation == old(editingLocation) && editValue == old(editValue)
      ensures !IsReadOnly(scenario) ==>
        editingLocation == Some(Location(rowId, monthIdx)) &&
        editValue == (if currentValue == 0.0 then "" else currentText)
    {
      if IsReadOnly(scenario) {
        return;
      }
      editingLocation := Some(Location(rowId, monthIdx));
      editValue := if currentValue == 0.0 then "" else currentText;
    }

    /** Leaving a cell clears the focus and the buffer. */
    method HandleBlur()
      modifies this
      ensures editingLocation == None && editValue == ""
      ensures scenario == old(scenario) && data == old(data) && history == old(history)
    {
      editingLocation := None;
      editValue := "";
    }

    /** Saving at time `now`: refused while any cell fails validation;
        otherwise one entry carrying the yearly total of row 0 is put in
        front of the history. */
    method HandleSave(now: nat) returns (saved: bool)
      requires Valid()
      modifies this
      ensures Valid() && data == old(data)
      ensures saved <==> AllValid(data)
      ensures !saved ==> history == old(history)
      ensures saved ==> history == [SaveEntry(data, now)] + old(history)
      ensures saved ==> 0.0 <= history[0].totalRevenue <= Months as real * MaxValue
      ensures scenario == old(scenario)
      ensures editingLocation == old(editingLocation) && editValue == old(editValue)
    {
      var totalErrors := TotalErrors(data);
      if totalErrors > 0 {
        return false;
      }
      history := [SaveEntry(data, now)] + history;
      saved := true;
      RevenueTotalBounds(data[0].values);
    }
  }

  /** "6000" is accepted and commits 6000. */
  lemma SixThousandCommits()
    ensures MatchesNumeric("6000") && CommittedValue("6000") == Some(6000.0)
  {
    assert NatToString(6000) == "6000" by {
      assert NatToString(6) == "6";
      assert NatToString(60) == "60";
      assert NatToString(600) == "600";
    }
    NatToStringRoundTrip(6000);
  }

  /** A budget session starts from the fixture, Coca-Cola's January is typed
      as "6000" and the grid is saved: the save succeeds and records a
      revenue total of 168000, one more thousand than before. */
  method WorkedSession(now: nat) returns (saved: bool, revenue: real, january: real)
    ensures saved && revenue == 168000.0 && january == 13100.0
  {
    var s := new Session(Budget, now);
    s.HandleFocus("r3", 0, 5000.0, "5000");
    SixThousandCommits();
    s.HandleCellChange("r3", 0, "6000");
    WorkedScenario();
    assert s.data == EditedRows;
    january := Cell(s.data[0], 0);
    EditedHasNoErrors();
    saved := s.HandleSave(now);
    revenue := s.history[0].totalRevenue;
    InitialRevenueTotal();
    RevenueTotalUpdate(R1.values, 0, 13100.0);
  }
}
