# Planning grid ledger engine

This project models the hierarchical ledger behind the planning input grid of
the DemUC5 planning demo. It proves properties of the model in Dafny.

The ledger is a flat list of rows. Each row has an id, an account name, a
`level` and an `isTotal` flag. It also holds one amount per month, January to
December. The list is read as the pre-order flattening of a tree. A row's
immediate children are the rows one level deeper inside the contiguous run of
deeper rows that follows it.

The model covers:

- **Tree shape** (`LedgerTree`): the parent-row test, immediate children,
  child sums, well-formedness, and rollup consistency.
  - Rollup consistency means every parent holds the sum of its immediate
    children, month by month.
- **Rollup** (`RollupEngine`): writing one (row, month) cell, then one
  backward scan that recomputes that month of every ancestor.
  - `UpdateDataRecursive` is the array algorithm, with the backward loop and
    the nested forward loop that breaks.
  - It is proved equal to the function `Rollup`.
  - `Rollup` is characterized by `IsRollupOf`, independently of the scan.
  - That characterization is shown to have exactly one solution.
  - Idempotence, the no-op cases and preservation of consistency are derived
    from it.
- **Validation** (`Validation`): the range [0, 100000000] and the error count.
  - The error count is computed by nested loops.
  - It is proved to be the number of failing (row, month) cells.
- **Input grammar** (`NumericInput`): the pattern `^\d*\.?\d*$` and the value
  a text commits.
  - Empty text counts as 0.
  - A lone "." is accepted but commits nothing, because it reads as NaN.
- **Session** (`PlanningSession`): the grid's state as a class, with these
  handlers:
  - cell change;
  - focus and blur;
  - save, gated on the error count, which prepends a history entry holding
    the yearly total of row 0;
  - the read-only gate of the Actuals scenario;
  - the disabled-cell rule.
- **Fixture** (`Fixture`): the eight-row initial ledger r1..r8 and its
  properties:
  - its shape and its children;
  - its consistency in all twelve months and its validity;
  - the worked edit: Coca-Cola in January goes from 5000 to 6000, giving
    Sparkling 9500 and Net Revenue 13100, with nothing else changed.

Conventions:

- Amounts are exact `real`s.
- A month a row does not carry counts as 0, as `|| 0` does in the child sum.
- `Date.now()` becomes a parameter `now` in milliseconds. A save's id is
  `"v-"` followed by the decimal digits of `now`.
- In the fixture, rows other than r1 have no `isTotal` key. Those rows are
  modelled with `isTotal = false`, which is how the grid reads a missing key.

## Model

| member | source | states |
|---|---|---|
| LedgerTree.IsParentRow | components/PlanningInput.tsx:156-159 | a row is drawn as a parent exactly when a next row exists and it is deeper; the last row never is |
| LedgerTree.Children | components/PlanningInput.tsx:90-96 | the immediate children of `p` are exactly the rows at `level + 1` inside the run of deeper rows after `p`, in increasing order |
| LedgerTree.ChildrenFromMembers | components/PlanningInput.tsx:90-96 | a row is collected from position `j` exactly when it lies in the run of rows deeper than the parent level and is one level deeper; the collected rows are in increasing order |
| LedgerTree.ChildSumIsSumOfChildren | components/PlanningInput.tsx:89-97 | the forward scan's sum, which stops at the first row not deeper than the parent and adds only rows one level deeper, equals the sum of the month cells of the immediate children |
| LedgerTree.ParentIffHasChildren | components/PlanningInput.tsx:156-159 | in a well-formed ledger, "the next row is deeper" holds exactly when the row has at least one immediate child |
| LedgerTree.EveryRowHasParent | components/PlanningInput.tsx:82-101 | in a well-formed ledger every row below level 0 is an immediate child of some earlier row |
| LedgerTree.ChildrenFromSameLevels | components/PlanningInput.tsx:90-96 | the children of a row depend only on the levels, not on the amounts |
| RollupEngine.FindIndex | components/PlanningInput.tsx:73 | the result is -1 exactly when no row has the id; otherwise it is the first row with that id |
| RollupEngine.SetCell | components/PlanningInput.tsx:77 | writing a cell changes only that month of that row, and the cell then holds the new value |
| RollupEngine.Rollup | components/PlanningInput.tsx:68-77 | only month `m` of any row may change; row count, order, ids, accounts, levels and flags are kept; an unknown id returns the previous ledger unchanged |
| RollupEngine.SumImmediateChildren | components/PlanningInput.tsx:89-97 | the inner loop with its `break` computes the sum of the month cells of the immediate children, counting a missing month as 0 |
| RollupEngine.Propagate | components/PlanningInput.tsx:82-101 | the backward `for i` loop as recursion: from row `i` down to 0, a row shallower than the current level gets the edited month replaced by its children's sum and becomes the current level; other rows pass unchanged |
| RollupEngine.UpdateDataRecursive | components/PlanningInput.tsx:66-106 | the copy, the write of the edited cell and the backward scan carrying `currentLevel` produce exactly `Rollup` of the previous ledger |
| RollupEngine.PropagateSpec | components/PlanningInput.tsx:82-101 | the backward scan recomputes exactly the rows shallower than every row between them and the scan's start, each as the sum of its children in the final ledger, and leaves the other rows alone |
| RollupEngine.RollupSpec | components/PlanningInput.tsx:77-101 | the result keeps the shape, holds the new value in the edited cell, holds the children's sum in each recomputed ancestor, and keeps every other row unchanged |
| RollupEngine.RollupUnique | components/PlanningInput.tsx:82-101 | at most one ledger meets that characterization, so it pins the rollup down |
| RollupEngine.RollupIdempotent | components/PlanningInput.tsx:80-101 | applying the same edit twice gives the same ledger as applying it once |
| RollupEngine.RollupPreservesConsistency | components/PlanningInput.tsx:80-101 | if every parent held its children's sum in the edited month, and the edited row is not drawn as a parent, this still holds after the edit |
| RollupEngine.RollupPreservesConsistentAll | components/PlanningInput.tsx:80-101 | the same, for all twelve months at once (other months are untouched) |
| RollupEngine.ConsistentOtherMonth | components/PlanningInput.tsx:99 | a ledger changed only in month `m` keeps its consistency in every other month |
| RollupEngine.UnscannedRowKeepsChildSum | components/PlanningInput.tsx:82-101 | a row the scan does not recompute still has the same child sum after the edit |
| RollupEngine.RollupOfCurrentValueIsNoOp | components/PlanningInput.tsx:66-106 | on a ledger consistent in the edited month, re-entering the value any row (leaf or parent) already holds changes nothing |
| RollupEngine.SameShapeWellFormed | components/PlanningInput.tsx:68-71 | an edit keeps the ledger a well-formed tree in which every row has twelve months |
| Validation.IsValidValue | components/PlanningInput.tsx:19-20 | a value is valid exactly when it lies between `MinValue` 0 and `MaxValue` 100000000, both included (the test at line 53) |
| Validation.CellErrors | components/PlanningInput.tsx:59-61 | the failure count of a row's months is at most their number, and it is 0 exactly when every month lies in [0, 100000000] |
| Validation.ErrorCount | components/PlanningInput.tsx:56-64 | the ledger's error count is 0 exactly when every cell lies between `MIN_VALUE` 0 and `MAX_VALUE` 100000000 |
| Validation.ErrorCountIsNumberOfErrorCells | components/PlanningInput.tsx:56-64 | the error count equals the number of (row, month) cells that fail validation |
| Validation.RowErrorCellsCount | components/PlanningInput.tsx:59-61 | the failures counted in a row are exactly that row's invalid cells |
| Validation.TotalErrors | components/PlanningInput.tsx:56-64 | the nested loops over rows and months compute the error count |
| NumericInput.MatchesNumeric | components/PlanningInput.tsx:111 | the test of `^\d*\.?\d*$`: a leading run of digits, then either the end of the text or one point followed only by digits |
| NumericInput.MatchesNumericIff | components/PlanningInput.tsx:111 | the pattern accepts exactly the texts made of digits and points that contain at most one point |
| NumericInput.ParseNumber | components/PlanningInput.tsx:116 | accepted text reads as NaN exactly when it has no digit (empty or "."); any number read is non-negative |
| NumericInput.CommittedValue | components/PlanningInput.tsx:115-118 | empty text commits 0; the only accepted text that commits nothing is "." |
| NumericInput.NatToStringRoundTrip | components/PlanningInput.tsx:126 | the decimal digits of any whole number are accepted and commit that number; for a cell holding a whole number 0 < n < 10^21 they are the focus buffer |
| NumericInput.RejectedExamples | components/PlanningInput.tsx:111 | "12a3", "1.2.3" and "-5" are rejected |
| NumericInput.EmptyAndPointExamples | components/PlanningInput.tsx:115-118 | "" commits 0; "." is accepted but commits nothing |
| NumericInput.DecimalExample | components/PlanningInput.tsx:116 | "12.5" commits 12.5 |
| Fixture.InitialInputRows | constants.ts:35-68 | the eight fixture rows r1..r8 with their accounts, levels, the total flag of r1 and the twelve monthly amounts of each |
| Fixture.InitialShape | constants.ts:35-68 | eight rows, and every row has exactly the months 0..11 |
| Fixture.InitialLevels | constants.ts:37-65 | the level sequence is 0,1,2,2,2,1,2,2 |
| Fixture.InitialIds | constants.ts:37-65 | the ids are r1..r8, pairwise different, and only r1 is a total |
| Fixture.InitialWellFormed | constants.ts:35-68 | the fixture is a well-formed pre-order tree |
| Fixture.RootChildren | constants.ts:37-59 | the immediate children of r1 are r2 and r6 |
| Fixture.SparklingChildren | constants.ts:41-55 | the immediate children of r2 are r3, r4 and r5 |
| Fixture.StillChildren | constants.ts:57-67 | the immediate children of r6 are r7 and r8 |
| Fixture.InitialShapeChildSums | constants.ts:35-68 | in any ledger with the fixture's levels, r1 sums r2 and r6, r2 sums r3..r5, and r6 sums r7 and r8 |
| Fixture.InitialConsistent | constants.ts:35-68 | every parent of the fixture holds its children's sum in all twelve months |
| Fixture.InitialMonthZero | constants.ts:38-66 | in January, r1 = 12100 = 8500 + 3600, r2 = 8500 = 5000 + 2000 + 1500, and r6 = 3600 = 1200 + 2400 |
| Fixture.InitialHasNoErrors | constants.ts:35-68 | every fixture value lies in range, so the initial error count is 0 |
| Fixture.EditingParentBreaksConsistency | components/PlanningInput.tsx:82-101 | the requirement that the edited row is not a parent cannot be dropped: writing 0 into r2's January leaves r2 at 0 while its children still sum to 8500 |
| Fixture.ReenteringParentValueIsNoOp | components/PlanningInput.tsx:82-101 | writing r2's own January value 8500 back into r2 changes nothing, so re-entering a value is a no-op for parents too |
| Fixture.EditedIsRollup | constants.ts:38-46 | the ledger with r3 = 6000, r2 = 9500 and r1 = 13100 in January meets the rollup characterization for that edit |
| Fixture.WorkedScenario | constants.ts:38-46 | editing r3's January from 5000 to 6000 gives r2 = 9500 and r1 = 13100 and changes no other cell |
| PlanningSession.IsReadOnly | components/PlanningInput.tsx:50 | the grid is read-only exactly in the Actuals scenario |
| PlanningSession.IsDisabled | components/PlanningInput.tsx:245-247 | a cell is disabled when the grid is read-only, the row is the total row, or the row is drawn as a parent |
| PlanningSession.DisabledIffComputed | components/PlanningInput.tsx:245-247 | in a well-formed ledger a cell is disabled exactly when the scenario is read-only, the row is the total, or the row has a child |
| PlanningSession.InitialEditableRows | components/PlanningInput.tsx:245-247 | in the initial budget exactly r3, r4, r5, r7 and r8 are editable; under Actuals nothing is |
| PlanningSession.RevenueTotal | components/PlanningInput.tsx:143 | the `reduce` with start 0: the left-to-right sum of a row's monthly amounts |
| PlanningSession.RevenueTotalUpdate | components/PlanningInput.tsx:143 | changing one month moves row 0's yearly total by exactly that month's change |
| PlanningSession.RevenueTotalBounds | components/PlanningInput.tsx:143 | a total of valid months lies between 0 and 100000000 per month; `HandleSave` uses it to bound a saved revenue total |
| PlanningSession.InitialRevenueTotal | constants.ts:38 | the initial yearly revenue total is 167000 |
| PlanningSession.InitialHistory | components/PlanningInput.tsx:28-43 | the two initial versions: "v-initial" by System Admin one day before `now` with 165800, then "v-yesterday" by John Doe four hours before `now` with 166800 |
| PlanningSession.SaveEntry | components/PlanningInput.tsx:143-150 | a saved entry records the save time and the yearly total of row 0 |
| PlanningSession.SaveEntryIdsDiffer | components/PlanningInput.tsx:145 | saves at different times get different ids |
| PlanningSession.Session.constructor | components/PlanningInput.tsx:23-47 | a new grid starts from the fixture ledger, with the two initial history entries (one day old and four hours old), no focused cell and an empty buffer |
| PlanningSession.Session.SetScenario | components/PlanningInput.tsx:50 | the scenario changes and nothing else does |
| PlanningSession.Session.HandleCellChange | components/PlanningInput.tsx:108-121 | the ledger and buffer are left alone when read-only or when the text does not match; otherwise the buffer takes the text and the ledger becomes the rollup of the committed value ("." changes no data); consistency is kept when an editable row is edited |
| PlanningSession.Session.HandleFocus | components/PlanningInput.tsx:123-127 | when read-only nothing changes; otherwise the focused cell is recorded and the buffer is "" for value 0, else the cell's text |
| PlanningSession.Session.HandleBlur | components/PlanningInput.tsx:129-132 | the focus and the buffer are cleared |
| PlanningSession.Session.HandleSave | components/PlanningInput.tsx:134-154 | the save succeeds exactly when no cell fails validation; a refused save leaves the history unchanged; a successful one puts exactly one new entry in front of the old history, which is kept in order, and its revenue total lies between 0 and twelve times `MaxValue` |
| PlanningSession.SixThousandCommits | components/PlanningInput.tsx:111-118 | "6000" is accepted and commits 6000 |
| PlanningSession.WorkedSession | components/PlanningInput.tsx:108-153 | typing "6000" into r3's January in a fresh budget grid and saving succeeds, records a yearly revenue of 168000, and leaves r1's January at 13100 |

## Left out

- Rendering is not modelled: React state hooks, JSX, icons, styling, the history modal and `showHistory`.
- The save delay is not modelled: `setTimeout` and `isSaving` are dropped, and the save is synchronous.
- Clock reads are not modelled: `Date.now()` and `new Date()` become the parameter `now`. `formatTime` and `Intl.DateTimeFormat` are display only.
- `toLocaleString` display text and the `alert` on a refused save are presentation, and are left out.
- JavaScript floating point is left out: amounts are exact reals, so sums never round.
- `parseFloat` is modelled only on text the pattern accepts, since that is the only text it receives here.
- NumericInput.NatToStringRoundTrip: covers the focus buffer only for whole numbers 0 < n < 10^21. For 0 the buffer is "" instead. From 10^21 up, `toString` prints exponent form such as "1e+21", which the pattern rejects; that form is not modelled.
- PlanningSession.Session.HandleFocus: `Number.prototype.toString` is not modelled. The cell's display text is a parameter. `NatToStringRoundTrip` covers whole numbers, which are all the fixture holds.
- RollupEngine.Rollup: requires every row to carry the edited month. For a month a row lacks, JavaScript would add a new key, but the grid only passes months 0..11 and every row carries them.
- RollupEngine.UpdateDataRecursive: same precondition as `Rollup`. The React updater form `setData(prev => …)` is modelled as a direct call on the current ledger.
- The NaN case of `|| 0` in the child sum cannot arise with exact reals, and is not modelled.
- PlanningSession.Session.HandleSave: as in the source, it does not check the read-only scenario. Only the Save button's `disabled` attribute (components/PlanningInput.tsx:196) does, and that attribute is rendering.
- The Submit button has no handler in the source, and is not modelled.
- The chart, top bar, sidebar, dashboard, data table, KPI card, `App.tsx` routing and the static financial rows are presentation. They are not part of this model, and `types.ts` contributes only the row shape.
