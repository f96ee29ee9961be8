/**
 The two reports of the budget planner: the yearly grid and the monthly buckets. Every amount that
 enters is in cents, so the final roundings change nothing; the loops take categories in any order.
 */
module BudgetPlanner {
  import opened Money
  import opened Options
  import opened RateTable
  import opened Forecast
  import opened Totals
  import opened Actuals

  const SAVINGS := "savings"
  const EXPENSE_CATEGORIES: set<string> :=
    {"food", "groceries", "transport", "bills", "health", "entertainment", "clothing", "home", "tax", "other"}

  datatype Bucket = Fundamental | Fun | Future

  const DEFAULT_BUCKETS: map<string, Bucket> := map[
    "groceries" := Fundamental, "bills" := Fundamental, "transport" := Fundamental, "health" := Fundamental,
    "home" := Fundamental, "tax" := Fundamental, "food" := Fun, "entertainment" := Fun, "clothing" := Fun,
    "other" := Fun, "loan" := Fundamental, "insurance" := Fundamental, "rent" := Fundamental,
    "utility" := Fundamental, "subscription" := Fun, "savings" := Future]

  type BucketMap = map<string, Bucket>

  /** An override names a bucket, or something that is none. */
  type Overrides = map<string, Option<Bucket>>

  predicate Overridden(overrides: Option<Overrides>, category: string) {
    overrides.Some? && category in overrides.value && overrides.value[category].Some?
  }

  /** The defaults with the valid overrides: an override to an unknown bucket is ignored. */
  method ResolveCategoryBuckets(overrides: Option<Overrides>) returns (merged: BucketMap)
    ensures forall c ::
      if Overridden(overrides, c) then c in merged && merged[c] == overrides.value[c].value
      else (c in merged <==> c in DEFAULT_BUCKETS) && (c in DEFAULT_BUCKETS ==> merged[c] == DEFAULT_BUCKETS[c])
  {
    merged := DEFAULT_BUCKETS;
    if overrides.None? {
      return;
    }
    var todo := overrides.value.Keys;
    while todo != {}
      invariant todo <= overrides.value.Keys
      invariant forall c ::
        if Overridden(overrides, c) && c !in todo then c in merged && merged[c] == overrides.value[c].value
        else (c in merged <==> c in DEFAULT_BUCKETS) && (c in DEFAULT_BUCKETS ==> merged[c] == DEFAULT_BUCKETS[c])
      decreases |todo|
    {
      var cat :| cat in todo;
      if overrides.value[cat].Some? {
        merged := merged[cat := overrides.value[cat].value];
      }
      todo := todo - {cat};
    }
  }

  function BucketOf(category: string, buckets: BucketMap): Bucket {
    if category in buckets then buckets[category] else Fun
  }

  function Quantize(cents: int): (q: int)
    ensures q == cents
  {
    HalfUpOfCents(cents);
    HalfUp(Amount(cents))
  }

  // ------------------------------------------------------------ the plan

  datatype Line = Line(category: string, month: int, amount: int, currency: Currency)

  /** The year's budget lines with what is needed to show them. */
  datatype Plan = Plan(lines: seq<Line>, rates: Rates, display: Currency)

  function Shown(plan: Plan, line: Line): int {
    ConvertForecast(Amount(line.amount), line.currency, plan.display, plan.rates)
  }

  /** The line of a cell: a later line for the same cell would replace an earlier one. */
  function LineAt(lines: seq<Line>, category: string, month: int): Option<Line> {
    if lines == [] then None
    else
      var line := lines[|lines| - 1];
      if line.category == category && line.month == month then Some(line)
      else LineAt(lines[..|lines| - 1], category, month)
  }

  function PlannedAt(plan: Plan, category: string, month: int): int {
    var line := LineAt(plan.lines, category, month);
    if line.Some? then Shown(plan, line.value) else 0
  }

  /** The planned and the actual amounts of the grid, by category and month. */
  function PlannedCells(plan: Plan): (string, int) -> int {
    (c, m) => PlannedAt(plan, c, m)
  }

  function ActualCells(actuals: YearTable): (string, int) -> int {
    (c, m) => At(actuals, c, m)
  }

  function InMonth(cells: (string, int) -> int, month: int): string -> int {
    c => cells(c, month)
  }

  function SumMonths(cells: (string, int) -> int, category: string, upTo: nat): int {
    if upTo == 0 then 0 else SumMonths(cells, category, upTo - 1) + cells(category, upTo)
  }

  function InYear(cells: (string, int) -> int): string -> int {
    c => SumMonths(cells, c, 12)
  }

  function LineCategories(lines: seq<Line>): set<string> {
    set i | 0 <= i < |lines| :: lines[i].category
  }

  function GridCategories(plan: Plan, actuals: YearTable): set<string> {
    EXPENSE_CATEGORIES + {SAVINGS} + LineCategories(plan.lines) + actuals.Keys
  }

  // ------------------------------------------------------------ the yearly grid

  datatype GridCell = GridCell(month: int, line: Option<Line>, planned: Option<int>, actual: int)

  datatype GridRow = GridRow(category: string, bucket: Bucket, cells: seq<GridCell>, planned: int, actual: int)

  datatype Grid = Grid(rows: seq<GridRow>, monthlyPlanned: seq<int>, monthlyActual: seq<int>, planned: int, actual: int)

  /** A row shows the line and the actual of each of its twelve months, and their sums. */
  ghost predicate RowShows(row: GridRow, plan: Plan, actuals: YearTable, buckets: BucketMap) {
    && |row.cells| == 12
    && CellsShow(row.cells, plan, actuals, row.category)
    && row.planned == InYear(PlannedCells(plan))(row.category)
    && row.actual == InYear(ActualCells(actuals))(row.category)
    && row.bucket == BucketOf(row.category, buckets)
  }

  ghost predicate CellsShow(cells: seq<GridCell>, plan: Plan, actuals: YearTable, category: string) {
    forall i :: 0 <= i < |cells| ==>
      var line := LineAt(plan.lines, category, i + 1);
      && cells[i].month == i + 1 && cells[i].line == line && cells[i].actual == At(actuals, category, i + 1)
      && cells[i].planned == if line.Some? then Some(Shown(plan, line.value)) else None
  }

  ghost predicate OneRowEach(rows: seq<GridRow>, names: set<string>) {
    && (forall i :: 0 <= i < |rows| ==> rows[i].category in names)
    && (forall i, j :: 0 <= i < j < |rows| ==> rows[i].category != rows[j].category)
    && |rows| == |names|
  }

  /** The column sums over a set of categories, month by month. */
  ghost function ColumnSums(names: set<string>, cells: (string, int) -> int): seq<int> {
    seq(12, i requires 0 <= i < 12 => SumOver(names, InMonth(cells, i + 1)))
  }

  /** The columns with the first `upTo` months of one category added. */
  ghost function Added(columns: seq<int>, cells: (string, int) -> int, category: string, upTo: nat): seq<int> {
    seq(|columns|, i requires 0 <= i < |columns| => columns[i] + if i < upTo then cells(category, i + 1) else 0)
  }

  lemma AddedOneMore(columns: seq<int>, cells: (string, int) -> int, category: string, m: nat)
    requires 1 <= m <= |columns|
    ensures
      var before := Added(columns, cells, category, m - 1);
      Added(columns, cells, category, m) == before[m - 1 := before[m - 1] + cells(category, m)]
    ensures Added(columns, cells, category, 0) == columns
  {
  }

  lemma ColumnWithRow(names: set<string>, cells: (string, int) -> int, category: string, m: int)
    requires category !in names
    ensures SumOver(names + {category}, InMonth(cells, m)) == SumOver(names, InMonth(cells, m)) + cells(category, m)
  {
    Totals.SumOfOneMore(names, InMonth(cells, m), category);
  }

  lemma ColumnSumsWithRow(names: set<string>, cells: (string, int) -> int, category: string)
    requires category !in names
    ensures ColumnSums(names + {category}, cells) == Added(ColumnSums(names, cells), cells, category, 12)
    ensures SumOver(names + {category}, InYear(cells)) == SumOver(names, InYear(cells)) + InYear(cells)(category)
  {
    var after, before := ColumnSums(names + {category}, cells), ColumnSums(names, cells);
    forall i | 0 <= i < 12
      ensures after[i] == before[i] + cells(category, i + 1)
    {
      ColumnWithRow(names, cells, category, i + 1);
    }
    Totals.SumOfOneMore(names, InYear(cells), category);
  }

  lemma {:induction false} RowAddsToColumns(columns: seq<int>, cells: (string, int) -> int, category: string, upTo: nat)
    requires upTo <= |columns|
    ensures SumSeq(Added(columns, cells, category, upTo)) == SumSeq(columns) + SumMonths(cells, category, upTo)
  {
    if upTo == 0 {
      assert Added(columns, cells, category, 0) == columns;
    } else {
      RowAddsToColumns(columns, cells, category, upTo - 1);
      AddedOneMore(columns, cells, category, upTo);
      SumSeqOfUpdate(Added(columns, cells, category, upTo - 1), upTo - 1, cells(category, upTo));
    }
  }

  /** Adding up by rows or by columns gives the same grand total. */
  lemma {:induction false} RowsAndColumnsAgree(names: set<string>, cells: (string, int) -> int)
    ensures SumSeq(ColumnSums(names, cells)) == SumOver(names, InYear(cells))
    decreases |names|
  {
    if names == {} {
      SumSeqOfZeros(ColumnSums({}, cells));
    } else {
      var c :| c in names;
      var rest := names - {c};
      assert names == rest + {c};
      RowsAndColumnsAgree(rest, cells);
      ColumnSumsWithRow(rest, cells, c);
      RowAddsToColumns(ColumnSums(rest, cells), cells, c, 12);
    }
  }

  /** The inner loop: one category's row, added into the monthly columns. */
  method FillRow(category: string, plan: Plan, actuals: YearTable, buckets: BucketMap, columnsP: seq<int>,
                 columnsA: seq<int>)
    returns (row: GridRow, planned: seq<int>, actual: seq<int>)
    requires |columnsP| == |columnsA| == 12
    ensures row.category == category && RowShows(row, plan, actuals, buckets)
    ensures planned == Added(columnsP, PlannedCells(plan), category, 12)
    ensures actual == Added(columnsA, ActualCells(actuals), category, 12)
  {
    planned, actual := columnsP, columnsA;
    var cells := [];
    var rowPlanned, rowActual := 0, 0;
    for m := 1 to 13
      invariant |cells| == m - 1 && CellsShow(cells, plan, actuals, category)
      invariant planned == Added(columnsP, PlannedCells(plan), category, m - 1)
      invariant actual == Added(columnsA, ActualCells(actuals), category, m - 1)
      invariant rowPlanned == SumMonths(PlannedCells(plan), category, m - 1)
      invariant rowActual == SumMonths(ActualCells(actuals), category, m - 1)
    {
      AddedOneMore(columnsP, PlannedCells(plan), category, m);
      AddedOneMore(columnsA, ActualCells(actuals), category, m);
      var line := LineAt(plan.lines, category, m);
      var shown := None;
      if line.Some? {
        var value := Shown(plan, line.value);
        shown := Some(value);
        rowPlanned := rowPlanned + value;
        planned := planned[m - 1 := planned[m - 1] + value];
      }
      var value := At(actuals, category, m);
      rowActual := rowActual + value;
      actual := actual[m - 1 := actual[m - 1] + value];
      cells := cells + [GridCell(m, line, shown, value)];
    }
    row := GridRow(category, BucketOf(category, buckets), cells, Quantize(rowPlanned), Quantize(rowActual));
  }

  method QuantizeAll(columns: seq<int>) returns (quantized: seq<int>)
    ensures quantized == columns
  {
    quantized := [];
    for i := 0 to |columns|
      invariant quantized == columns[..i]
    {
      quantized := quantized + [Quantize(columns[i])];
    }
  }

  /** A grid over a set of categories: a row for each, the sums of the columns, and the sums of the rows. */
  ghost predicate GridOver(grid: Grid, names: set<string>, plan: Plan, actuals: YearTable, buckets: BucketMap) {
    && OneRowEach(grid.rows, names)
    && AllShow(grid.rows, plan, actuals, buckets)
    && SumsOver(grid.monthlyPlanned, grid.planned, names, PlannedCells(plan))
    && SumsOver(grid.monthlyActual, grid.actual, names, ActualCells(actuals))
  }

  ghost predicate AllShow(rows: seq<GridRow>, plan: Plan, actuals: YearTable, buckets: BucketMap) {
    forall i :: 0 <= i < |rows| ==> RowShows(rows[i], plan, actuals, buckets)
  }

  ghost predicate SumsOver(columns: seq<int>, total: int, names: set<string>, cells: (string, int) -> int) {
    columns == ColumnSums(names, cells) && total == SumOver(names, InYear(cells))
  }

  lemma SumsWithRow(columns: seq<int>, total: int, names: set<string>, cells: (string, int) -> int, category: string)
    requires SumsOver(columns, total, names, cells) && category !in names
    ensures SumsOver(Added(columns, cells, category, 12), total + InYear(cells)(category), names + {category}, cells)
  {
    ColumnSumsWithRow(names, cells, category);
  }

  const ZEROS: seq<int> := seq(12, _ => 0)

  method AppendRow(grid: Grid, category: string, plan: Plan, actuals: YearTable, buckets: BucketMap,
                   ghost names: set<string>) returns (wider: Grid)
    requires GridOver(grid, names, plan, actuals, buckets) && category !in names
    ensures GridOver(wider, names + {category}, plan, actuals, buckets)
  {
    var row, planned, actual := FillRow(category, plan, actuals, buckets, grid.monthlyPlanned, grid.monthlyActual);
    OneMoreRow(grid.rows, names, row);
    SumsWithRow(grid.monthlyPlanned, grid.planned, names, PlannedCells(plan), category);
    SumsWithRow(grid.monthlyActual, grid.actual, names, ActualCells(actuals), category);
    wider := Grid(grid.rows + [row], planned, actual, grid.planned + row.planned, grid.actual + row.actual);
  }

  lemma OneMoreRow(rows: seq<GridRow>, names: set<string>, row: GridRow)
    requires OneRowEach(rows, names) && row.category !in names
    ensures OneRowEach(rows + [row], names + {row.category})
  {
  }

  method NewGrid(plan: Plan, actuals: YearTable, buckets: BucketMap) returns (grid: Grid)
    ensures GridOver(grid, {}, plan, actuals, buckets)
  {
    grid := Grid([], ZEROS, ZEROS, 0, 0);
  }

  /** One round of the outer loop, over any category that has no row yet. */
  method NextRow(grid: Grid, categories: set<string>, done: set<string>, plan: Plan, actuals: YearTable,
                 buckets: BucketMap)
    returns (wider: Grid, more: set<string>)
    requires GridOver(grid, done, plan, actuals, buckets) && done <= categories && done != categories
    ensures GridOver(wider, more, plan, actuals, buckets) && more <= categories && |categories - more| < |categories - done|
  {
    Totals.NotEmpty(categories - done);
    var category :| category in categories - done;
    wider := AppendRow(grid, category, plan, actuals, buckets, done);
    more := done + {category};
    assert categories - done - {category} == categories - more;
  }

  /** The outer loop. */
  method FillRows(categories: set<string>, plan: Plan, actuals: YearTable, buckets: BucketMap) returns (grid: Grid)
    ensures GridOver(grid, categories, plan, actuals, buckets)
  {
    grid := NewGrid(plan, actuals, buckets);
    var done := {};
    while done != categories
      invariant done <= categories
      invariant GridOver(grid, done, plan, actuals, buckets)
      decreases |categories - done|
    {
      grid, done := NextRow(grid, categories, done, plan, actuals, buckets);
    }
  }

  method BuildGrid(plan: Plan, actuals: YearTable, buckets: BucketMap) returns (grid: Grid)
    ensures GridOver(grid, GridCategories(plan, actuals), plan, actuals, buckets)
    ensures SumSeq(grid.monthlyPlanned) == grid.planned && SumSeq(grid.monthlyActual) == grid.actual
    ensures ShowsEverything(grid, plan, actuals, buckets)
  {
    var filled := FillRows(GridCategories(plan, actuals), plan, actuals, buckets);
    var planned := QuantizeAll(filled.monthlyPlanned);
    var actual := QuantizeAll(filled.monthlyActual);
    grid := Grid(filled.rows, planned, actual, Quantize(filled.planned), Quantize(filled.actual));
    RowsAndColumnsAgree(GridCategories(plan, actuals), PlannedCells(plan));
    RowsAndColumnsAgree(GridCategories(plan, actuals), ActualCells(actuals));
    GridLists(plan, actuals);
    ListedIsShown(grid, GridCategories(plan, actuals), plan, actuals, buckets);
  }

  ghost predicate HasRow(rows: seq<GridRow>, category: string) {
    exists i :: 0 <= i < |rows| && rows[i].category == category
  }

  /**
   Every expense category, savings, and every category with a line or an actual has its row, in its bucket;
   with one line per cell, the planned total is the sum of the lines.
   */
  ghost predicate ShowsEverything(grid: Grid, plan: Plan, actuals: YearTable, buckets: BucketMap) {
    && (forall i :: 0 <= i < |FIXED_CATEGORIES| ==> HasRow(grid.rows, FIXED_CATEGORIES[i]))
    && (forall c :: c in actuals ==> HasRow(grid.rows, c))
    && (forall i :: 0 <= i < |plan.lines| ==> HasRow(grid.rows, plan.lines[i].category))
    && (forall i :: 0 <= i < |grid.rows| ==> InItsBucket(grid.rows[i].category, grid.rows[i].bucket, buckets))
    && (OneLinePerCell(plan.lines) ==> grid.planned == SumLines(plan, |plan.lines|))
  }

  /** The grid lists at least these categories. */
  ghost predicate Lists(names: set<string>, plan: Plan, actuals: YearTable) {
    && (forall i :: 0 <= i < |FIXED_CATEGORIES| ==> FIXED_CATEGORIES[i] in names)
    && actuals.Keys <= names && LineCategories(plan.lines) <= names
  }

  lemma GridLists(plan: Plan, actuals: YearTable)
    ensures Lists(GridCategories(plan, actuals), plan, actuals)
  {
    forall i | 0 <= i < |FIXED_CATEGORIES|
      ensures FIXED_CATEGORIES[i] in EXPENSE_CATEGORIES + {SAVINGS}
    {
    }
  }

  lemma ListedIsShown(grid: Grid, names: set<string>, plan: Plan, actuals: YearTable, buckets: BucketMap)
    requires GridOver(grid, names, plan, actuals, buckets) && Lists(names, plan, actuals)
    ensures ShowsEverything(grid, plan, actuals, buckets)
  {
    EveryCategoryHasARow(grid.rows, names);
    forall i | 0 <= i < |plan.lines|
      ensures HasRow(grid.rows, plan.lines[i].category)
    {
      assert plan.lines[i].category in LineCategories(plan.lines);
    }
    forall i | 0 <= i < |grid.rows|
      ensures InItsBucket(grid.rows[i].category, grid.rows[i].bucket, buckets)
    {
      assert RowShows(grid.rows[i], plan, actuals, buckets);
    }
    if OneLinePerCell(plan.lines) {
      NoLineIsLost(plan, names);
    }
  }

  /** The categories of the planner's table, with or without a line or an expense. */
  const FIXED_CATEGORIES: seq<string> := [
    "food", "groceries", "transport", "bills", "health", "entertainment", "clothing", "home", "tax", "other", "savings"]

  /** The user's bucket of a category, or fun where the user has none for it. */
  predicate InItsBucket(category: string, bucket: Bucket, buckets: BucketMap) {
    bucket == if category in buckets then buckets[category] else Fun
  }

  /** As many rows as categories, and no two of one category: every category has its row. */
  lemma {:induction false} EveryCategoryHasARow(rows: seq<GridRow>, names: set<string>)
    requires OneRowEach(rows, names)
    ensures forall c :: c in names ==> HasRow(rows, c)
    decreases |rows|
  {
    if rows == [] {
      assert names == {};
    } else {
      var n := |rows| - 1;
      var rest := names - {rows[n].category};
      assert forall i :: 0 <= i < n ==> rows[..n][i].category in rest;
      EveryCategoryHasARow(rows[..n], rest);
      forall c | c in names
        ensures HasRow(rows, c)
      {
        if c == rows[n].category {
        } else {
          assert c in rest;
          var i :| 0 <= i < |rows[..n]| && rows[..n][i].category == c;
          assert rows[i].category == c;
        }
      }
    }
  }

  // ------------------------------------------------------------ the grid loses nothing

  /** One line per cell of the year, as the unique constraint has it. */
  ghost predicate OneLinePerCell(lines: seq<Line>) {
    && (forall i :: 0 <= i < |lines| ==> 1 <= lines[i].month <= 12)
    && (forall i, j :: 0 <= i < j < |lines| ==> lines[i].category != lines[j].category || lines[i].month != lines[j].month)
  }

  function SumLines(plan: Plan, n: nat): int
    requires n <= |plan.lines|
  {
    if n == 0 then 0 else SumLines(plan, n - 1) + Shown(plan, plan.lines[n - 1])
  }

  lemma {:induction false} NoLineYet(lines: seq<Line>, category: string, month: int)
    requires forall i :: 0 <= i < |lines| ==> lines[i].category != category || lines[i].month != month
    ensures LineAt(lines, category, month) == None
  {
    if lines == [] {
    } else {
      NoLineYet(lines[..|lines| - 1], category, month);
    }
  }

  lemma {:induction false} OneMonthMore(f: (string, int) -> int, g: (string, int) -> int, category: string, month: int,
                                        v: int, upTo: nat)
    requires month >= 1 && g(category, month) == f(category, month) + v
    requires forall m :: m != month ==> g(category, m) == f(category, m)
    ensures SumMonths(g, category, upTo) == SumMonths(f, category, upTo) + if month <= upTo then v else 0
  {
    if upTo == 0 {
    } else {
      OneMonthMore(f, g, category, month, v, upTo - 1);
    }
  }

  lemma {:induction false} SameMonths(f: (string, int) -> int, g: (string, int) -> int, category: string, upTo: nat)
    requires forall m :: g(category, m) == f(category, m)
    ensures SumMonths(g, category, upTo) == SumMonths(f, category, upTo)
  {
    if upTo == 0 {
    } else {
      SameMonths(f, g, category, upTo - 1);
    }
  }

  lemma OneMoreLine(plan: Plan, names: set<string>)
    requires plan.lines != [] && OneLinePerCell(plan.lines) && LineCategories(plan.lines) <= names
    ensures
      var last := plan.lines[|plan.lines| - 1];
      var fewer := plan.(lines := plan.lines[..|plan.lines| - 1]);
      SumOver(names, InYear(PlannedCells(plan))) == SumOver(names, InYear(PlannedCells(fewer))) + Shown(plan, last)
  {
    var n, last := |plan.lines| - 1, plan.lines[|plan.lines| - 1];
    var fewer := plan.(lines := plan.lines[..n]);
    var f, g := PlannedCells(fewer), PlannedCells(plan);
    NoLineYet(plan.lines[..n], last.category, last.month);
    OneMonthMore(f, g, last.category, last.month, Shown(plan, last), 12);
    forall c | c != last.category
      ensures InYear(g)(c) == InYear(f)(c)
    {
      SameMonths(f, g, c, 12);
    }
    assert last.category in LineCategories(plan.lines);
    SumOfOneChange(names, InYear(f), InYear(g), last.category, Shown(plan, last));
  }

  /** The grid's planned total is the sum of all budget lines of the year. */
  lemma {:induction false} NoLineIsLost(plan: Plan, names: set<string>)
    requires OneLinePerCell(plan.lines) && LineCategories(plan.lines) <= names
    ensures SumOver(names, InYear(PlannedCells(plan))) == SumLines(plan, |plan.lines|)
    decreases |plan.lines|
  {
    var lines := plan.lines;
    if lines == [] {
      forall c
        ensures InYear(PlannedCells(plan))(c) == 0
      {
        NothingPlanned(plan, c, 12);
      }
      SumIgnoresZeros({}, names, InYear(PlannedCells(plan)));
    } else {
      var n := |lines| - 1;
      var fewer := plan.(lines := lines[..n]);
      assert LineCategories(lines[..n]) <= names by {
        assert forall i :: 0 <= i < n ==> lines[..n][i] == lines[i];
      }
      NoLineIsLost(fewer, names);
      SameLines(plan, fewer, n);
      OneMoreLine(plan, names);
    }
  }

  lemma {:induction false} NothingPlanned(plan: Plan, category: string, upTo: nat)
    requires plan.lines == []
    ensures SumMonths(PlannedCells(plan), category, upTo) == 0
  {
    if upTo == 0 {
    } else {
      NothingPlanned(plan, category, upTo - 1);
    }
  }

  lemma {:induction false} SameLines(plan: Plan, fewer: Plan, n: nat)
    requires n <= |fewer.lines| <= |plan.lines| && fewer == plan.(lines := plan.lines[..|fewer.lines|])
    ensures SumLines(plan, n) == SumLines(fewer, n)
  {
    if n == 0 {
    } else {
      SameLines(plan, fewer, n - 1);
    }
  }

  lemma {:induction false} RowSumsMonths(rows: seq<Expense>, category: string)
    requires ValidRows(rows)
    ensures SumMonths(ActualCells(YearTl(rows)), category, 12) == SumTl(Cell(rows, category, None))
  {
    var f := ActualCells(YearTl(rows));
    if rows == [] {
      NoRowsNoActual(category, 12);
    } else {
      var n, e := |rows| - 1, rows[|rows| - 1];
      var before := ActualCells(YearTl(rows[..n]));
      RowSumsMonths(rows[..n], category);
      forall m
        ensures f(category, m) == before(category, m) + if e.category == category && e.date.month == m then e.amountTl else 0
      {
        TableEntries(rows, category, m);
        TableEntries(rows[..n], category, m);
        LiraOfOneMore(rows, category, Some(m));
      }
      LiraOfOneMore(rows, category, None);
      if e.category == category {
        OneMonthMore(before, f, category, e.date.month, e.amountTl, 12);
      } else {
        SameMonths(before, f, category, 12);
      }
    }
  }

  lemma LiraOfOneMore(rows: seq<Expense>, category: string, month: Option<int>)
    requires rows != []
    ensures
      var e := rows[|rows| - 1];
      SumTl(Cell(rows, category, month)) == SumTl(Cell(rows[..|rows| - 1], category, month))
        + if e.category == category && (month.Some? ==> e.date.month == month.value) then e.amountTl else 0
  {
    var before, after := Cell(rows[..|rows| - 1], category, month), Cell(rows, category, month);
    assert after == before || after[..|before|] == before;
  }

  lemma {:induction false} NoRowsNoActual(category: string, upTo: nat)
    ensures SumMonths(ActualCells(YearTl([])), category, upTo) == 0
  {
    if upTo == 0 {
    } else {
      NoRowsNoActual(category, upTo - 1);
    }
  }

  /** In lira, the grid's actual total is the sum of the year's counted expenses. */
  lemma NoExpenseIsLost(rows: seq<Expense>, names: set<string>)
    requires ValidRows(rows) && YearTl(rows).Keys <= names
    ensures SumOver(names, InYear(ActualCells(YearTl(rows)))) == SumTl(rows)
  {
    CategoriesAddUp(rows, names);
    forall c
      ensures InYear(ActualCells(YearTl(rows)))(c) == CellSum(rows)(c)
    {
      RowSumsMonths(rows, c);
    }
    SumsAgree(names, InYear(ActualCells(YearTl(rows))), CellSum(rows));
  }
}
