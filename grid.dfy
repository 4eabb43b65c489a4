/** The three-column task grid (client/src/components/VirtualizedTaskGrid.tsx):
    which task each cell shows, and how many rows the grid has. */
module TaskGrid {
  import opened Wrappers
  import opened TaskTypes

  /** `COLUMN_COUNT`. */
  const ColumnCount: int := 3

  /** `Math.ceil(tasks.length / COLUMN_COUNT)`: the fewest rows of three that
      hold `n` tasks. */
  function RowCount(n: nat): (r: nat)
    ensures ColumnCount * r >= n
    ensures ColumnCount * r < n + ColumnCount
  {
    (n + ColumnCount - 1) / ColumnCount
  }

  /** `taskIndex = rowIndex * COLUMN_COUNT + columnIndex`. */
  function CellIndex(row: nat, column: nat): (r: nat)
    ensures column < ColumnCount ==> r / ColumnCount == row && r % ColumnCount == column
  {
    row * ColumnCount + column
  }

  /** `tasks[taskIndex]`: the task in a cell, or nothing for an index past
      the end of the list (the empty cell). */
  function CellTask(tasks: seq<TaskItem>, row: nat, column: nat): (r: Option<TaskItem>)
    ensures r.None? <==> CellIndex(row, column) >= |tasks|
    ensures r.Some? ==> r.value == tasks[CellIndex(row, column)]
  {
    var taskIndex := CellIndex(row, column);
    if taskIndex < |tasks| then Some(tasks[taskIndex]) else None
  }

  /** Two different cells of the grid never show the same list position. */
  lemma CellIndexInjective(row1: nat, column1: nat, row2: nat, column2: nat)
    requires column1 < ColumnCount && column2 < ColumnCount
    requires CellIndex(row1, column1) == CellIndex(row2, column2)
    ensures row1 == row2 && column1 == column2
  {
  }

  /** Every task of the list is shown: task `i` sits in row `i / 3`, column
      `i % 3`, and that row is one of the grid's rows. */
  lemma EveryTaskHasACell(tasks: seq<TaskItem>, i: nat)
    requires i < |tasks|
    ensures i / ColumnCount < RowCount(|tasks|)
    ensures CellTask(tasks, i / ColumnCount, i % ColumnCount) == Some(tasks[i])
  {
    assert CellIndex(i / ColumnCount, i % ColumnCount) == i;
  }

  /** Every row but the last is full; only the last row has empty cells. */
  lemma OnlyTheLastRowHasEmptyCells(tasks: seq<TaskItem>, row: nat, column: nat)
    requires row + 1 < RowCount(|tasks|) && column < ColumnCount
    ensures CellTask(tasks, row, column).Some?
  {
  }

  /** The number of empty cells the grid renders: fewer than one row. */
  function EmptyCells(n: nat): (r: nat)
    ensures r < ColumnCount
    ensures n + r == ColumnCount * RowCount(n)
  {
    ColumnCount * RowCount(n) - n
  }

  /** The empty cells are the last `EmptyCells(n)` cells of the last row:
      a cell of the grid is empty iff it is in the last row at one of the
      rightmost `EmptyCells(n)` columns. */
  lemma EmptyCellsEndTheLastRow(tasks: seq<TaskItem>, row: nat, column: nat)
    requires row < RowCount(|tasks|) && column < ColumnCount
    ensures CellTask(tasks, row, column).None? <==>
              row == RowCount(|tasks|) - 1 && column >= ColumnCount - EmptyCells(|tasks|)
  {
    var n, rows, e := |tasks|, RowCount(|tasks|), EmptyCells(|tasks|);
    assert n + e == ColumnCount * rows && e < ColumnCount;
    if row < rows - 1 {
      assert CellIndex(row, column) < n;
    }
  }

  /** What the component renders. */
  datatype GridView = NoTasks | Grid(rowCount: nat)

  function View(tasks: seq<TaskItem>): (r: GridView)
    ensures r.NoTasks? <==> tasks == []
    ensures r.Grid? ==> r.rowCount >= 1 && r.rowCount == RowCount(|tasks|)
  {
    if |tasks| == 0 then NoTasks else Grid(RowCount(|tasks|))
  }
}
