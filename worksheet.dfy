/** `WorksheetSelector`: reading one weekday's write-offs out of a
    worksheet. The worksheet is a plain value, its name and its grid of
    cells; what the spreadsheet service would return for the range is
    computed from the grid. */
module WorksheetSelector {
  import opened Columns
  import opened WriteOffs

  /** A worksheet: its name and its rows of cells, top to bottom, the first
      row being the header. A row may be shorter than the widest one: the
      missing cells read as blank. */
  datatype Worksheet = Worksheet(name: string, grid: seq<seq<Cell>>)

  /** What `getValues` reports for the cell in grid row `row` (0-based)
      and column `column` (1-based): a blank cell is the empty string. */
  function CellAt(ws: Worksheet, row: nat, column: int): Cell
    requires row < |ws.grid|
  {
    if 1 <= column <= |ws.grid[row]| then ws.grid[row][column - 1] else Str("")
  }

  /** `getWriteOffsByWeekday`: builds the A1 range of the weekday's two
      columns, and `getRange(range).getValues()` then gives one raw
      write-off per worksheet row from row 2 down, from the columns whose
      letters the range names: the date column's letter sits four
      characters before the end of the range, the check box column's
      letter last. Those are the weekday's date column and check box
      column. The weekday must be 1..7; otherwise the range would name the
      columns "null" or "undefined". */
  function GetWriteOffsByWeekday(ws: Worksheet, weekday: int): (r: seq<RawWriteOff>)
    requires 1 <= weekday <= 7
    ensures |r| == if |ws.grid| == 0 then 0 else |ws.grid| - 1
    ensures forall i :: 0 <= i < |r| ==>
      && r[i].toBeWrittenOffAt == CellAt(ws, i + 1, 2 * weekday)
      && r[i].isChecked == CellAt(ws, i + 1, 2 * weekday + 1)
  {
    var range := WriteOffsRange(ws.name, weekday);
    var tail := [ColumnLetter(2 * weekday)] + "2:" + [ColumnLetter(2 * weekday + 1)];
    assert range == (ws.name + "!") + tail;
    var dateColumn := ColumnCharToNumber(range[|range| - 4]);
    var checkboxColumn := ColumnCharToNumber(range[|range| - 1]);
    assert dateColumn == 2 * weekday && checkboxColumn == 2 * weekday + 1;
    var rows := if |ws.grid| == 0 then 0 else |ws.grid| - 1;
    seq(rows, i requires 0 <= i < rows =>
      RawWriteOff(CellAt(ws, i + 1, dateColumn), CellAt(ws, i + 1, checkboxColumn)))
  }
}
