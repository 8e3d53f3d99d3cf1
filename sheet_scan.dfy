/**
 * The per-sheet part of the flattening engine: column pairs (2k, 2k+1) are
 * walked in the outer loop, data rows 1.. in the inner loop, and each cell
 * pair that passes the two-stage filter becomes one processed row; a sheet
 * that produced anything is closed by one blank separator row.
 */
module SheetScan {
  import opened Workbook

  /** One row of the flattened result: the sub-item, its data and the sheet it came from. */
  datatype ProcessedRow = ProcessedRow(subItem: Cell, data: Cell, sheet: string)

  /** The blank row pushed after every sheet that produced data. */
  const Separator := ProcessedRow(Str(""), Str(""), "")

  /** `cell || ''`: the data value kept for a pair. */
  function DataValue(c: Cell): Cell
  {
    if Truthy(c) then c else Str("")
  }

  /**
   * The filter applied to the pair at columns (col, col+1) of a row: skip it
   * when both values are falsy, otherwise keep it only when the sub-item is
   * neither undefined nor null.
   */
  predicate Emits(row: seq<Cell>, col: nat)
  {
    var subItem := CellAt(row, col);
    var dataValue := DataValue(CellAt(row, col + 1));
    if !Truthy(subItem) && !Truthy(dataValue) then false
    else subItem != Absent && subItem != Null
  }

  /** The processed row built from the pair at columns (col, col+1) of a row. */
  function Extracted(sheetName: string, row: seq<Cell>, col: nat): ProcessedRow
  {
    ProcessedRow(CellAt(row, col), DataValue(CellAt(row, col + 1)), sheetName)
  }

  /** The number of column pairs the outer loop visits: the least n with 2n >= maxCol. */
  function PairCount(maxCol: nat): nat
  {
    (maxCol + 1) / 2
  }

  /**
   * The rows pushed by the time the scan is about to visit row i of column
   * pair k: everything from pairs 0 .. k-1, then rows 1 .. i-1 of pair k.
   */
  function Scanned(sheetName: string, grid: Grid, k: nat, i: nat): seq<ProcessedRow>
    requires i <= |grid|
    decreases k, i
  {
    if i <= 1 then (if k == 0 then [] else Scanned(sheetName, grid, k - 1, |grid|))
    else if Emits(grid[i - 1], 2 * k) then Scanned(sheetName, grid, k, i - 1) + [Extracted(sheetName, grid[i - 1], 2 * k)]
    else Scanned(sheetName, grid, k, i - 1)
  }

  /** The data rows one checked sheet contributes, without its separator. */
  function SheetBody(sheetName: string, grid: Grid): seq<ProcessedRow>
  {
    if |grid| == 0 then [] else Scanned(sheetName, grid, PairCount(MaxCol(grid)), 1)
  }

  /** Everything one checked sheet contributes: its data rows and, if there are any, one separator. */
  function SheetOutput(sheetName: string, grid: Grid): seq<ProcessedRow>
  {
    var body := SheetBody(sheetName, grid);
    if body == [] then [] else body + [Separator]
  }

  /**
   * The body of the sheet loop in the processing handler: the column-pair
   * loop and the row loop over one checked sheet, then its separator if
   * anything was pushed. The rows it returns are what the handler pushes
   * onto its result.
   */
  method ScanSheet(sheetName: string, rows: Grid) returns (out: seq<ProcessedRow>)
    ensures out == SheetOutput(sheetName, rows)
  {
    out := [];
    var maxCol := MaxCol(rows);
    var sheetHasData := false;
    var groupIndex := 0;
    while groupIndex * 2 < maxCol
      invariant groupIndex <= PairCount(maxCol)
      invariant groupIndex > 0 ==> |rows| > 0
      invariant out == if |rows| == 0 then [] else Scanned(sheetName, rows, groupIndex, 1)
      invariant sheetHasData <==> |out| > 0
      decreases maxCol - groupIndex * 2
    {
      var colIndex := groupIndex * 2;
      var rowIndex := 1;
      while rowIndex < |rows|
        invariant 1 <= rowIndex <= |rows|
        invariant out == Scanned(sheetName, rows, groupIndex, rowIndex)
        invariant sheetHasData <==> |out| > 0
      {
        var subItem := CellAt(rows[rowIndex], colIndex);
        var dataValue := DataValue(CellAt(rows[rowIndex], colIndex + 1));
        if !Truthy(subItem) && !Truthy(dataValue) {
          // both values falsy: the pair is skipped
        } else if subItem != Absent && subItem != Null {
          out := out + [ProcessedRow(subItem, dataValue, sheetName)];
          sheetHasData := true;
        }
        rowIndex := rowIndex + 1;
      }
      groupIndex := groupIndex + 1;
    }
    assert groupIndex == PairCount(maxCol);
    if sheetHasData {
      out := out + [Separator];
    }
  }
}
