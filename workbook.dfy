/**
 * Decoded workbook data as the spreadsheet codec hands it to the viewer:
 * cell values with JavaScript truthiness, ragged grids, named sheets.
 */
module Workbook {

  /** A raw cell value as produced by row-array decoding of a sheet. */
  datatype Cell = Absent | Null | Bool(b: bool) | Num(n: int) | Str(s: string)

  /** JavaScript truthiness of a cell value: undefined, null, false, 0 and "" are falsy. */
  predicate Truthy(c: Cell)
  {
    match c
    case Absent => false
    case Null => false
    case Bool(b) => b
    case Num(n) => n != 0
    case Str(s) => s != ""
  }

  /** Exactly five values are falsy. */
  lemma FalsyValues(c: Cell)
    ensures !Truthy(c) <==> c in {Absent, Null, Bool(false), Num(0), Str("")}
  {
  }

  /** Rows of cells; rows may have different lengths, and row 0 is the header. */
  type Grid = seq<seq<Cell>>

  /** One sheet of a workbook, under the name the decoder reported for it. */
  datatype Sheet = Sheet(name: string, grid: Grid)

  /** `row[col]` in JavaScript: a missing index reads as undefined. */
  function CellAt(row: seq<Cell>, col: nat): Cell
  {
    if col < |row| then row[col] else Absent
  }

  /** The longest row length of a grid; 0 for a grid without rows. */
  function MaxCol(grid: Grid): (m: nat)
    ensures forall i :: 0 <= i < |grid| ==> |grid[i]| <= m
    ensures |grid| == 0 ==> m == 0
    ensures |grid| > 0 ==> exists i :: 0 <= i < |grid| && |grid[i]| == m
  {
    if |grid| == 0 then 0
    else
      var rest := MaxCol(grid[..|grid| - 1]);
      var last := |grid[|grid| - 1]|;
      if last < rest then rest else last
  }
}
