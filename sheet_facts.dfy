/**
 * What the per-sheet scan produces, stated without its loops: the filter
 * as one condition, the positions that emit in their exact order, the shape
 * of every emitted row, the separator, the size bound and the independence
 * of the output from the header row.
 */
module SheetFacts {
  import opened Workbook
  import opened SheetScan

  /** `cell || ''` keeps truthy values, replaces falsy ones by "", and is never undefined or null. */
  lemma DataValueFacts(c: Cell)
    ensures DataValue(c) != Absent && DataValue(c) != Null
    ensures Truthy(DataValue(c)) == Truthy(c)
    ensures Truthy(c) ==> DataValue(c) == c
    ensures !Truthy(c) ==> DataValue(c) == Str("")
  {
  }

  /**
   * The two-stage filter as one condition: a pair is emitted exactly when one
   * of its two cells is truthy and the sub-item is defined. In particular a
   * pair of falsy cells never is, an undefined or null sub-item never is, and
   * a defined falsy sub-item ("" or 0) with truthy data is.
   */
  lemma EmitsIff(row: seq<Cell>, col: nat)
    ensures Emits(row, col) <==> (Truthy(CellAt(row, col)) || Truthy(CellAt(row, col + 1)))
                                 && CellAt(row, col) != Absent && CellAt(row, col) != Null
  {
  }

  /** A pair past the end of a row reads two undefined cells and is never emitted. */
  lemma EmitsWithinRow(row: seq<Cell>, col: nat)
    requires Emits(row, col)
    ensures col < |row|
  {
  }

  /** The outer loop visits pair k exactly when 2k < maxCol. */
  lemma PairCountIff(maxCol: nat, k: nat)
    ensures k < PairCount(maxCol) <==> 2 * k < maxCol
  {
  }

  /** A scanned position: column pair `pair` (columns 2*pair and 2*pair+1) of row `row`. */
  datatype Pos = Pos(pair: nat, row: nat)

  /** Position p is a data row of the grid whose pair passes the filter. */
  predicate EmitsAt(grid: Grid, p: Pos)
  {
    1 <= p.row < |grid| && Emits(grid[p.row], 2 * p.pair)
  }

  /** The order in which the loops visit positions: pair first, then row. */
  predicate Before(a: Pos, b: Pos)
  {
    a.pair < b.pair || (a.pair == b.pair && a.row < b.row)
  }

  /** The positions whose rows `Scanned(sheetName, grid, k, i)` holds, in the same order. */
  function ScannedPositions(grid: Grid, k: nat, i: nat): seq<Pos>
    requires i <= |grid|
    decreases k, i
  {
    if i <= 1 then (if k == 0 then [] else ScannedPositions(grid, k - 1, |grid|))
    else if Emits(grid[i - 1], 2 * k) then ScannedPositions(grid, k, i - 1) + [Pos(k, i - 1)]
    else ScannedPositions(grid, k, i - 1)
  }

  /** Every position of a sheet that produces a processed row, in output order. */
  function EmittingPositions(grid: Grid): seq<Pos>
  {
    if |grid| == 0 then [] else ScannedPositions(grid, PairCount(MaxCol(grid)), 1)
  }

  /** Row r of a grid, or an empty row past its end. */
  function GridRow(grid: Grid, r: nat): seq<Cell>
  {
    if r < |grid| then grid[r] else []
  }

  /** The positions scanned so far are the emitting ones among pairs 0 .. k-1 and rows 1 .. i-1 of pair k. */
  lemma {:induction false} ScannedPositionsIff(grid: Grid, k: nat, i: nat)
    requires i <= |grid|
    ensures forall p :: p in ScannedPositions(grid, k, i) <==>
                          EmitsAt(grid, p) && (p.pair < k || (p.pair == k && p.row < i))
    decreases k, i
  {
    if i <= 1 {
      if k > 0 {
        ScannedPositionsIff(grid, k - 1, |grid|);
      }
    } else {
      ScannedPositionsIff(grid, k, i - 1);
    }
  }

  /** The positions scanned so far are strictly increasing in visiting order. */
  lemma {:induction false} ScannedPositionsSorted(grid: Grid, k: nat, i: nat)
    requires i <= |grid|
    ensures forall a, b :: 0 <= a < b < |ScannedPositions(grid, k, i)| ==>
                             Before(ScannedPositions(grid, k, i)[a], ScannedPositions(grid, k, i)[b])
    decreases k, i
  {
    if i <= 1 {
      if k > 0 {
        ScannedPositionsSorted(grid, k - 1, |grid|);
      }
    } else {
      var prev := ScannedPositions(grid, k, i - 1);
      ScannedPositionsSorted(grid, k, i - 1);
      if Emits(grid[i - 1], 2 * k) {
        ScannedPositionsIff(grid, k, i - 1);
        var ps := prev + [Pos(k, i - 1)];
        forall a, b | 0 <= a < b < |ps|
          ensures Before(ps[a], ps[b])
        {
          if b == |prev| {
            assert prev[a] in prev;
          } else {
            assert Before(prev[a], prev[b]);
          }
        }
      }
    }
  }

  /** The row read off the grid at a position. */
  function RowAt(sheetName: string, grid: Grid, p: Pos): ProcessedRow
  {
    Extracted(sheetName, GridRow(grid, p.row), 2 * p.pair)
  }

  /** As many rows are scanned as positions emit. */
  lemma {:induction false} ScannedLength(sheetName: string, grid: Grid, k: nat, i: nat)
    requires i <= |grid|
    ensures |Scanned(sheetName, grid, k, i)| == |ScannedPositions(grid, k, i)|
    decreases k, i
  {
    if i <= 1 {
      if k > 0 {
        ScannedLength(sheetName, grid, k - 1, |grid|);
      }
    } else {
      ScannedLength(sheetName, grid, k, i - 1);
    }
  }

  /** The rows scanned so far are the rows read at the positions scanned so far, one for one. */
  lemma {:induction false} ScannedRowsAt(sheetName: string, grid: Grid, k: nat, i: nat)
    requires i <= |grid|
    ensures |Scanned(sheetName, grid, k, i)| == |ScannedPositions(grid, k, i)|
    ensures forall j :: 0 <= j < |ScannedPositions(grid, k, i)| ==>
              Scanned(sheetName, grid, k, i)[j] == RowAt(sheetName, grid, ScannedPositions(grid, k, i)[j])
    decreases k, i
  {
    ScannedLength(sheetName, grid, k, i);
    if i <= 1 {
      if k > 0 {
        ScannedRowsAt(sheetName, grid, k - 1, |grid|);
      }
    } else {
      ScannedRowsAt(sheetName, grid, k, i - 1);
      var rows := Scanned(sheetName, grid, k, i - 1);
      var ps := ScannedPositions(grid, k, i - 1);
      var p := Pos(k, i - 1);
      if Emits(grid[i - 1], 2 * k) {
        assert Scanned(sheetName, grid, k, i) == rows + [RowAt(sheetName, grid, p)];
        assert ScannedPositions(grid, k, i) == ps + [p];
        forall j | 0 <= j < |ps| + 1
          ensures (rows + [RowAt(sheetName, grid, p)])[j] == RowAt(sheetName, grid, (ps + [p])[j])
        {
          if j < |ps| {
            assert (ps + [p])[j] == ps[j];
            assert (rows + [RowAt(sheetName, grid, p)])[j] == rows[j];
          }
        }
      }
    }
  }

  /**
   * Which positions of a sheet emit: exactly the data rows (never row 0)
   * whose pair passes the filter, and each such pair lies below maxCol.
   */
  lemma EmittingPositionsIff(grid: Grid, p: Pos)
    ensures p in EmittingPositions(grid) <==> EmitsAt(grid, p)
    ensures p in EmittingPositions(grid) ==> p.row >= 1 && 2 * p.pair < MaxCol(grid)
  {
    if |grid| > 0 {
      ScannedPositionsIff(grid, PairCount(MaxCol(grid)), 1);
      if EmitsAt(grid, p) {
        EmitsWithinRow(grid[p.row], 2 * p.pair);
        PairCountIff(MaxCol(grid), p.pair);
      }
    }
  }

  /** A sheet's output is ordered by column pair first and row index second, each position once. */
  lemma EmittingPositionsSorted(grid: Grid)
    ensures forall a, b :: 0 <= a < b < |EmittingPositions(grid)| ==>
                             Before(EmittingPositions(grid)[a], EmittingPositions(grid)[b])
  {
    if |grid| > 0 {
      ScannedPositionsSorted(grid, PairCount(MaxCol(grid)), 1);
    }
  }

  /** A sheet's data rows are the rows read off its emitting positions, one for one and in order. */
  lemma SheetBodyRowsAt(sheetName: string, grid: Grid)
    ensures |SheetBody(sheetName, grid)| == |EmittingPositions(grid)|
    ensures forall j :: 0 <= j < |EmittingPositions(grid)| ==>
              SheetBody(sheetName, grid)[j] == RowAt(sheetName, grid, EmittingPositions(grid)[j])
  {
    if |grid| > 0 {
      ScannedRowsAt(sheetName, grid, PairCount(MaxCol(grid)), 1);
    }
  }

  /**
   * The shape of an emitted row: it carries the sheet name, a defined
   * sub-item, a data value that is never undefined or null, and at least one
   * truthy value; so it is never the separator.
   */
  predicate DataRow(sheetName: string, r: ProcessedRow)
  {
    r.sheet == sheetName
    && r.subItem != Absent && r.subItem != Null
    && r.data != Absent && r.data != Null
    && (Truthy(r.subItem) || Truthy(r.data))
  }

  /** Every row scanned so far has the shape of an emitted row. */
  lemma {:induction false} ScannedDataRows(sheetName: string, grid: Grid, k: nat, i: nat)
    requires i <= |grid|
    ensures forall r :: r in Scanned(sheetName, grid, k, i) ==> DataRow(sheetName, r)
    decreases k, i
  {
    if i <= 1 {
      if k > 0 {
        ScannedDataRows(sheetName, grid, k - 1, |grid|);
      }
    } else {
      ScannedDataRows(sheetName, grid, k, i - 1);
      if Emits(grid[i - 1], 2 * k) {
        EmitsIff(grid[i - 1], 2 * k);
        DataValueFacts(CellAt(grid[i - 1], 2 * k + 1));
      }
    }
  }

  /** Every data row of a sheet carries that sheet's name and passes the filter; none is the separator. */
  lemma SheetBodyDataRows(sheetName: string, grid: Grid)
    ensures forall r :: r in SheetBody(sheetName, grid) ==> DataRow(sheetName, r)
    ensures Separator !in SheetBody(sheetName, grid)
  {
    if |grid| > 0 {
      ScannedDataRows(sheetName, grid, PairCount(MaxCol(grid)), 1);
    }
  }

  /**
   * A sheet contributes nothing exactly when it emits no data row, and
   * otherwise its data rows followed by exactly one separator, at the end.
   */
  lemma SheetOutputSeparator(sheetName: string, grid: Grid)
    ensures SheetOutput(sheetName, grid) == [] <==> SheetBody(sheetName, grid) == []
    ensures SheetOutput(sheetName, grid) != [] ==>
              SheetOutput(sheetName, grid)[|SheetOutput(sheetName, grid)| - 1] == Separator
    ensures multiset(SheetOutput(sheetName, grid))[Separator] == if SheetBody(sheetName, grid) == [] then 0 else 1
  {
    SheetBodyDataRows(sheetName, grid);
    var body := SheetBody(sheetName, grid);
    assert multiset(body)[Separator] == 0;
    if body != [] {
      assert multiset(body + [Separator]) == multiset(body) + multiset{Separator};
    }
  }

  /** With only a header row, no data row is ever visited, for any number of pairs. */
  lemma {:induction false} ScannedHeaderOnly(sheetName: string, grid: Grid, k: nat)
    requires |grid| == 1
    ensures Scanned(sheetName, grid, k, 1) == []
  {
    if k > 0 {
      ScannedHeaderOnly(sheetName, grid, k - 1);
    }
  }

  /** A grid with no data rows or no columns yields no row and no separator. */
  lemma DegenerateSheet(sheetName: string, grid: Grid)
    requires |grid| <= 1 || MaxCol(grid) == 0
    ensures SheetBody(sheetName, grid) == []
    ensures SheetOutput(sheetName, grid) == []
  {
    if |grid| == 1 {
      ScannedHeaderOnly(sheetName, grid, PairCount(MaxCol(grid)));
    }
  }

  /** At most one row per data row and visited pair has been scanned. */
  lemma {:induction false} ScannedBound(sheetName: string, grid: Grid, k: nat, i: nat)
    requires 1 <= i <= |grid|
    ensures |Scanned(sheetName, grid, k, i)| <= k * (|grid| - 1) + (i - 1)
    decreases k, i
  {
    if i == 1 {
      if k > 0 {
        ScannedBound(sheetName, grid, k - 1, |grid|);
        assert (k - 1) * (|grid| - 1) + (|grid| - 1) == k * (|grid| - 1);
      }
    } else {
      ScannedBound(sheetName, grid, k, i - 1);
    }
  }

  /** A sheet emits at most (rows - 1) * ceil(maxCol / 2) data rows. */
  lemma SheetBodyBound(sheetName: string, grid: Grid)
    requires |grid| > 0
    ensures |SheetBody(sheetName, grid)| <= (|grid| - 1) * PairCount(MaxCol(grid))
  {
    var k := PairCount(MaxCol(grid));
    ScannedBound(sheetName, grid, k, 1);
    assert k * (|grid| - 1) == (|grid| - 1) * k;
  }

  /** Only rows 1 .. are read: two grids with the same data rows scan alike. */
  lemma {:induction false} ScannedSameData(sheetName: string, g1: Grid, g2: Grid, k: nat, i: nat)
    requires 0 < |g1| == |g2| && g1[1..] == g2[1..]
    requires i <= |g1|
    ensures Scanned(sheetName, g1, k, i) == Scanned(sheetName, g2, k, i)
    decreases k, i
  {
    if i <= 1 {
      if k > 0 {
        ScannedSameData(sheetName, g1, g2, k - 1, |g1|);
      }
    } else {
      ScannedSameData(sheetName, g1, g2, k, i - 1);
      assert g1[i - 1] == g1[1..][i - 2] == g2[i - 1];
    }
  }

  /** Every data row of the grid is at most `width` cells long. */
  predicate DataRowsWithin(grid: Grid, width: nat)
  {
    forall r :: 1 <= r < |grid| ==> |grid[r]| <= width
  }

  /** Within one pair past the end of every data row, the row loop pushes nothing. */
  lemma {:induction false} ScannedEmptyPair(sheetName: string, grid: Grid, k: nat, i: nat)
    requires 1 <= i <= |grid| && DataRowsWithin(grid, 2 * k)
    ensures Scanned(sheetName, grid, k, i) == Scanned(sheetName, grid, k, 1)
  {
    if i > 1 {
      ScannedEmptyPair(sheetName, grid, k, i - 1);
      if Emits(grid[i - 1], 2 * k) {
        EmitsWithinRow(grid[i - 1], 2 * k);
        assert false;
      }
    }
  }

  /** Pairs past the end of every data row add nothing. */
  lemma {:induction false} ScannedPastData(sheetName: string, grid: Grid, k: nat, m: nat)
    requires |grid| > 0 && k <= m && DataRowsWithin(grid, 2 * k)
    ensures Scanned(sheetName, grid, m, 1) == Scanned(sheetName, grid, k, 1)
    decreases m
  {
    if k < m {
      ScannedPastData(sheetName, grid, k, m - 1);
      assert DataRowsWithin(grid, 2 * (m - 1));
      ScannedEmptyPair(sheetName, grid, m - 1, |grid|);
    }
  }

  /** The data rows of a grid are within the longest data row, and within the longest row. */
  lemma DataWidth(grid: Grid)
    requires |grid| > 0
    ensures DataRowsWithin(grid, MaxCol(grid[1..]))
    ensures MaxCol(grid[1..]) <= MaxCol(grid)
  {
    var data := grid[1..];
    forall r | 1 <= r < |grid|
      ensures |grid[r]| <= MaxCol(data)
    {
      assert grid[r] == data[r - 1];
    }
    if |data| > 0 {
      var i :| 0 <= i < |data| && |data[i]| == MaxCol(data);
      assert data[i] == grid[i + 1];
    }
  }

  /**
   * The header row never reaches the output: two grids that differ only in
   * row 0 (which may widen maxCol) yield the same rows for a sheet.
   */
  lemma HeaderIndependence(sheetName: string, g1: Grid, g2: Grid)
    requires |g1| > 0 && |g2| > 0 && g1[1..] == g2[1..]
    ensures SheetBody(sheetName, g1) == SheetBody(sheetName, g2)
    ensures SheetOutput(sheetName, g1) == SheetOutput(sheetName, g2)
  {
    assert |g1| == |g1[1..]| + 1 == |g2|;
    var pd := PairCount(MaxCol(g1[1..]));
    DataWidth(g1);
    DataWidth(g2);
    assert DataRowsWithin(g1, 2 * pd) && DataRowsWithin(g2, 2 * pd);
    ScannedPastData(sheetName, g1, pd, PairCount(MaxCol(g1)));
    ScannedPastData(sheetName, g2, pd, PairCount(MaxCol(g2)));
    ScannedSameData(sheetName, g1, g2, pd, 1);
  }

  /** The sheet of the one-sheet scenario: header ["A","B"], data rows ["1","x"], ["","y"], ["2",""]. */
  const ScenarioGrid: Grid := [[Str("A"), Str("B")], [Str("1"), Str("x")], [Str(""), Str("y")], [Str("2"), Str("")]]

  /** The scenario sheet is two columns wide. */
  lemma ScenarioWidth()
    ensures MaxCol(ScenarioGrid) == 2
  {
    var g := ScenarioGrid;
    assert g[..1] == [[Str("A"), Str("B")]];
    assert MaxCol(g[..1]) == 2;
    assert g[..2][..1] == g[..1];
    assert MaxCol(g[..2]) == 2;
    assert g[..3][..2] == g[..2];
    assert MaxCol(g[..3]) == 2;
    assert g[..3] == g[..|g| - 1];
  }

  /** The row loop over the only pair of the scenario sheet, one row at a time. */
  lemma ScenarioRows()
    ensures Scanned("S1", ScenarioGrid, 0, 4)
            == [ProcessedRow(Str("1"), Str("x"), "S1"), ProcessedRow(Str(""), Str("y"), "S1"),
                ProcessedRow(Str("2"), Str(""), "S1")]
  {
    var g := ScenarioGrid;
    assert Emits(g[1], 0) && Extracted("S1", g[1], 0) == ProcessedRow(Str("1"), Str("x"), "S1");
    assert Scanned("S1", g, 0, 2) == [ProcessedRow(Str("1"), Str("x"), "S1")];
    assert Emits(g[2], 0) && Extracted("S1", g[2], 0) == ProcessedRow(Str(""), Str("y"), "S1");
    assert Scanned("S1", g, 0, 3) == Scanned("S1", g, 0, 2) + [ProcessedRow(Str(""), Str("y"), "S1")];
    assert Emits(g[3], 0) && Extracted("S1", g[3], 0) == ProcessedRow(Str("2"), Str(""), "S1");
  }

  /**
   * The one-sheet scenario: the empty sub-item with data "y" is emitted, "2"
   * keeps its empty data, and one separator closes the sheet.
   */
  lemma ScenarioOneSheet()
    ensures SheetOutput("S1", ScenarioGrid)
            == [ProcessedRow(Str("1"), Str("x"), "S1"), ProcessedRow(Str(""), Str("y"), "S1"),
                ProcessedRow(Str("2"), Str(""), "S1"), Separator]
  {
    ScenarioWidth();
    ScenarioRows();
    assert Scanned("S1", ScenarioGrid, 1, 1) == Scanned("S1", ScenarioGrid, 0, 4);
  }
}
