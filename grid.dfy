/** Grid geometry and occupancy: pixel/cell conversion, viewport-driven grid
    size, the occupancy query and the placement row for a new chord
    (src/composables/useGridCalculations.ts). */
module GridCalculations {
  import opened ChordBoard

  /** The client size of the grid element. */
  datatype ClientSize = ClientSize(width: nat, height: nat)

  function Min(a: int, b: int): int { if a <= b then a else b }
  function Max(a: int, b: int): int { if a >= b then a else b }

  /** `Math.ceil(n / d)` for a non-negative n and a positive d. */
  function CeilDiv(n: nat, d: int): (q: nat)
    requires d > 0
    ensures q * d >= n
    ensures q == 0 || (q - 1) * d < n
  {
    var m := -(n as int);
    var f := m / d;
    assert f * d <= m < f * d + d;
    assert (-f) * d == -(f * d);
    -f
  }

  /** calculateGridPosition: the cell under a pixel, clamped into the grid
      of the last computed size. */
  function CalculateGridPosition(x: int, y: int, gridColumns: int, gridRows: int): (c: Cell)
    ensures c.row >= 0 && c.col >= 0
    ensures gridColumns >= 1 ==> c.col <= gridColumns - 1
    ensures gridRows >= 1 ==> c.row <= gridRows - 1
    ensures gridColumns <= 1 ==> c.col == 0
    ensures gridRows <= 1 ==> c.row == 0
    ensures 0 <= x / CellWidth < gridColumns ==> c.col == x / CellWidth
    ensures 0 <= y / CellHeight < gridRows ==> c.row == y / CellHeight
    ensures x / CellWidth < 0 ==> c.col == 0
    ensures y / CellHeight < 0 ==> c.row == 0
    ensures gridColumns >= 1 && x / CellWidth >= gridColumns ==> c.col == gridColumns - 1
    ensures gridRows >= 1 && y / CellHeight >= gridRows ==> c.row == gridRows - 1
  {
    var col := Max(0, Min(x / CellWidth, gridColumns - 1));
    var row := Max(0, Min(y / CellHeight, gridRows - 1));
    Cell(row, col)
  }

  /** gridToPixelPosition: the top-left corner of a cell, that is the pixel
      of the cell whose offsets inside it are both zero. */
  function GridToPixelPosition(row: int, col: int): (p: Pixel)
    ensures p.x / CellWidth == col && p.x % CellWidth == 0
    ensures p.y / CellHeight == row && p.y % CellHeight == 0
  {
    var p := Pixel(col * CellWidth, row * CellHeight);
    assert p.x == col * CellWidth + 0 && p.y == row * CellHeight + 0;
    p
  }

  /** Converting a cell inside the grid to pixels and back gives the cell. */
  lemma GridRoundTrip(row: int, col: int, gridColumns: int, gridRows: int)
    requires 0 <= row < gridRows && 0 <= col < gridColumns
    ensures var p := GridToPixelPosition(row, col);
            CalculateGridPosition(p.x, p.y, gridColumns, gridRows) == Cell(row, col)
  {
  }

  /** A pixel inside the grid lies in the rectangle of the cell it is
      converted to. */
  lemma PixelFallsInItsCell(x: int, y: int, gridColumns: int, gridRows: int)
    requires 0 <= x < gridColumns * CellWidth && 0 <= y < gridRows * CellHeight
    ensures var c := CalculateGridPosition(x, y, gridColumns, gridRows);
            var p := GridToPixelPosition(c.row, c.col);
            p.x <= x < p.x + CellWidth && p.y <= y < p.y + CellHeight
  {
    assert x / CellWidth < gridColumns;
    assert y / CellHeight < gridRows;
  }

  /** The two nested `some` scans of isPositionOccupied: some chord of some
      column sits at (row, col) and does not have the excluded id. */
  predicate SomeChordAt(cols: seq<Column>, row: int, col: int, exclude: Option<string>) {
    exists i, k :: 0 <= i < |cols| && 0 <= k < |cols[i].chords|
      && cols[i].chords[k].gridPosition == Cell(row, col) && exclude != Some(cols[i].chords[k].id)
  }

  /** isPositionOccupied: a cell is occupied when a chord on the board sits
      there, not counting a chord with the excluded id. */
  function IsPositionOccupied(cols: seq<Column>, row: int, col: int, exclude: Option<string>): (b: bool)
    ensures b <==> exists c :: c in BoardBag(cols) && c.gridPosition == Cell(row, col) && exclude != Some(c.id)
  {
    OccupiedIffBoardChordAt(cols, row, col, exclude);
    SomeChordAt(cols, row, col, exclude)
  }

  /** The scans over columns and their chords find exactly the chords on
      the board. */
  lemma OccupiedIffBoardChordAt(cols: seq<Column>, row: int, col: int, exclude: Option<string>)
    ensures SomeChordAt(cols, row, col, exclude)
            <==> exists c :: c in BoardBag(cols) && c.gridPosition == Cell(row, col) && exclude != Some(c.id)
  {
    if SomeChordAt(cols, row, col, exclude) {
      var i, k :| 0 <= i < |cols| && 0 <= k < |cols[i].chords|
        && cols[i].chords[k].gridPosition == Cell(row, col) && exclude != Some(cols[i].chords[k].id);
      InBoardBag(cols, cols[i].chords[k]);
    }
    if exists c :: c in BoardBag(cols) && c.gridPosition == Cell(row, col) && exclude != Some(c.id) {
      var c :| c in BoardBag(cols) && c.gridPosition == Cell(row, col) && exclude != Some(c.id);
      InBoardBag(cols, c);
    }
  }

  /** Supplying an excluded id can only turn "occupied" into "free". */
  lemma ExclusionOnlyFrees(cols: seq<Column>, row: int, col: int, id: string)
    ensures IsPositionOccupied(cols, row, col, Some(id)) ==> IsPositionOccupied(cols, row, col, None)
    ensures !IsPositionOccupied(cols, row, col, None) ==> !IsPositionOccupied(cols, row, col, Some(id))
  {
  }

  /** When every chord sits in the column its coordinate names, a cell of
      column `col` can only be occupied by a chord of that column. */
  lemma OccupantIsInOwnColumn(cols: seq<Column>, row: int, col: nat, exclude: Option<string>)
    requires ChordsInOwnColumn(cols) && col < |cols|
    ensures IsPositionOccupied(cols, row, col, exclude)
            <==> exists k :: 0 <= k < |cols[col].chords| && cols[col].chords[k].gridPosition == Cell(row, col)
                               && exclude != Some(cols[col].chords[k].id)
  {
  }

  /** The largest row among a non-empty list of chords. */
  function MaxRow(chords: seq<Chord>): (m: int)
    requires |chords| > 0
    ensures forall k :: 0 <= k < |chords| ==> chords[k].gridPosition.row <= m
    ensures exists k :: 0 <= k < |chords| && chords[k].gridPosition.row == m
  {
    if |chords| == 1 then chords[0].gridPosition.row
    else
      var m := MaxRow(chords[1..]);
      assert forall k :: 1 <= k < |chords| ==> chords[k] == chords[1..][k - 1];
      if chords[0].gridPosition.row >= m then chords[0].gridPosition.row else m
  }

  /** The occupancy matrix that findEmptyGridPosition fills (and never reads)
      has gridRows rows; writing a chord with a negative row into it reads
      `occupiedPositions[row]` as undefined and throws. A negative row is
      always below gridRows, so the write happens whenever the column is
      below gridColumns. */
  predicate MarkingThrows(cols: seq<Column>, gridColumns: nat) {
    exists i, k :: 0 <= i < |cols| && 0 <= k < |cols[i].chords|
      && cols[i].chords[k].gridPosition.row < 0 && cols[i].chords[k].gridPosition.col < gridColumns
  }

  /** The column findEmptyGridPosition consults: `columns[i] || columns[0]`. */
  function ConsultedColumn(cols: seq<Column>, columnIndex: int): Column
    requires |cols| > 0
  {
    if 0 <= columnIndex < |cols| then cols[columnIndex] else cols[0]
  }

  /** findEmptyGridPosition: row 0 of an empty column, otherwise the row
      below the lowest chord of the consulted column; the column coordinate is
      always the argument. None stands for the TypeError thrown on an empty
      board or by the marking pass. */
  function FindEmptyGridPosition(cols: seq<Column>, columnIndex: int, gridColumns: nat): (r: Option<Cell>)
    ensures r.None? <==> |cols| == 0 || MarkingThrows(cols, gridColumns)
    ensures r.Some? ==> r.value.col == columnIndex
    ensures r.Some? && ConsultedColumn(cols, columnIndex).chords == [] ==> r.value.row == 0
    ensures r.Some? ==> forall k :: 0 <= k < |ConsultedColumn(cols, columnIndex).chords|
                          ==> ConsultedColumn(cols, columnIndex).chords[k].gridPosition.row < r.value.row
    ensures r.Some? && ConsultedColumn(cols, columnIndex).chords != [] ==>
              exists k :: 0 <= k < |ConsultedColumn(cols, columnIndex).chords|
                && r.value.row == ConsultedColumn(cols, columnIndex).chords[k].gridPosition.row + 1
  {
    if |cols| == 0 || MarkingThrows(cols, gridColumns) then None
    else
      var column := ConsultedColumn(cols, columnIndex);
      if |column.chords| == 0 then Some(Cell(0, columnIndex))
      else Some(Cell(MaxRow(column.chords) + 1, columnIndex))
  }

  /** When chords sit in their own columns, the cell chosen for an existing
      column is free on the whole board. */
  lemma EmptyGridPositionIsFree(cols: seq<Column>, columnIndex: nat, gridColumns: nat)
    requires ChordsInOwnColumn(cols) && columnIndex < |cols|
    requires FindEmptyGridPosition(cols, columnIndex, gridColumns).Some?
    ensures var c := FindEmptyGridPosition(cols, columnIndex, gridColumns).value;
            !IsPositionOccupied(cols, c.row, c.col, None)
  {
    var c := FindEmptyGridPosition(cols, columnIndex, gridColumns).value;
    OccupantIsInOwnColumn(cols, c.row, columnIndex, None);
  }

  /** The grid size, recomputed from the grid element's client size. */
  class GridDimensions {
    var gridColumns: nat
    var gridRows: nat

    constructor ()
      ensures gridColumns == 0 && gridRows == 0
    {
      gridColumns := 0;
      gridRows := 0;
    }

    /** updateGridDimensions: nothing happens without a grid element. */
    method UpdateGridDimensions(element: Option<ClientSize>)
      modifies this
      ensures element.None? ==> gridColumns == old(gridColumns) && gridRows == old(gridRows)
      ensures element.Some? ==> gridColumns == CeilDiv(element.value.width, CellWidth)
                                 && gridRows == CeilDiv(element.value.height, CellHeight)
    {
      if element.None? {
        return;
      }
      gridColumns := CeilDiv(element.value.width, CellWidth);
      gridRows := CeilDiv(element.value.height, CellHeight);
    }
  }

  /** Once the grid size is computed from the viewport, a pixel inside the
      viewport is converted without clamping. */
  lemma ViewportPixelsAreNotClamped(x: int, y: int, size: ClientSize)
    requires 0 <= x < size.width && 0 <= y < size.height
    ensures CalculateGridPosition(x, y, CeilDiv(size.width, CellWidth), CeilDiv(size.height, CellHeight))
            == Cell(y / CellHeight, x / CellWidth)
  {
    var gc := CeilDiv(size.width, CellWidth);
    var gr := CeilDiv(size.height, CellHeight);
    assert x < gc * CellWidth;
    assert y < gr * CellHeight;
  }

  /** totalColumnsWidth: the width that spans every column, up to the right
      edge of the last one (the "px" suffix is not modelled). */
  function TotalColumnsWidth(cols: seq<Column>): (w: nat)
    ensures forall i :: 0 <= i < |cols| ==> GridToPixelPosition(0, i).x + CellWidth <= w
    ensures |cols| > 0 ==> w == GridToPixelPosition(0, |cols| - 1).x + CellWidth
    ensures |cols| == 0 ==> w == 0
  {
    |cols| * CellWidth
  }
}
