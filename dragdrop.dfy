/** Drop resolution: what a chord dropped on a column and a column dropped
    on the grid do to the board (the onDrop callbacks of
    src/composables/useDragAndDrop.ts, with the DOM reads given as
    arguments). */
module DragAndDrop {
  import opened ChordBoard
  import opened GridCalculations
  import opened ChordManagement
  import opened ColumnManagement

  // ---------------------------------------------------------------------
  // Chord drop

  /** What a chord drop does. The target column is always the column the
      drop lands on. */
  datatype ChordDrop =
    | Ignored
    | MoveTo(sourceColumn: nat, sourceIndex: nat, cell: Cell)
    | SwapWith(sourceColumn: nat, sourceIndex: nat, targetId: string, targetIndex: nat)

  /** isPositionOccupied(row, col, chordId): the cell (row, col) is held by a
      chord other than the dragged one (the scan IsPositionOccupied is
      defined by). */
  predicate RowTaken(cols: seq<Column>, row: int, col: int, id: string) {
    SomeChordAt(cols, row, col, Some(id))
  }

  /** A chord of the list at (row, col) with another id: the occupant the drop
      handler can swap with. */
  predicate IsOccupant(c: Chord, row: int, col: int, id: string) {
    c.gridPosition.row == row && c.gridPosition.col == col && c.id != id
  }

  /** The index of the first occupant in the list, or -1. */
  function FirstOccupantIndex(chords: seq<Chord>, row: int, col: int, id: string): (k: int)
    ensures -1 <= k < |chords|
    ensures k >= 0 ==> IsOccupant(chords[k], row, col, id)
    ensures forall j :: 0 <= j < |chords| && (k == -1 || j < k) ==> !IsOccupant(chords[j], row, col, id)
  {
    if |chords| == 0 then -1
    else if IsOccupant(chords[0], row, col, id) then 0
    else
      var k := FirstOccupantIndex(chords[1..], row, col, id);
      if k == -1 then -1 else k + 1
  }

  /** Neither candidate row at this offset can take the chord: the row below
      is taken, and the row above is negative or taken. */
  predicate OffsetBlocked(cols: seq<Column>, row: int, col: int, id: string, offset: int) {
    RowTaken(cols, row + offset, col, id) && (row - offset < 0 || RowTaken(cols, row - offset, col, id))
  }

  /** The nearest-free-row search from `offset` on: the first offset below
      100 with a free candidate wins, the row below before the row above; the
      original row when every offset is blocked. */
  function FreeRowFrom(cols: seq<Column>, row: int, col: int, id: string, offset: nat): (r: int)
    requires 1 <= offset <= 100
    decreases 100 - offset
    ensures r == row <==> forall o :: offset <= o < 100 ==> OffsetBlocked(cols, row, col, id, o)
    ensures r != row ==> !RowTaken(cols, r, col, id)
    ensures r > row ==> offset <= r - row < 100
                        && forall o :: offset <= o < r - row ==> OffsetBlocked(cols, row, col, id, o)
    ensures r < row ==> offset <= row - r < 100 && r >= 0 && RowTaken(cols, row + (row - r), col, id)
                        && forall o :: offset <= o < row - r ==> OffsetBlocked(cols, row, col, id, o)
  {
    if offset == 100 then row
    else if !RowTaken(cols, row + offset, col, id) then
      assert !OffsetBlocked(cols, row, col, id, offset);
      row + offset
    else if row - offset >= 0 && !RowTaken(cols, row - offset, col, id) then
      assert !OffsetBlocked(cols, row, col, id, offset);
      assert row + (row - (row - offset)) == row + offset;
      row - offset
    else FreeRowFrom(cols, row, col, id, offset + 1)
  }

  /** The free-row loop of the drop handler. */
  method FindFreeRow(cols: seq<Column>, row: int, col: int, id: string) returns (freeRow: int)
    ensures freeRow == FreeRowFrom(cols, row, col, id, 1)
  {
    freeRow := row;
    for offset := 1 to 100
      invariant freeRow == row
      invariant FreeRowFrom(cols, row, col, id, 1) == FreeRowFrom(cols, row, col, id, offset)
    {
      if !RowTaken(cols, freeRow + offset, col, id) {
        freeRow := freeRow + offset;
        break;
      }
      if freeRow - offset >= 0 && !RowTaken(cols, freeRow - offset, col, id) {
        freeRow := freeRow - offset;
        break;
      }
    }
  }

  /** The decision of the chord drop handler, for the dragged element's
      `data-chord-id` attribute (None when absent), the index of the column
      dropped on, and the drop height relative to that column. */
  function ChordDropDecision(cols: seq<Column>, chordId: Option<string>, columnIndex: nat, relativeY: int): (r: ChordDrop)
    requires columnIndex < |cols|
    ensures r.Ignored? <==> chordId.None? || chordId.value == "" || FindChord(cols, chordId.value).None?
    ensures !r.Ignored? ==> FindChord(cols, chordId.value) == Some((r.sourceColumn, r.sourceIndex))
    ensures !r.Ignored? ==> r.sourceColumn < |cols| && r.sourceIndex < |cols[r.sourceColumn].chords|
                            && cols[r.sourceColumn].chords[r.sourceIndex].id == chordId.value
    ensures r.MoveTo? ==> r.cell.col == columnIndex
                          && (r.cell.row == relativeY / CellHeight || !RowTaken(cols, r.cell.row, columnIndex, chordId.value))
    ensures r.SwapWith? ==> RowTaken(cols, relativeY / CellHeight, columnIndex, chordId.value)
                            && r.targetIndex < |cols[columnIndex].chords|
                            && IsOccupant(cols[columnIndex].chords[r.targetIndex], relativeY / CellHeight, columnIndex, chordId.value)
                            && r.targetId == cols[columnIndex].chords[r.targetIndex].id
  {
    if chordId.None? || chordId.value == "" then Ignored
    else
      var id := chordId.value;
      match FindChord(cols, id)
      case None => Ignored
      case Some((sc, si)) =>
        var row := relativeY / CellHeight;
        if !RowTaken(cols, row, columnIndex, id) then MoveTo(sc, si, Cell(row, columnIndex))
        else
          var ti := FirstOccupantIndex(cols[columnIndex].chords, row, columnIndex, id);
          if ti != -1 then SwapWith(sc, si, cols[columnIndex].chords[ti].id, ti)
          else MoveTo(sc, si, Cell(FreeRowFrom(cols, row, columnIndex, id, 1), columnIndex))
  }

  /** The three ways a found chord can go: to the drop cell when it is free,
      a swap with the first occupant of the drop column, and otherwise the
      nearest free row. */
  lemma DropChoosesByOccupancy(cols: seq<Column>, id: string, columnIndex: nat, relativeY: int)
    requires columnIndex < |cols| && id != "" && FindChord(cols, id).Some?
    ensures var (sc, si) := FindChord(cols, id).value;
            var row := relativeY / CellHeight;
            var ti := FirstOccupantIndex(cols[columnIndex].chords, row, columnIndex, id);
            var r := ChordDropDecision(cols, Some(id), columnIndex, relativeY);
            && (!RowTaken(cols, row, columnIndex, id) ==> r == MoveTo(sc, si, Cell(row, columnIndex)))
            && (RowTaken(cols, row, columnIndex, id) && ti != -1 ==> r.SwapWith? && r.targetIndex == ti)
            && (RowTaken(cols, row, columnIndex, id) && ti == -1 ==>
                  r == MoveTo(sc, si, Cell(FreeRowFrom(cols, row, columnIndex, id, 1), columnIndex)))
  {
  }

  /** The drop handler's search loops, proved to make the decision above. */
  method DecideChordDrop(cols: seq<Column>, chordId: Option<string>, columnIndex: nat, relativeY: int)
    returns (action: ChordDrop)
    requires columnIndex < |cols|
    ensures action == ChordDropDecision(cols, chordId, columnIndex, relativeY)
  {
    if chordId.None? || chordId.value == "" {
      return Ignored;
    }
    var id := chordId.value;
    var found := false;
    var sourceColumnIndex: nat := 0;
    var sourceChordIndex: nat := 0;
    var i := 0;
    while i < |cols|
      invariant 0 <= i <= |cols|
      invariant FindChord(cols, id) == FindChordFrom(cols, id, i)
    {
      var chordIndex := FirstIndexOf(cols[i].chords, id);
      if chordIndex != -1 {
        found := true;
        sourceColumnIndex := i;
        sourceChordIndex := chordIndex;
        break;
      }
      i := i + 1;
    }
    if !found {
      return Ignored;
    }
    assert FindChord(cols, id) == Some((sourceColumnIndex, sourceChordIndex));

    var row := relativeY / CellHeight;
    var gridPosition := Cell(row, columnIndex);
    if RowTaken(cols, row, columnIndex, id) {
      var chords := cols[columnIndex].chords;
      var targetChordIndex := -1;
      var k := 0;
      while k < |chords|
        invariant 0 <= k <= |chords|
        invariant forall j :: 0 <= j < k ==> !IsOccupant(chords[j], row, columnIndex, id)
      {
        var chord := chords[k];
        if chord.gridPosition.row == row && chord.gridPosition.col == columnIndex && chord.id != id {
          targetChordIndex := k;
          break;
        }
        k := k + 1;
      }
      assert targetChordIndex == FirstOccupantIndex(chords, row, columnIndex, id);
      if targetChordIndex != -1 {
        return SwapWith(sourceColumnIndex, sourceChordIndex, chords[targetChordIndex].id, targetChordIndex);
      }
      var freeRow := FindFreeRow(cols, row, columnIndex, id);
      gridPosition := gridPosition.(row := freeRow);
    }
    return MoveTo(sourceColumnIndex, sourceChordIndex, gridPosition);
  }

  /** The board after a chord drop on column `columnIndex`. */
  function ChordDropped(cols: seq<Column>, chordId: Option<string>, columnIndex: nat, relativeY: int): seq<Column>
    requires columnIndex < |cols|
  {
    match ChordDropDecision(cols, chordId, columnIndex, relativeY)
    case Ignored => cols
    case MoveTo(sc, si, cell) => ChordMoved(cols, sc, si, columnIndex, cell)
    case SwapWith(sc, si, _, ti) => ChordsSwapped(cols, sc, si, columnIndex, ti)
  }

  /** onDrop of a column's chord drop target. */
  method OnChordDrop(board: Board, chordId: Option<string>, columnIndex: nat, relativeY: int)
    requires columnIndex < |board.columns|
    modifies board
    ensures board.columns == ChordDropped(old(board.columns), chordId, columnIndex, relativeY)
    ensures board.saveRequests == old(board.saveRequests)
              + if ChordDropDecision(old(board.columns), chordId, columnIndex, relativeY).Ignored? then 0 else 1
  {
    var action := DecideChordDrop(board.columns, chordId, columnIndex, relativeY);
    match action
    case Ignored =>
    case MoveTo(sc, si, cell) =>
      MoveChord(board, chordId.value, sc, si, columnIndex, cell);
    case SwapWith(sc, si, targetId, ti) =>
      SwapChords(board, chordId.value, sc, si, targetId, columnIndex, ti);
  }

  /** When every chord sits in the column its coordinate names, a taken drop
      cell always has an occupant in the drop column: the free-row fallback
      is never reached. */
  lemma FallbackIsDead(cols: seq<Column>, id: string, columnIndex: nat, row: int)
    requires ChordsInOwnColumn(cols) && columnIndex < |cols|
    ensures RowTaken(cols, row, columnIndex, id) <==> FirstOccupantIndex(cols[columnIndex].chords, row, columnIndex, id) != -1
  {
    OccupantIsInOwnColumn(cols, row, columnIndex, Some(id));
    var chords := cols[columnIndex].chords;
    if RowTaken(cols, row, columnIndex, id) {
      var k :| 0 <= k < |chords| && chords[k].gridPosition == Cell(row, columnIndex) && Some(id) != Some(chords[k].id);
      assert IsOccupant(chords[k], row, columnIndex, id);
    }
  }

  /** After a column move the fallback is reachable: the drop cell of column
      1 is taken by a chord held in column 0, and the drop column has no
      occupant, so the chord goes to the nearest free row. */
  lemma FallbackAfterColumnMove()
    ensures var x := Chord("x", ChordData("C", "major", []), Pixel(220, 0), Cell(0, 1), None);
            var y := Chord("y", ChordData("D", "minor", []), Pixel(0, 1400), Cell(5, 0), None);
            var cols := [Column("a", 0, [x]), Column("b", 1, [y])];
            && !ChordsInOwnColumn(cols)
            && ChordDropDecision(cols, Some("y"), 1, 0) == MoveTo(1, 0, Cell(1, 1))
  {
    var x := Chord("x", ChordData("C", "major", []), Pixel(220, 0), Cell(0, 1), None);
    var y := Chord("y", ChordData("D", "minor", []), Pixel(0, 1400), Cell(5, 0), None);
    var cols := [Column("a", 0, [x]), Column("b", 1, [y])];
    assert cols[0].chords[0] == x;
    assert FindChord(cols, "y") == Some((1, 0)) by {
      assert FirstIndexOf(cols[0].chords, "y") == -1;
      assert FirstIndexOf(cols[1].chords, "y") == 0;
    }
    assert RowTaken(cols, 0, 1, "y");
    assert FirstOccupantIndex(cols[1].chords, 0, 1, "y") == -1;
    assert !RowTaken(cols, 1, 1, "y");
    assert FreeRowFrom(cols, 0, 1, "y", 1) == 1;
  }

  /** A drop of two different chords never targets the slot it takes the
      dragged chord from. */
  lemma SwapSlotsDiffer(cols: seq<Column>, chordId: Option<string>, columnIndex: nat, relativeY: int)
    requires columnIndex < |cols|
    requires ChordDropDecision(cols, chordId, columnIndex, relativeY).SwapWith?
    ensures var r := ChordDropDecision(cols, chordId, columnIndex, relativeY);
            DistinctSlots(cols, r.sourceColumn, r.sourceIndex, columnIndex, r.targetIndex)
  {
  }

  /** A drop never adds or loses a chord. */
  lemma DropKeepsChordCount(cols: seq<Column>, chordId: Option<string>, columnIndex: nat, relativeY: int)
    requires columnIndex < |cols|
    ensures ChordCount(ChordDropped(cols, chordId, columnIndex, relativeY)) == ChordCount(cols)
  {
    match ChordDropDecision(cols, chordId, columnIndex, relativeY)
    case Ignored =>
    case MoveTo(sc, si, cell) =>
      MoveKeepsChords(cols, sc, si, columnIndex, cell);
    case SwapWith(sc, si, _, ti) =>
      SwapSlotsDiffer(cols, chordId, columnIndex, relativeY);
      SwapKeepsCount(cols, sc, si, columnIndex, ti);
  }

  /** A chord drop keeps every chord in its own column and every id and cell
      unique. */
  lemma DropKeepsPlacement(cols: seq<Column>, chordId: Option<string>, columnIndex: nat, relativeY: int)
    requires columnIndex < |cols| && ChordsInOwnColumn(cols) && UniqueIdsAndCells(cols)
    ensures var r := ChordDropped(cols, chordId, columnIndex, relativeY);
            ChordsInOwnColumn(r) && UniqueIdsAndCells(r)
  {
    var d := ChordDropDecision(cols, chordId, columnIndex, relativeY);
    if !d.Ignored? {
      var id := chordId.value;
      var row := relativeY / CellHeight;
      FallbackIsDead(cols, id, columnIndex, row);
      if !RowTaken(cols, row, columnIndex, id) {
        MoveKeepsOwnColumn(cols, d.sourceColumn, d.sourceIndex, columnIndex, d.cell);
        MoveKeepsUniqueIdsAndCells(cols, d.sourceColumn, d.sourceIndex, columnIndex, d.cell);
      } else {
        SwapSlotsDiffer(cols, chordId, columnIndex, relativeY);
        SwapKeepsOwnColumn(cols, d.sourceColumn, d.sourceIndex, columnIndex, d.targetIndex);
        SwapKeepsUniqueIdsAndCells(cols, d.sourceColumn, d.sourceIndex, columnIndex, d.targetIndex);
      }
    }
  }

  // ---------------------------------------------------------------------
  // Column drop

  /** The decision of the grid's column drop handler, for the dragged
      element's `data-column-id` attribute, its `data-column-index` attribute
      (already parsed; None when absent or empty), the drop abscissa relative
      to the grid and the number of columns: the pair (from, to) passed to
      moveColumn, or None when the drop is ignored. */
  function ColumnDropDecision(columnId: Option<string>, columnIndexAttr: Option<int>, relativeX: int, n: nat)
    : (r: Option<(int, int)>)
    ensures r.Some? <==> && columnId.Some? && columnId.value != ""
                         && columnIndexAttr.GetOr(-1) != -1 && columnIndexAttr.GetOr(-1) < n
                         && relativeX / CellWidth != columnIndexAttr.GetOr(-1)
    ensures r.Some? ==> r.value.0 == columnIndexAttr.value && r.value.1 == relativeX / CellWidth
                        && r.value.0 != r.value.1 && r.value.0 < n
  {
    if columnId.None? || columnId.value == "" then None
    else
      var columnIndex := columnIndexAttr.GetOr(-1);
      if columnIndex == -1 || columnIndex >= n then None
      else
        var targetColumnIndex := relativeX / CellWidth;
        if targetColumnIndex == columnIndex then None
        else Some((columnIndex, targetColumnIndex))
  }

  /** onDrop of the grid's column drop target. A negative index other than
      -1 passes the guard, so on an empty board the drop reaches moveColumn,
      which throws; `thrown` reports that. */
  method OnColumnDrop(board: Board, columnId: Option<string>, columnIndexAttr: Option<int>, relativeX: int)
    returns (thrown: bool)
    modifies board
    ensures var d := ColumnDropDecision(columnId, columnIndexAttr, relativeX, |old(board.columns)|);
            && (thrown <==> d.Some? && |old(board.columns)| == 0)
            && (d.None? ==> board.columns == old(board.columns))
            && (d.Some? && !thrown ==> board.columns == ColumnMoved(old(board.columns), d.value.0, d.value.1))
            && board.saveRequests == old(board.saveRequests) + if d.None? || thrown then 0 else 1
  {
    thrown := false;
    if columnId.None? || columnId.value == "" {
      return;
    }
    var columnIndex := columnIndexAttr.GetOr(-1);
    if columnIndex == -1 || columnIndex >= |board.columns| {
      return;
    }
    var targetColumnIndex := relativeX / CellWidth;
    if targetColumnIndex == columnIndex {
      return;
    }
    thrown := MoveColumn(board, columnIndex, targetColumnIndex);
  }

  /** On an empty board a dragged column whose index attribute reads -2
      passes every guard, and the move it asks for throws. */
  lemma ColumnDropOnEmptyBoardThrows()
    ensures ColumnDropDecision(Some("c"), Some(-2), 500, 0) == Some((-2, 2))
    ensures MoveColumnThrows([], -2, 2)
  {
  }

  /** A column drop keeps the chords on the board and leaves every column
      numbered by its position. */
  lemma ColumnDropKeepsBoard(cols: seq<Column>, columnId: Option<string>, columnIndexAttr: Option<int>, relativeX: int)
    requires |cols| > 0
    requires ColumnDropDecision(columnId, columnIndexAttr, relativeX, |cols|).Some?
    ensures var (from, to) := ColumnDropDecision(columnId, columnIndexAttr, relativeX, |cols|).value;
            var r := ColumnMoved(cols, from, to);
            |r| == |cols| && BoardBag(r) == BoardBag(cols) && IndexesMatchPositions(r)
  {
    var (from, to) := ColumnDropDecision(columnId, columnIndexAttr, relativeX, |cols|).value;
    MoveColumnKeepsChords(cols, from, to);
    MoveColumnRenumbers(cols, from, to);
  }
}
