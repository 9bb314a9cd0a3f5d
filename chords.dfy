/** Chord mutations: auto-placement of a fetched chord, removal, move and
    swap (src/composables/useChordManagement.ts). */
module ChordManagement {
  import opened ChordBoard
  import opened GridCalculations

  /** The chord server's answer to a lookup by name. */
  datatype FetchResult = Fetched(data: ChordData) | FetchFailed(message: string)

  // ---------------------------------------------------------------------
  // Column selection and auto-placement

  /** Column i holds the fewest chords, and every column before it holds
      strictly more. */
  predicate IsFewestChordsColumn(cols: seq<Column>, i: nat) {
    && i < |cols|
    && (forall j :: 0 <= j < |cols| ==> |cols[i].chords| <= |cols[j].chords|)
    && (forall j :: 0 <= j < i ==> |cols[i].chords| < |cols[j].chords|)
  }

  /** The selection loop of handleChordSubmit: the lowest-index column among
      those with the fewest chords, scanning every column; 0 on an empty board. */
  method LeastPopulatedColumn(cols: seq<Column>) returns (columnIndex: nat)
    ensures cols == [] ==> columnIndex == 0
    ensures cols != [] ==> IsFewestChordsColumn(cols, columnIndex)
  {
    columnIndex := 0;
    var minChords: Option<nat> := None;  // None stands for Infinity
    for i := 0 to |cols|
      invariant minChords.None? <==> i == 0
      invariant i == 0 ==> columnIndex == 0
      invariant i > 0 ==> columnIndex < i && minChords.value == |cols[columnIndex].chords|
      invariant forall j :: 0 <= j < i ==> |cols[columnIndex].chords| <= |cols[j].chords|
      invariant forall j :: 0 <= j < columnIndex ==> |cols[columnIndex].chords| < |cols[j].chords|
    {
      var chordCount := |cols[i].chords|;
      if minChords.None? || chordCount < minChords.value {
        minChords := Some(chordCount);
        columnIndex := i;
      }
    }
  }

  /** At most one column fits the selection rule. */
  lemma FewestChordsColumnIsUnique(cols: seq<Column>, i: nat, j: nat)
    requires IsFewestChordsColumn(cols, i) && IsFewestChordsColumn(cols, j)
    ensures i == j
  {
    assert |cols[i].chords| == |cols[j].chords|;
  }

  /** The chord auto-placement creates at a cell. */
  function NewChord(id: string, data: ChordData, cell: Cell): Chord {
    Chord(id, data, GridToPixelPosition(cell.row, cell.col), cell, None)
  }

  /** `columns[i].chords.push(c)`. */
  function ChordAppended(cols: seq<Column>, i: nat, c: Chord): seq<Column>
    requires i < |cols|
  {
    WithChords(cols, i, cols[i].chords + [c])
  }

  /** Appending a chord adds exactly that chord to the board. */
  lemma SubmitAddsOneChord(cols: seq<Column>, i: nat, added: Chord)
    requires i < |cols|
    ensures var after := ChordAppended(cols, i, added);
            && BoardBag(after) == BoardBag(cols) + multiset{added}
            && ChordCount(after) == ChordCount(cols) + 1
            && |after| == |cols|
            && (forall j :: 0 <= j < |cols| && j != i ==> after[j] == cols[j])
  {
    WithChordsBag(cols, i, cols[i].chords + [added]);
    WithChordsCount(cols, i, cols[i].chords + [added]);
    assert multiset(cols[i].chords + [added]) == multiset(cols[i].chords) + multiset{added};
  }

  /** Placing a chord at the cell findEmptyGridPosition picks for an existing
      column keeps every chord in its own column. */
  lemma SubmitKeepsOwnColumn(cols: seq<Column>, i: nat, id: string, data: ChordData, gridColumns: nat)
    requires i < |cols| && ChordsInOwnColumn(cols)
    requires FindEmptyGridPosition(cols, i, gridColumns).Some?
    ensures ChordsInOwnColumn(ChordAppended(cols, i, NewChord(id, data, FindEmptyGridPosition(cols, i, gridColumns).value)))
  {
    var added := NewChord(id, data, FindEmptyGridPosition(cols, i, gridColumns).value);
    WithChordsOwnColumn(cols, i, cols[i].chords + [added]);
  }

  /** Placing a chord with a new id at the cell findEmptyGridPosition picks
      for an existing column keeps every id and cell unique. */
  lemma SubmitKeepsUniqueIdsAndCells(cols: seq<Column>, i: nat, id: string, data: ChordData, gridColumns: nat)
    requires i < |cols| && ChordsInOwnColumn(cols) && UniqueIdsAndCells(cols)
    requires FindEmptyGridPosition(cols, i, gridColumns).Some?
    requires forall c :: c in BoardBag(cols) ==> c.id != id
    ensures UniqueIdsAndCells(ChordAppended(cols, i, NewChord(id, data, FindEmptyGridPosition(cols, i, gridColumns).value)))
  {
    var cell := FindEmptyGridPosition(cols, i, gridColumns).value;
    var added := NewChord(id, data, cell);
    SubmitAddsOneChord(cols, i, added);
    EmptyGridPositionIsFree(cols, i, gridColumns);
    OccupiedIffBoardChordAt(cols, cell.row, cell.col, None);
    UniqueAdd(BoardBag(cols), added);
  }

  /** The form behind handleChordSubmit: the typed chord name, the message
      shown to the user and the last fetched chord. */
  class ChordEntry {
    var chordInput: string
    var errorMessage: string
    var currentChord: Option<ChordData>

    constructor ()
      ensures chordInput == "" && errorMessage == "" && currentChord == None
    {
      chordInput := "";
      errorMessage := "";
      currentChord := None;
    }

    /** handleChordSubmit with the server's answer `fetched` and the id that
        generateChordId would produce. An empty board makes
        findEmptyGridPosition throw: the chord is fetched but not placed and
        the input is kept. No save is requested. */
    method HandleChordSubmit(board: Board, fetched: FetchResult, newId: string, gridColumns: nat)
      modifies this, board
      ensures board.saveRequests == old(board.saveRequests)
      ensures IsBlank(old(chordInput)) ==>
                && errorMessage == "Please enter a chord name"
                && chordInput == old(chordInput) && currentChord == old(currentChord)
                && board.columns == old(board.columns)
      ensures !IsBlank(old(chordInput)) && fetched.FetchFailed? ==>
                && errorMessage == fetched.message && currentChord == None
                && chordInput == old(chordInput) && board.columns == old(board.columns)
      ensures !IsBlank(old(chordInput)) && fetched.Fetched? ==>
                && errorMessage == "" && currentChord == Some(fetched.data)
                && (old(board.columns) == [] ==> board.columns == [] && chordInput == old(chordInput))
                && (old(board.columns) != [] ==>
                      exists i: nat :: IsFewestChordsColumn(old(board.columns), i) &&
                        match FindEmptyGridPosition(old(board.columns), i, gridColumns)
                        case None => board.columns == old(board.columns) && chordInput == old(chordInput)
                        case Some(cell) =>
                          board.columns == ChordAppended(old(board.columns), i, NewChord(newId, fetched.data, cell))
                          && chordInput == "")
    {
      if IsBlank(chordInput) {
        errorMessage := "Please enter a chord name";
        return;
      }
      errorMessage := "";
      match fetched
      case FetchFailed(message) =>
        errorMessage := message;
        currentChord := None;
      case Fetched(data) =>
        currentChord := Some(data);
        var columnIndex := LeastPopulatedColumn(board.columns);
        var gridPosition := FindEmptyGridPosition(board.columns, columnIndex, gridColumns);
        if gridPosition.None? {
          return;
        }
        var newChord := NewChord(newId, data, gridPosition.value);
        board.columns := ChordAppended(board.columns, columnIndex, newChord);
        chordInput := "";
    }
  }

  // ---------------------------------------------------------------------
  // Move, swap and remove

  /** A chord with a new cell and the pixel position of that cell. */
  function Relocated(c: Chord, cell: Cell): Chord {
    c.(gridPosition := cell, position := GridToPixelPosition(cell.row, cell.col))
  }

  /** The board after moveChord: the chord leaves its slot in the source
      column, takes the target cell, and is appended to the target column;
      nothing happens when the source slot is empty. */
  function ChordMoved(cols: seq<Column>, sc: nat, si: int, tc: nat, cell: Cell): seq<Column>
    requires sc < |cols| && tc < |cols|
  {
    if !(0 <= si < |cols[sc].chords|) then cols
    else
      var detached := WithChords(cols, sc, RemoveAt(cols[sc].chords, si));
      ChordAppended(detached, tc, Relocated(cols[sc].chords[si], cell))
  }

  /** moveChord. */
  method MoveChord(board: Board, chordId: string, sourceColumnIndex: nat, sourceChordIndex: int,
                   targetColumnIndex: nat, targetGridPosition: Cell)
    requires sourceColumnIndex < |board.columns| && targetColumnIndex < |board.columns|
    modifies board
    ensures board.columns == ChordMoved(old(board.columns), sourceColumnIndex, sourceChordIndex,
                                        targetColumnIndex, targetGridPosition)
    ensures board.saveRequests == old(board.saveRequests)
              + if 0 <= sourceChordIndex < |old(board.columns)[sourceColumnIndex].chords| then 1 else 0
  {
    var source := board.columns[sourceColumnIndex].chords;
    if !(0 <= sourceChordIndex < |source|) {
      return;
    }
    var chord := source[sourceChordIndex];
    board.columns := WithChords(board.columns, sourceColumnIndex, RemoveAt(source, sourceChordIndex));
    chord := chord.(gridPosition := targetGridPosition);
    chord := chord.(position := GridToPixelPosition(targetGridPosition.row, targetGridPosition.col));
    board.columns := WithChords(board.columns, targetColumnIndex,
                                board.columns[targetColumnIndex].chords + [chord]);
    board.saveRequests := board.saveRequests + 1;
  }

  /** What a move does to the columns: the moved chord is the last of the
      target column, the source column lost exactly its slot, and no other
      column changes. */
  lemma MoveShape(cols: seq<Column>, sc: nat, si: nat, tc: nat, cell: Cell)
    requires sc < |cols| && tc < |cols| && si < |cols[sc].chords|
    ensures var after := ChordMoved(cols, sc, si, tc, cell);
            && |after| == |cols|
            && (forall j :: 0 <= j < |cols| ==> after[j].id == cols[j].id && after[j].index == cols[j].index)
            && (forall j :: 0 <= j < |cols| && j != sc && j != tc ==> after[j] == cols[j])
            && after[tc].chords == (if sc == tc then RemoveAt(cols[sc].chords, si) else cols[tc].chords)
                                   + [Relocated(cols[sc].chords[si], cell)]
            && (sc != tc ==> after[sc].chords == RemoveAt(cols[sc].chords, si))
  {
  }

  /** A move keeps every chord on the board: the moved one is replaced by
      its relocated self, so the count is unchanged too. */
  lemma MoveKeepsChords(cols: seq<Column>, sc: nat, si: nat, tc: nat, cell: Cell)
    requires sc < |cols| && tc < |cols| && si < |cols[sc].chords|
    ensures var c := cols[sc].chords[si];
            var after := ChordMoved(cols, sc, si, tc, cell);
            && BoardBag(after) == BoardBag(cols) - multiset{c} + multiset{Relocated(c, cell)}
            && ChordCount(after) == ChordCount(cols)
  {
    var c := cols[sc].chords[si];
    var removed := RemoveAt(cols[sc].chords, si);
    var detached := WithChords(cols, sc, removed);
    WithChordsBag(cols, sc, removed);
    WithChordsCount(cols, sc, removed);
    var b0 := BoardBag(cols);
    var m := multiset(cols[sc].chords);
    assert c in m;
    assert BoardBag(detached) == b0 - m + (m - multiset{c});
    assert BoardBag(detached) == b0 - multiset{c};
    SubmitAddsOneChord(detached, tc, Relocated(c, cell));
  }

  /** A move into a cell of the target column keeps every chord in its own
      column. */
  lemma MoveKeepsOwnColumn(cols: seq<Column>, sc: nat, si: int, tc: nat, cell: Cell)
    requires sc < |cols| && tc < |cols| && ChordsInOwnColumn(cols) && cell.col == tc
    ensures ChordsInOwnColumn(ChordMoved(cols, sc, si, tc, cell))
  {
    if 0 <= si < |cols[sc].chords| {
      var removed := RemoveAt(cols[sc].chords, si);
      WithChordsOwnColumn(cols, sc, removed);
      var detached := WithChords(cols, sc, removed);
      WithChordsOwnColumn(detached, tc, detached[tc].chords + [Relocated(cols[sc].chords[si], cell)]);
    }
  }

  /** A move into a cell that no other chord occupies keeps ids and cells
      unique. */
  lemma MoveKeepsUniqueIdsAndCells(cols: seq<Column>, sc: nat, si: nat, tc: nat, cell: Cell)
    requires sc < |cols| && tc < |cols| && si < |cols[sc].chords| && UniqueIdsAndCells(cols)
    requires !IsPositionOccupied(cols, cell.row, cell.col, Some(cols[sc].chords[si].id))
    ensures UniqueIdsAndCells(ChordMoved(cols, sc, si, tc, cell))
  {
    var c := cols[sc].chords[si];
    var b := BoardBag(cols);
    var rest := b - multiset{c};
    MoveKeepsChords(cols, sc, si, tc, cell);
    InBoardBag(cols, c);
    UniqueSub(b, rest);
    OccupiedIffBoardChordAt(cols, cell.row, cell.col, Some(c.id));
    assert rest[c] == 0;
    forall d | d in rest
      ensures d.id != c.id && d.gridPosition != cell
    {
      assert d in b && d != c;
    }
    UniqueAdd(rest, Relocated(c, cell));
  }

  /** The slot of the target chord once the source chord has left its column:
      one less when it followed the source slot in the same column. */
  function AdjustedTargetIndex(sc: nat, si: nat, tc: nat, ti: nat): nat {
    if sc == tc && ti > si then ti - 1 else ti
  }

  /** The two removals of swapChords: the source slot first, then the target
      slot, whose index is shifted down when it follows the source slot in the
      same column. */
  function SwapDetached(cols: seq<Column>, sc: nat, si: nat, tc: nat, ti: nat): seq<Column>
    requires sc < |cols| && tc < |cols|
  {
    var first := WithChords(cols, sc, RemoveAt(cols[sc].chords, si));
    WithChords(first, tc, RemoveAt(first[tc].chords, AdjustedTargetIndex(sc, si, tc, ti)))
  }

  /** The board after swapChords: the two chords exchange cells (and pixel
      positions), both leave their columns, and each is appended to the
      other's column; nothing happens when either slot is empty. */
  function ChordsSwapped(cols: seq<Column>, sc: nat, si: int, tc: nat, ti: int): seq<Column>
    requires sc < |cols| && tc < |cols|
  {
    if !(0 <= si < |cols[sc].chords|) || !(0 <= ti < |cols[tc].chords|) then cols
    else
      var s := cols[sc].chords[si];
      var t := cols[tc].chords[ti];
      var detached := SwapDetached(cols, sc, si, tc, ti);
      ChordAppended(ChordAppended(detached, tc, Relocated(s, t.gridPosition)), sc, Relocated(t, s.gridPosition))
  }

  /** swapChords. */
  method SwapChords(board: Board, sourceChordId: string, sourceColumnIndex: nat, sourceChordIndex: int,
                    targetChordId: string, targetColumnIndex: nat, targetChordIndex: int)
    requires sourceColumnIndex < |board.columns| && targetColumnIndex < |board.columns|
    modifies board
    ensures board.columns == ChordsSwapped(old(board.columns), sourceColumnIndex, sourceChordIndex,
                                           targetColumnIndex, targetChordIndex)
    ensures board.saveRequests == old(board.saveRequests)
              + if 0 <= sourceChordIndex < |old(board.columns)[sourceColumnIndex].chords|
                   && 0 <= targetChordIndex < |old(board.columns)[targetColumnIndex].chords| then 1 else 0
  {
    var sourceChords := board.columns[sourceColumnIndex].chords;
    var targetChords := board.columns[targetColumnIndex].chords;
    if !(0 <= sourceChordIndex < |sourceChords|) || !(0 <= targetChordIndex < |targetChords|) {
      return;
    }
    var sourceChord := sourceChords[sourceChordIndex];
    var targetChord := targetChords[targetChordIndex];
    var sourceGridPosition := sourceChord.gridPosition;
    var targetGridPosition := targetChord.gridPosition;

    board.columns := WithChords(board.columns, sourceColumnIndex, RemoveAt(sourceChords, sourceChordIndex));
    var adjustedTargetIndex := AdjustedTargetIndex(sourceColumnIndex, sourceChordIndex, targetColumnIndex, targetChordIndex);
    board.columns := WithChords(board.columns, targetColumnIndex,
                                RemoveAt(board.columns[targetColumnIndex].chords, adjustedTargetIndex));

    sourceChord := Relocated(sourceChord, targetGridPosition);
    targetChord := Relocated(targetChord, sourceGridPosition);

    board.columns := ChordAppended(board.columns, targetColumnIndex, sourceChord);
    board.columns := ChordAppended(board.columns, sourceColumnIndex, targetChord);
    board.saveRequests := board.saveRequests + 1;
  }

  /** Two different slots of the board. */
  predicate DistinctSlots(cols: seq<Column>, sc: nat, si: nat, tc: nat, ti: nat) {
    sc < |cols| && tc < |cols| && si < |cols[sc].chords| && ti < |cols[tc].chords| && (sc != tc || si != ti)
  }

  /** The first removal of a swap leaves the target chord at the adjusted
      index. */
  lemma SwapTargetSurvives(cols: seq<Column>, sc: nat, si: nat, tc: nat, ti: nat)
    requires DistinctSlots(cols, sc, si, tc, ti)
    ensures var first := WithChords(cols, sc, RemoveAt(cols[sc].chords, si));
            && AdjustedTargetIndex(sc, si, tc, ti) < |first[tc].chords|
            && first[tc].chords[AdjustedTargetIndex(sc, si, tc, ti)] == cols[tc].chords[ti]
  {
    var r := RemoveAt(cols[sc].chords, si);
    if sc == tc {
      if ti > si {
        assert r[ti - 1] == cols[sc].chords[ti];
      } else {
        assert r[ti] == cols[sc].chords[ti];
      }
    }
  }

  /** The two removals of a swap take exactly the two chords off the board. */
  lemma SwapRemovesBoth(cols: seq<Column>, sc: nat, si: nat, tc: nat, ti: nat)
    requires DistinctSlots(cols, sc, si, tc, ti)
    ensures BoardBag(SwapDetached(cols, sc, si, tc, ti))
            == BoardBag(cols) - multiset{cols[sc].chords[si]} - multiset{cols[tc].chords[ti]}
  {
    var first := WithChords(cols, sc, RemoveAt(cols[sc].chords, si));
    SwapTargetSurvives(cols, sc, si, tc, ti);
    RemoveOneBag(cols, sc, si);
    RemoveOneBag(first, tc, AdjustedTargetIndex(sc, si, tc, ti));
  }

  /** The two removals shorten the source and target columns by one slot each
      and change nothing else. */
  lemma SwapDetachedShape(cols: seq<Column>, sc: nat, si: nat, tc: nat, ti: nat)
    requires DistinctSlots(cols, sc, si, tc, ti)
    ensures var d := SwapDetached(cols, sc, si, tc, ti);
            && |d| == |cols|
            && (forall j :: 0 <= j < |cols| ==> d[j].id == cols[j].id && d[j].index == cols[j].index)
            && (forall j :: 0 <= j < |cols| ==>
                  |d[j].chords| == |cols[j].chords| - (if j == sc then 1 else 0) - (if j == tc then 1 else 0))
            && (forall j :: 0 <= j < |cols| && j != sc && j != tc ==> d[j] == cols[j])
  {
    SwapTargetSurvives(cols, sc, si, tc, ti);
  }

  /** The two removals keep every chord in its own column. */
  lemma SwapDetachedOwnColumn(cols: seq<Column>, sc: nat, si: nat, tc: nat, ti: nat)
    requires DistinctSlots(cols, sc, si, tc, ti) && ChordsInOwnColumn(cols)
    ensures ChordsInOwnColumn(SwapDetached(cols, sc, si, tc, ti))
  {
    var removed := RemoveAt(cols[sc].chords, si);
    var first := WithChords(cols, sc, removed);
    WithChordsOwnColumn(cols, sc, removed);
    WithChordsOwnColumn(first, tc, RemoveAt(first[tc].chords, AdjustedTargetIndex(sc, si, tc, ti)));
  }

  /** A swap of two different slots keeps every column's length and changes
      no column other than the two. */
  lemma SwapKeepsShape(cols: seq<Column>, sc: nat, si: nat, tc: nat, ti: nat)
    requires DistinctSlots(cols, sc, si, tc, ti)
    ensures var s := cols[sc].chords[si];
            var t := cols[tc].chords[ti];
            var after := ChordsSwapped(cols, sc, si, tc, ti);
            && |after| == |cols|
            && (forall j :: 0 <= j < |cols| ==> |after[j].chords| == |cols[j].chords|)
            && (forall j :: 0 <= j < |cols| ==> after[j].id == cols[j].id && after[j].index == cols[j].index)
            && (forall j :: 0 <= j < |cols| && j != sc && j != tc ==> after[j] == cols[j])
  {
    var s := cols[sc].chords[si];
    var t := cols[tc].chords[ti];
    var d := SwapDetached(cols, sc, si, tc, ti);
    SwapDetachedShape(cols, sc, si, tc, ti);
    var third := ChordAppended(d, tc, Relocated(s, t.gridPosition));
    assert |third| == |cols|;
    assert forall j :: 0 <= j < |cols| ==> |third[j].chords| == |d[j].chords| + (if j == tc then 1 else 0);
  }

  /** A swap keeps the number of chords on the board. */
  lemma SwapKeepsCount(cols: seq<Column>, sc: nat, si: nat, tc: nat, ti: nat)
    requires DistinctSlots(cols, sc, si, tc, ti)
    ensures ChordCount(ChordsSwapped(cols, sc, si, tc, ti)) == ChordCount(cols)
  {
    var s := cols[sc].chords[si];
    var t := cols[tc].chords[ti];
    var d := SwapDetached(cols, sc, si, tc, ti);
    SwapDetachedCount(cols, sc, si, tc, ti);
    var third := ChordAppended(d, tc, Relocated(s, t.gridPosition));
    SubmitAddsOneChord(d, tc, Relocated(s, t.gridPosition));
    SubmitAddsOneChord(third, sc, Relocated(t, s.gridPosition));
  }

  /** The two removals of a swap take two chords off the count. */
  lemma SwapDetachedCount(cols: seq<Column>, sc: nat, si: nat, tc: nat, ti: nat)
    requires DistinctSlots(cols, sc, si, tc, ti)
    ensures ChordCount(SwapDetached(cols, sc, si, tc, ti)) == ChordCount(cols) - 2
  {
    var first := WithChords(cols, sc, RemoveAt(cols[sc].chords, si));
    SwapTargetSurvives(cols, sc, si, tc, ti);
    RemoveOneBag(cols, sc, si);
    RemoveOneBag(first, tc, AdjustedTargetIndex(sc, si, tc, ti));
  }

  /** A swap keeps every chord on the board, the two swapped ones replaced by
      their relocated selves. */
  lemma SwapKeepsBag(cols: seq<Column>, sc: nat, si: nat, tc: nat, ti: nat)
    requires DistinctSlots(cols, sc, si, tc, ti)
    ensures var s := cols[sc].chords[si];
            var t := cols[tc].chords[ti];
            BoardBag(ChordsSwapped(cols, sc, si, tc, ti))
              == BoardBag(cols) - multiset{s} - multiset{t}
                 + multiset{Relocated(s, t.gridPosition)} + multiset{Relocated(t, s.gridPosition)}
  {
    var s := cols[sc].chords[si];
    var t := cols[tc].chords[ti];
    var d := SwapDetached(cols, sc, si, tc, ti);
    SwapRemovesBoth(cols, sc, si, tc, ti);
    var moved := Relocated(s, t.gridPosition);
    var third := ChordAppended(d, tc, moved);
    SubmitAddsOneChord(d, tc, moved);
    SubmitAddsOneChord(third, sc, Relocated(t, s.gridPosition));
  }

  /** Where the two swapped chords end up: the source chord, with the
      target's cell, in the target column, and the target chord, with the
      source's cell, as the last chord of the source column. */
  lemma SwapExchangesCells(cols: seq<Column>, sc: nat, si: nat, tc: nat, ti: nat)
    requires DistinctSlots(cols, sc, si, tc, ti)
    ensures var s := cols[sc].chords[si];
            var t := cols[tc].chords[ti];
            var after := ChordsSwapped(cols, sc, si, tc, ti);
            && Relocated(s, t.gridPosition) in after[tc].chords
            && after[sc].chords[|after[sc].chords| - 1] == Relocated(t, s.gridPosition)
  {
    var s := cols[sc].chords[si];
    var t := cols[tc].chords[ti];
    var d := SwapDetached(cols, sc, si, tc, ti);
    SwapDetachedShape(cols, sc, si, tc, ti);
    var third := ChordAppended(d, tc, Relocated(s, t.gridPosition));
    assert third[tc].chords[|third[tc].chords| - 1] == Relocated(s, t.gridPosition);
  }

  /** A swap keeps every chord in its own column. */
  lemma SwapKeepsOwnColumn(cols: seq<Column>, sc: nat, si: nat, tc: nat, ti: nat)
    requires DistinctSlots(cols, sc, si, tc, ti) && ChordsInOwnColumn(cols)
    ensures ChordsInOwnColumn(ChordsSwapped(cols, sc, si, tc, ti))
  {
    var s := cols[sc].chords[si];
    var t := cols[tc].chords[ti];
    assert s.gridPosition.col == sc && t.gridPosition.col == tc;
    var d := SwapDetached(cols, sc, si, tc, ti);
    SwapDetachedOwnColumn(cols, sc, si, tc, ti);
    AppendKeepsOwnColumn(d, tc, Relocated(s, t.gridPosition));
    AppendKeepsOwnColumn(ChordAppended(d, tc, Relocated(s, t.gridPosition)), sc, Relocated(t, s.gridPosition));
  }

  /** Appending a chord whose cell lies in the column keeps every chord in
      its own column. */
  lemma AppendKeepsOwnColumn(cols: seq<Column>, i: nat, c: Chord)
    requires i < |cols| && ChordsInOwnColumn(cols) && c.gridPosition.col == i
    ensures ChordsInOwnColumn(ChordAppended(cols, i, c))
  {
    WithChordsOwnColumn(cols, i, cols[i].chords + [c]);
  }

  /** The two chords of a swap are different chords with different ids and
      cells, when ids and cells are unique. */
  lemma SwapPartnersDiffer(cols: seq<Column>, sc: nat, si: nat, tc: nat, ti: nat)
    requires DistinctSlots(cols, sc, si, tc, ti) && UniqueIdsAndCells(cols)
    ensures var s := cols[sc].chords[si];
            var t := cols[tc].chords[ti];
            && s in BoardBag(cols) && t in BoardBag(cols) - multiset{s}
            && s.id != t.id && s.gridPosition != t.gridPosition
  {
    var s := cols[sc].chords[si];
    var t := cols[tc].chords[ti];
    var b := BoardBag(cols);
    var first := WithChords(cols, sc, RemoveAt(cols[sc].chords, si));
    SwapTargetSurvives(cols, sc, si, tc, ti);
    RemoveOneBag(cols, sc, si);
    InBoardBag(first, t);
    assert t in b - multiset{s};
    InBoardBag(cols, s);
    assert s != t;
  }

  /** A swap keeps ids and cells unique. */
  lemma SwapKeepsUniqueIdsAndCells(cols: seq<Column>, sc: nat, si: nat, tc: nat, ti: nat)
    requires DistinctSlots(cols, sc, si, tc, ti) && UniqueIdsAndCells(cols)
    ensures UniqueIdsAndCells(ChordsSwapped(cols, sc, si, tc, ti))
  {
    var s := cols[sc].chords[si];
    var t := cols[tc].chords[ti];
    var b := BoardBag(cols);
    SwapPartnersDiffer(cols, sc, si, tc, ti);
    var rest := b - multiset{s} - multiset{t};
    UniqueSub(b, rest);
    assert rest[s] == 0 && rest[t] == 0;
    forall d | d in rest
      ensures d.id != s.id && d.id != t.id && d.gridPosition != s.gridPosition && d.gridPosition != t.gridPosition
    {
      assert d in b && d != s && d != t;
    }
    var moved := Relocated(s, t.gridPosition);
    UniqueAdd(rest, moved);
    UniqueAdd(rest + multiset{moved}, Relocated(t, s.gridPosition));
    SwapKeepsBag(cols, sc, si, tc, ti);
  }

  /** The board after removeChord: the first chord with the id, in the first
      column holding one, is taken out; nothing changes when there is none. */
  function ChordRemoved(cols: seq<Column>, id: string): seq<Column> {
    match FindChord(cols, id)
    case None => cols
    case Some((i, k)) => WithChords(cols, i, RemoveAt(cols[i].chords, k))
  }

  /** The save requests removeChord publishes as written: one when no chord
      has the id, none after a removal, because the loop returns right after
      the splice. */
  function RemoveChordSaves(cols: seq<Column>, id: string): (n: nat)
    ensures n == 1 <==> forall c :: c in BoardBag(cols) ==> c.id != id
    ensures n == 0 <==> ChordRemoved(cols, id) != cols
  {
    RemoveTakesFirstMatch(cols, id);
    if FindChord(cols, id).None? then 1
    else
      var (i, k) := FindChord(cols, id).value;
      assert |ChordRemoved(cols, id)[i].chords| == |cols[i].chords| - 1;
      InBoardBag(cols, cols[i].chords[k]);
      0
  }

  /** removeChord, as written. */
  method RemoveChord(board: Board, id: string)
    modifies board
    ensures board.columns == ChordRemoved(old(board.columns), id)
    ensures board.saveRequests == old(board.saveRequests) + RemoveChordSaves(old(board.columns), id)
  {
    var i := 0;
    while i < |board.columns|
      invariant 0 <= i <= |board.columns|
      invariant board.columns == old(board.columns) && board.saveRequests == old(board.saveRequests)
      invariant FindChord(board.columns, id) == FindChordFrom(board.columns, id, i)
    {
      var column := board.columns[i];
      var chordIndex := FirstIndexOf(column.chords, id);
      if chordIndex != -1 {
        board.columns := WithChords(board.columns, i, RemoveAt(column.chords, chordIndex));
        return;
      }
      i := i + 1;
    }
    board.saveRequests := board.saveRequests + 1;
  }

  /** Removing the only chord of a one-column board changes the board and
      publishes no save request. */
  lemma RemovalGoesUnsaved()
    ensures var c := Chord("c", ChordData("C", "major", []), Pixel(0, 0), Cell(0, 0), None);
            var cols := [Column("a", 0, [c])];
            ChordRemoved(cols, "c") == [Column("a", 0, [])] && RemoveChordSaves(cols, "c") == 0
  {
    var c := Chord("c", ChordData("C", "major", []), Pixel(0, 0), Cell(0, 0), None);
    var cols := [Column("a", 0, [c])];
    assert FirstIndexOf(cols[0].chords, "c") == 0;
    assert FindChord(cols, "c") == Some((0, 0));
  }

  /** removeChord with the loop left by `break` instead of `return`, so that
      the save request the other mutations publish follows every call. */
  method RemoveChordThenSave(board: Board, id: string)
    modifies board
    ensures board.columns == ChordRemoved(old(board.columns), id)
    ensures board.saveRequests == old(board.saveRequests) + 1
  {
    var i := 0;
    while i < |board.columns|
      invariant 0 <= i <= |board.columns|
      invariant board.columns == old(board.columns) && board.saveRequests == old(board.saveRequests)
      invariant FindChord(board.columns, id) == FindChordFrom(board.columns, id, i)
    {
      var column := board.columns[i];
      var chordIndex := FirstIndexOf(column.chords, id);
      if chordIndex != -1 {
        board.columns := WithChords(board.columns, i, RemoveAt(column.chords, chordIndex));
        break;
      }
      i := i + 1;
    }
    board.saveRequests := board.saveRequests + 1;
  }

  /** Removal takes exactly the first chord with the id off the board; when
      no chord has the id the board is unchanged. */
  lemma RemoveTakesFirstMatch(cols: seq<Column>, id: string)
    ensures FindChord(cols, id).None? ==>
              ChordRemoved(cols, id) == cols && forall c :: c in BoardBag(cols) ==> c.id != id
    ensures FindChord(cols, id).Some? ==>
              var (i, k) := FindChord(cols, id).value;
              && cols[i].chords[k].id == id
              && BoardBag(ChordRemoved(cols, id)) == BoardBag(cols) - multiset{cols[i].chords[k]}
              && ChordCount(ChordRemoved(cols, id)) == ChordCount(cols) - 1
  {
    match FindChord(cols, id)
    case None =>
      forall c | c in BoardBag(cols) ensures c.id != id {
        InBoardBag(cols, c);
      }
    case Some((i, k)) =>
      RemoveOneBag(cols, i, k);
  }

  /** Removal keeps chords in their own columns. */
  lemma RemoveKeepsOwnColumn(cols: seq<Column>, id: string)
    requires ChordsInOwnColumn(cols)
    ensures ChordsInOwnColumn(ChordRemoved(cols, id))
  {
    match FindChord(cols, id)
    case None =>
    case Some((i, k)) =>
      WithChordsOwnColumn(cols, i, RemoveAt(cols[i].chords, k));
  }

  /** Removal keeps ids and cells unique. */
  lemma RemoveKeepsUniqueIdsAndCells(cols: seq<Column>, id: string)
    requires UniqueIdsAndCells(cols)
    ensures UniqueIdsAndCells(ChordRemoved(cols, id))
  {
    match FindChord(cols, id)
    case None =>
    case Some((i, k)) =>
      RemoveOneBag(cols, i, k);
      UniqueSub(BoardBag(cols), BoardBag(ChordRemoved(cols, id)));
  }
}
