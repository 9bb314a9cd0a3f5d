# Chord pin-board: the board-mutation engine

This project models the engine behind chordboard's pin-board for guitar chords. The board is a list of columns. Each column has an id, an `index` field and an ordered list of chords. Each chord carries an id, a grid cell `(row, col)` and the pixel position of that cell (cells are 220 by 280 pixels).

The composables share the reactive list of columns. In the model that list is the `columns` field of the class `ChordBoard.Board`. Its `saveRequests` counter counts the `command:boardPersistence:save` events a mutation publishes.

The modules follow the composables:

- **ChordBoard** (`chordboard.dfy`): the types of `src/types/chord-board.ts` and the list helpers the composables use.
  - The helpers model `splice` (including the clamping of its start index) and `findIndex`.
  - It also defines the three board invariants the proofs are about:
    - `ChordsInOwnColumn`: a chord's `col` is the position of the column that holds it.
    - `UniqueIdsAndCells`: no chord occurs twice, and no two chords share an id or a cell.
    - `IndexesMatchPositions`: every column's `index` equals its position.
- **GridCalculations** (`grid.dfy`): `useGridCalculations`. This covers pixel/cell conversion with floor division and clamping, the grid size with ceiling division, the occupancy query and the auto-placement cell.
- **ChordManagement** (`chords.dfy`): `useChordManagement`. This covers the least-populated column, the append done by `handleChordSubmit`, and `moveChord`, `swapChords` and `removeChord`.
- **ColumnManagement** (`columns.dfy`): `useColumnManagement`. This covers `addColumn`, `adjustColumnCount`, `updateColumnIndices` and `moveColumn`.
- **DragAndDrop** (`dragdrop.dfy`): the decision logic of the two `onDrop` callbacks of `useDragAndDrop`. The DOM reads (attributes, pointer position relative to the drop target) are arguments.
- **ChordSearch** (`search.dfy`): `useChordSearch`. This covers the fingering validator, keyboard navigation over the suggestions and the folding of a search answer into the search box's state.

Operations that mutate the board are module-level methods that take the `Board` and declare `modifies board`. Each one is proved equal to a function of the old columns (`ChordMoved`, `ChordsSwapped`, `ChordRemoved`, `ColumnInserted`, `Grown`, `ColumnMoved`, `ChordDropped`). The lemmas state what those functions do, and which invariants they keep or break.

Fresh ids (`generateId`, `generateChordId`) and the answers of the chord server are method arguments.

## Model

| member | source | states |
|---|---|---|
| ChordBoard.TrimStart | src/composables/useChordManagement.ts:18 | the leading part of `trim`: only whitespace is cut off, and what is left is a suffix that is empty or starts with a non-whitespace character |
| ChordBoard.TrimEnd | src/composables/useChordManagement.ts:18 | the trailing part of `trim`: only whitespace is cut off, and what is left is a prefix that is empty or ends with a non-whitespace character |
| ChordBoard.Trim | src/composables/useChordManagement.ts:18 | `trim()`: a slice of the string that neither starts nor ends with whitespace, with only whitespace around it; empty exactly when the string is all whitespace |
| ChordBoard.IsBlank | src/composables/useChordManagement.ts:18 | `!s.trim()` holds exactly when every character is whitespace |
| ChordBoard.RemoveAt | src/composables/useChordManagement.ts:99 | `splice(k, 1)` drops exactly the element at k: the length falls by one, later elements shift down, and the multiset loses that one element; an index past the end changes nothing |
| ChordBoard.SpliceStart | src/composables/useColumnManagement.ts:52-55 | the start position `splice` uses: in-range starts are kept, larger ones clamp to the length, negative ones count from the end and clamp at 0 |
| ChordBoard.FirstIndexOf | src/composables/useChordManagement.ts:74 | `findIndex` by id: -1 or an index holding the id, with no earlier index holding it |
| ChordBoard.FindChordFrom | src/composables/useChordManagement.ts:72-80 | the column scan of removeChord and of the chord drop: the first column holding the id and the first index in it; no earlier column holds the id |
| ChordBoard.InBoardBag | src/types/chord-board.ts:15-19 | a chord is in the board's multiset of chords exactly when some column holds it |
| ChordBoard.WithChordsBag | src/composables/useChordManagement.ts:61 | replacing one column's chord list replaces that column's share of the board's chords and nothing else |
| ChordBoard.WithChordsCount | src/composables/useChordManagement.ts:61 | the same for the number of chords |
| ChordBoard.WithChordsOwnColumn | src/composables/useChordManagement.ts:61 | giving a column chords whose `col` is that column keeps every chord in its own column |
| ChordBoard.UniqueSub | src/composables/useChordManagement.ts:77 | taking chords off a board with unique ids and cells keeps them unique |
| ChordBoard.UniqueAdd | src/composables/useChordManagement.ts:61 | adding a chord whose id and cell no chord has keeps ids and cells unique |
| ChordBoard.RemoveOneBag | src/composables/useChordManagement.ts:77 | splicing one slot out of a column takes exactly that chord off the board |
| ChordBoard.BoardBagConcat | src/types/chord-board.ts:15-19 | the chords of two boards laid side by side are the chords of both |
| ChordBoard.BoardBagSameChords | src/composables/useColumnManagement.ts:41-45 | boards whose columns hold the same chords position by position hold the same chords, whatever their ids and indexes |
| GridCalculations.CeilDiv | src/composables/useGridCalculations.ts:82-83 | `Math.ceil(n / d)`: the least q with q*d >= n |
| GridCalculations.CalculateGridPosition | src/composables/useGridCalculations.ts:10-20 | row and col are never negative; each stays at most count-1 when its count is at least 1 and is 0 when its count is at most 1; inside the grid it is the floor of pixel/cell size; a pixel before the grid clamps to 0 and one past it to count-1 |
| GridCalculations.GridToPixelPosition | src/composables/useGridCalculations.ts:23-28 | the pixel is the top-left corner of the cell: dividing it by the cell size gives the cell back, with no remainder |
| GridCalculations.GridRoundTrip | src/composables/useGridCalculations.ts:10-28 | converting a cell inside the grid to pixels and back gives the cell |
| GridCalculations.PixelFallsInItsCell | src/composables/useGridCalculations.ts:10-28 | a pixel inside the grid lies in the rectangle of the cell it is converted to |
| GridCalculations.IsPositionOccupied | src/composables/useGridCalculations.ts:31-39 | a cell is occupied exactly when some chord on the board sits there and does not have the excluded id |
| GridCalculations.OccupiedIffBoardChordAt | src/composables/useGridCalculations.ts:32-38 | the nested `some` scans over the columns and their chords find exactly the chords on the board |
| GridCalculations.ExclusionOnlyFrees | src/composables/useGridCalculations.ts:36 | supplying an excluded id can only turn "occupied" into "free" |
| GridCalculations.OccupantIsInOwnColumn | src/composables/useGridCalculations.ts:31-39 | when every chord sits in its own column, a cell of column c can only be occupied by a chord of column c |
| GridCalculations.MaxRow | src/composables/useGridCalculations.ts:69 | `Math.max` of the rows: an upper bound of every row that some chord attains |
| GridCalculations.FindEmptyGridPosition | src/composables/useGridCalculations.ts:42-73 | it throws exactly on an empty board or when the marking pass indexes a negative row; the column is always the argument; the row is 0 for an empty column, and otherwise one past the largest row of the consulted column (`columns[i] \|\| columns[0]`), so it is below every chord there |
| GridCalculations.EmptyGridPositionIsFree | src/composables/useGridCalculations.ts:60-72 | when chords sit in their own columns, the cell chosen for an existing column is free on the whole board |
| GridCalculations.GridDimensions.UpdateGridDimensions | src/composables/useGridCalculations.ts:76-84 | with no element nothing changes; otherwise the counts become ceil(width/220) and ceil(height/280) |
| GridCalculations.ViewportPixelsAreNotClamped | src/composables/useGridCalculations.ts:10-20 | once the counts come from the viewport, every pixel inside the viewport converts without clamping |
| GridCalculations.TotalColumnsWidth | src/composables/useGridCalculations.ts:87-89 | the width reaches the right edge of every column, and is exactly the right edge of the last one |
| ChordManagement.LeastPopulatedColumn | src/composables/useChordManagement.ts:35-44 | the loop picks the lowest-index column among those with the fewest chords, scanning every column; 0 on an empty board |
| ChordManagement.FewestChordsColumnIsUnique | src/composables/useChordManagement.ts:35-44 | that choice is unique |
| ChordManagement.SubmitAddsOneChord | src/composables/useChordManagement.ts:61 | the append adds exactly the new chord to the board, one more chord in total, and leaves the other columns alone |
| ChordManagement.SubmitKeepsOwnColumn | src/composables/useChordManagement.ts:46-61 | placing the new chord at findEmptyGridPosition of an existing column keeps chords in their own columns |
| ChordManagement.SubmitKeepsUniqueIdsAndCells | src/composables/useChordManagement.ts:46-61 | with a fresh id, the new chord keeps ids and cells unique |
| ChordManagement.ChordEntry.HandleChordSubmit | src/composables/useChordManagement.ts:17-68 | a blank input only sets the error message; a failed fetch sets the error and clears the chord; a fetched chord is appended to a fewest-chords column at findEmptyGridPosition with the pixel position of that cell, and the input is cleared; when placement throws (empty board) the board and the input are left; no save is published |
| ChordManagement.MoveChord | src/composables/useChordManagement.ts:86-109 | the board becomes ChordMoved of the old one: nothing happens and nothing is saved when the source slot is empty, otherwise one save |
| ChordManagement.MoveShape | src/composables/useChordManagement.ts:98-106 | the moved chord, with its new cell and pixel position, becomes the last chord of the target column; the source column loses exactly its slot; ids and indexes of all columns and every other column are unchanged |
| ChordManagement.MoveKeepsChords | src/composables/useChordManagement.ts:98-106 | the board's chords are the old ones with the moved chord replaced by its relocated self, so the count is kept |
| ChordManagement.MoveKeepsOwnColumn | src/composables/useChordManagement.ts:98-106 | a move into a cell of the target column keeps chords in their own columns |
| ChordManagement.MoveKeepsUniqueIdsAndCells | src/composables/useChordManagement.ts:98-106 | a move into a cell no other chord occupies keeps ids and cells unique |
| ChordManagement.SwapChords | src/composables/useChordManagement.ts:112-151 | the board becomes ChordsSwapped of the old one; nothing happens and nothing is saved when either slot is empty, otherwise one save |
| ChordManagement.SwapTargetSurvives | src/composables/useChordManagement.ts:131-137 | after the first splice the corrected target index still holds the target chord, also in the same column after the source slot |
| ChordManagement.SwapRemovesBoth | src/composables/useChordManagement.ts:130-137 | for two different slots the two splices take exactly the source and the target chord off the board |
| ChordManagement.SwapDetachedShape | src/composables/useChordManagement.ts:130-137 | the two splices shorten the source and target columns by one slot each and change nothing else |
| ChordManagement.SwapDetachedCount | src/composables/useChordManagement.ts:130-137 | the two splices take two chords off the count |
| ChordManagement.SwapDetachedOwnColumn | src/composables/useChordManagement.ts:130-137 | the two splices keep chords in their own columns |
| ChordManagement.SwapKeepsShape | src/composables/useChordManagement.ts:130-148 | a swap keeps every column's length and the columns' ids and indexes, and leaves every other column alone |
| ChordManagement.SwapKeepsCount | src/composables/useChordManagement.ts:130-148 | a swap keeps the number of chords |
| ChordManagement.SwapKeepsBag | src/composables/useChordManagement.ts:127-148 | a swap keeps every chord, the two swapped ones replaced by copies carrying each other's cell and pixel position |
| ChordManagement.SwapExchangesCells | src/composables/useChordManagement.ts:139-148 | the source chord, with the target's cell, ends in the target column; the target chord, with the source's cell, ends last in the source column |
| ChordManagement.AppendKeepsOwnColumn | src/composables/useChordManagement.ts:146-148 | pushing a chord whose cell lies in the column keeps chords in their own columns |
| ChordManagement.SwapKeepsOwnColumn | src/composables/useChordManagement.ts:127-148 | a swap keeps chords in their own columns |
| ChordManagement.SwapPartnersDiffer | src/composables/useChordManagement.ts:121-122 | two different slots of a board with unique ids and cells hold different chords with different ids and cells |
| ChordManagement.SwapKeepsUniqueIdsAndCells | src/composables/useChordManagement.ts:127-148 | a swap keeps ids and cells unique |
| ChordManagement.RemoveChordSaves | src/composables/useChordManagement.ts:71-83 | removeChord publishes one save exactly when no chord has the id, and none exactly when it changed the board |
| ChordManagement.RemoveChord | src/composables/useChordManagement.ts:71-83 | the board becomes ChordRemoved of the old one, with the saves RemoveChordSaves counts |
| ChordManagement.RemovalGoesUnsaved | src/composables/useChordManagement.ts:76-82 | a concrete board whose removal changes the board and publishes no save |
| ChordManagement.RemoveChordThenSave | src/composables/useChordManagement.ts:71-83 | the corrected removal: same board change, and exactly one save on every call |
| ChordManagement.RemoveTakesFirstMatch | src/composables/useChordManagement.ts:71-83 | with no chord of that id the board is unchanged; otherwise exactly the first match (which carries the id) leaves the board and the count falls by one |
| ChordManagement.RemoveKeepsOwnColumn | src/composables/useChordManagement.ts:77 | removal keeps chords in their own columns |
| ChordManagement.RemoveKeepsUniqueIdsAndCells | src/composables/useChordManagement.ts:77 | removal keeps ids and cells unique |
| ColumnManagement.InsertAt | src/composables/useColumnManagement.ts:19 | `splice(p, 0, x)`: x at p, earlier elements kept, later ones shifted up, the multiset gains x |
| ColumnManagement.RenumberedFrom | src/composables/useColumnManagement.ts:22-24 | columns from position `from` on get their position as index; ids, chords and earlier indexes are kept |
| ColumnManagement.AddColumn | src/composables/useColumnManagement.ts:10-25 | the splice and the renumbering loop produce ColumnInserted of the old board; no save |
| ColumnManagement.AddColumnShape | src/composables/useColumnManagement.ts:10-24 | one empty column with the requested `index` lands at min(index, length), earlier columns are untouched, later ones shift by one and are renumbered |
| ColumnManagement.AddColumnKeepsIndexes | src/composables/useColumnManagement.ts:13-24 | on a board numbered by position, the result is numbered by position exactly when the index is not past the end |
| ColumnManagement.AddColumnKeepsChords | src/composables/useColumnManagement.ts:10-25 | insertion adds and loses no chord |
| ColumnManagement.AddColumnAtEnd | src/composables/useColumnManagement.ts:36 | inserting at the length appends a column numbered by its position |
| ColumnManagement.AddColumnBreaksOwnColumn | src/composables/useColumnManagement.ts:19-24 | a concrete board where inserting a column before a chord's column leaves the chord in a column its `col` does not name |
| ColumnManagement.BagInsertColumn | src/composables/useColumnManagement.ts:55 | inserting a column adds its chords to the board |
| ColumnManagement.BagRemoveColumn | src/composables/useColumnManagement.ts:52 | removing a column takes its chords off the board |
| ColumnManagement.AdjustColumnCount | src/composables/useColumnManagement.ts:28-38 | the while loop of addColumn calls produces Grown: fresh empty columns numbered by position appended up to max(3, gridColumns); no save |
| ColumnManagement.GrownAt | src/composables/useColumnManagement.ts:32-37 | each position of the grown board holds the old column, or a fresh empty column whose index is its position |
| ColumnManagement.AdjustReachesDesired | src/composables/useColumnManagement.ts:32-37 | afterwards there are max(old length, 3, gridColumns) columns, the old columns are an unchanged prefix, and a board long enough already is unchanged |
| ColumnManagement.AdjustKeepsInvariants | src/composables/useColumnManagement.ts:32-37 | growing keeps indexes equal to positions, chords in their own columns and the chords on the board |
| ColumnManagement.UpdateColumnIndices | src/composables/useColumnManagement.ts:41-45 | the loop sets every index to its position and keeps ids and chords |
| ColumnManagement.MoveColumn | src/composables/useColumnManagement.ts:48-61 | from == to changes nothing and saves nothing; it throws exactly when from differs from to and names no column (empty board, or a start at or past the end), and then publishes no save; otherwise the board becomes the renumbered result of the two splices and one save is published |
| ColumnManagement.MoveColumnPermutes | src/composables/useColumnManagement.ts:51-55 | the two splices only permute the columns: same length, same multiset of columns |
| ColumnManagement.MoveColumnRenumbers | src/composables/useColumnManagement.ts:57-58 | after a move every index equals its position, and each column is the permuted one with a new index |
| ColumnManagement.MoveColumnKeepsChords | src/composables/useColumnManagement.ts:48-61 | a column move keeps the chords on the board (no gridPosition is touched) |
| ColumnManagement.MoveColumnKeepsIds | src/composables/useColumnManagement.ts:48-61 | every column after a move (id and chords) was a column before |
| ColumnManagement.MoveColumnLosesNoId | src/composables/useColumnManagement.ts:48-61 | every column before a move (id and chords) is a column after |
| ColumnManagement.TakeAndPutAt | src/composables/useColumnManagement.ts:51-55 | `splice(from, 1)` followed by `splice(to, 0, moved)` leaves at each position the element MovedFrom names |
| ColumnManagement.ReorderedAt | src/composables/useColumnManagement.ts:51-55 | for in-range from and to, position j of the spliced list holds the column MovedFrom names |
| ColumnManagement.MoveColumnPlacement | src/composables/useColumnManagement.ts:48-61 | for in-range from and to, the target position takes the moved column, the columns in between shift one place towards the source, the rest stay, and all are renumbered |
| ColumnManagement.MoveColumnExample | src/composables/useColumnManagement.ts:48-61 | four columns moved (0, 2) come out in the order second, third, first, fourth, numbered 0..3 |
| ColumnManagement.MoveColumnBreaksOwnColumn | src/composables/useColumnManagement.ts:48-61 | a concrete board where a column move leaves a chord in a column its `col` does not name |
| DragAndDrop.FirstOccupantIndex | src/composables/useDragAndDrop.ts:113-120 | -1 or the index of a chord at (row, col) with another id, with no such chord before it |
| DragAndDrop.FreeRowFrom | src/composables/useDragAndDrop.ts:136-155 | the original row exactly when every offset 1..99 is blocked; otherwise a free row at the smallest unblocked offset, never negative when above, and above only when the row below at that offset is taken |
| DragAndDrop.FindFreeRow | src/composables/useDragAndDrop.ts:137-152 | the offset loop with its breaks computes FreeRowFrom from offset 1 |
| DragAndDrop.ChordDropDecision | src/composables/useDragAndDrop.ts:73-160 | the drop is ignored exactly when the id attribute is absent or empty or no chord has it; otherwise the source is the first chord with the id; a move goes to the drop column, to the drop row or a free row; a swap partner sits at the drop cell in the drop column with another id |
| DragAndDrop.DropChoosesByOccupancy | src/composables/useDragAndDrop.ts:107-159 | a free drop cell gives a move there; a taken one gives a swap with the first occupant of the drop column, or else a move to the nearest free row |
| DragAndDrop.DecideChordDrop | src/composables/useDragAndDrop.ts:74-159 | the search loops with their breaks make exactly ChordDropDecision |
| DragAndDrop.OnChordDrop | src/composables/useDragAndDrop.ts:73-160 | the board becomes the move or swap the decision names, with one save unless the drop is ignored |
| DragAndDrop.FallbackIsDead | src/composables/useDragAndDrop.ts:107-155 | when chords sit in their own columns, the drop cell is taken exactly when the drop column has an occupant, so the free-row fallback is never reached |
| DragAndDrop.FallbackAfterColumnMove | src/composables/useDragAndDrop.ts:107-159 | on a concrete board whose chords are not in their own columns, the fallback is reached and moves the chord to the next row |
| DragAndDrop.SwapSlotsDiffer | src/composables/useDragAndDrop.ts:115-131 | a swap the handler chooses always involves two different slots |
| DragAndDrop.DropKeepsChordCount | src/composables/useDragAndDrop.ts:73-160 | a chord drop never adds or loses a chord |
| DragAndDrop.DropKeepsPlacement | src/composables/useDragAndDrop.ts:73-160 | a chord drop keeps chords in their own columns and ids and cells unique |
| DragAndDrop.ColumnDropDecision | src/composables/useDragAndDrop.ts:174-193 | moveColumn(index, floor(x/220)) is called exactly when the id attribute is non-empty, the parsed index is neither -1 nor past the last column, and the target differs from it |
| DragAndDrop.OnColumnDrop | src/composables/useDragAndDrop.ts:174-193 | an ignored drop leaves the board alone; a drop that passes the guards throws exactly on an empty board, with no save; otherwise the board becomes ColumnMoved for that pair, with one save |
| DragAndDrop.ColumnDropOnEmptyBoardThrows | src/composables/useDragAndDrop.ts:178-179 | on an empty board the index -2 passes both guards (it is neither -1 nor at or past the length), and the move it asks for throws |
| DragAndDrop.ColumnDropKeepsBoard | src/composables/useDragAndDrop.ts:174-193 | a column drop keeps the length and the chords and numbers every column by its position |
| ChordSearch.MatchesClassRepeat | src/composables/useChordSearch.ts:75-76 | a string matches the class n times exactly when it has n characters, all in the class |
| ChordSearch.IsFingeringPattern | src/composables/useChordSearch.ts:73-77 | true exactly for six characters, each a digit or a lower-case ASCII letter |
| ChordSearch.FingeringExamples | src/composables/useChordSearch.ts:73-77 | "x32010" matches; a short, a long and an upper-case input do not |
| ChordSearch.NextIndex | src/composables/useChordSearch.ts:56 | ArrowDown stays in range and wraps from the last suggestion to the first |
| ChordSearch.PrevIndex | src/composables/useChordSearch.ts:60 | ArrowUp stays in range and wraps from the first suggestion to the last |
| ChordSearch.NavigationRoundTrip | src/composables/useChordSearch.ts:54-61 | Down then Up, and Up then Down, restore the selection |
| ChordSearch.SearchUpdate | src/composables/useChordSearch.ts:18-47 | at most five suggestions, a prefix of the results; shown exactly when non-empty; "no results" exactly for a non-blank query answered with an empty list; never both; a blank query or an error clears everything |
| ChordSearch.SearchBox.FetchSuggestions | src/composables/useChordSearch.ts:18-47 | the box takes the SearchUpdate state, the selection is reset to 0 only by an answered query, and the box invariant is kept |
| ChordSearch.SearchBox.HandleKeyDown | src/composables/useChordSearch.ts:50-70 | nothing changes while hidden; Down and Up move the selection by NextIndex and PrevIndex; Escape hides the list only; Enter changes nothing; the box invariant is kept |
| ChordSearch.SearchBox.ClearSearchState | src/composables/useChordSearch.ts:80-85 | the list is emptied, the selection is 0, both flags are off |

## Findings

| source | as written | input that shows it | evidently intended | confidence | as-written member | corrected member |
|---|---|---|---|---|---|---|
| src/composables/useChordManagement.ts:76-82 | `return` right after the splice skips the save event, which is emitted only when no chord has the id | a board with one column holding chord "c"; removeChord("c") | every call (at least every removal) publishes a save, like moveChord, swapChords and moveColumn | high; not executed | ChordManagement.RemovalGoesUnsaved | ChordManagement.RemoveChordThenSave |

The rest of the model keeps removeChord as written (`ChordManagement.RemoveChord`), because no other composable calls it.

## Left out

- Asynchronous work and timing are left out: the `await`s, `isLoading`, the 300 ms debounce, the Vue `watch`, and the race where a stale search answer arrives after a newer query. Each answer is an argument, folded in when it arrives.
- The network is left out: `fetchChordData` and the suggestion request become the arguments `fetched` and `answer`. The suggestion request `fetchSearchSuggestions` is not part of this model, because src/services/chordserverapi.ts does not define it.
- A rejected fetch promise is left out. Only the ok and error results are modelled.
- Persistence and the event bus are left out: `localStorage`, JSON and the auto-save timer. A published save is a step of `Board.saveRequests`.
- The DOM is left out: draggable registration, cleanup lists, `getAttribute`, bounding rectangles and `clientWidth`. These become integer and `Option` arguments.
- The drop target's captured `columnIndex` is not modelled as possibly stale. `OnChordDrop` requires it to name an existing column. Otherwise the handler would throw on `columns.value[columnIndex]`, or `moveChord` would throw after its splice.
- Pixels are integers. Fractional pointer coordinates are not modelled.
- `parseInt` of a non-numeric `data-column-index` (NaN) is not modelled. The attribute arrives parsed, as `Option<int>`.
- `totalColumnsWidth` returns a number, without the `px` suffix.
- Object aliasing is not modelled. Chords and columns are values. Each chord lives in one column, so value update followed by append matches the source's in-place update. Swapping a slot with itself (which the drop handler never asks for) is outside every swap lemma.
- The occupancy matrix of `findEmptyGridPosition` is not built, because nothing reads it. Only whether filling it throws is kept, as `MarkingThrows`.
- `ColumnManagement.AddColumn`: a negative `index` is not modelled. The argument is a `nat`, and the only caller passes the current length.
- `ColumnManagement.MoveColumn`: after the TypeError the source's list holds `undefined` at the target position, and the columns before it are renumbered. A column list cannot hold `undefined`, so when `thrown` is set the model states nothing about the columns. It states only that no save is published.
- `DragAndDrop.OnColumnDrop`: when it throws, the columns are unspecified for the same reason.
- `GridCalculations.FindEmptyGridPosition`: the grid counts are `nat` (the fields of `GridDimensions` too), because they start at 0 and are ceilings of client sizes. The `RangeError` that `Array(n)` raises for a negative count therefore cannot arise, and is not modelled.
