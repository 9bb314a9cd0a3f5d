/** Column ordering: insertion with renumbering, growth of the board to the
    visible width, renumbering, and column moves with list-splice semantics
    (src/composables/useColumnManagement.ts). */
module ColumnManagement {
  import opened ChordBoard
  import opened GridCalculations

  /** `s.splice(p, 0, x)` for a start inside the list. */
  function InsertAt<T>(s: seq<T>, p: nat, x: T): (r: seq<T>)
    requires p <= |s|
    ensures |r| == |s| + 1 && r[p] == x
    ensures multiset(r) == multiset(s) + multiset{x}
    ensures forall j :: 0 <= j < p ==> r[j] == s[j]
    ensures forall j :: p < j < |r| ==> r[j] == s[j - 1]
  {
    assert s == s[..p] + s[p..];
    s[..p] + [x] + s[p..]
  }

  /** Sets the `index` field of every column at or after position `from` to
      its position; the ids, the chords and the other indexes are kept. */
  function RenumberedFrom(cols: seq<Column>, from: int): (r: seq<Column>)
    ensures |r| == |cols|
    ensures forall j :: 0 <= j < |r| ==> r[j].id == cols[j].id && r[j].chords == cols[j].chords
    ensures forall j :: 0 <= j < |r| ==> r[j].index == if j >= from then j else cols[j].index
  {
    seq(|cols|, j requires 0 <= j < |cols| => if j >= from then cols[j].(index := j) else cols[j])
  }

  /** The board after addColumn(index): the new empty column, whose `index`
      field is the argument, is spliced in (at the end when index is past
      it), and the columns after `index` are renumbered. */
  function ColumnInserted(cols: seq<Column>, index: nat, id: string): seq<Column> {
    RenumberedFrom(InsertAt(cols, Min(index, |cols|), Column(id, index, [])), index + 1)
  }

  /** addColumn, with the id that generateId would produce. */
  method AddColumn(board: Board, index: nat, newId: string)
    modifies board
    ensures board.columns == ColumnInserted(old(board.columns), index, newId)
    ensures board.saveRequests == old(board.saveRequests)
  {
    var newColumn := Column(newId, index, []);
    var start := if index <= |board.columns| then index else |board.columns|;
    board.columns := InsertAt(board.columns, start, newColumn);
    ghost var inserted := board.columns;
    var i := index + 1;
    while i < |board.columns|
      invariant |board.columns| == |inserted|
      invariant forall j :: 0 <= j < |inserted| ==>
                  board.columns[j] == if index + 1 <= j < i then inserted[j].(index := j) else inserted[j]
      invariant i >= |board.columns| ==> i == index + 1 || i == |board.columns|
      invariant board.saveRequests == old(board.saveRequests)
    {
      board.columns := board.columns[i := board.columns[i].(index := i)];
      i := i + 1;
    }
    assert board.columns == RenumberedFrom(inserted, index + 1);
  }

  /** addColumn inserts one empty column with the requested `index` at
      min(index, length), leaves the columns before it alone and shifts the
      ones after it by one place, renumbering them. */
  lemma AddColumnShape(cols: seq<Column>, index: nat, id: string)
    ensures var r := ColumnInserted(cols, index, id);
            var p := Min(index, |cols|);
            && |r| == |cols| + 1
            && r[p] == Column(id, index, [])
            && (forall j :: 0 <= j < p ==> r[j] == cols[j])
            && (forall j :: p < j < |r| ==> r[j] == cols[j - 1].(index := j))
  {
    var p := Min(index, |cols|);
    var ins := InsertAt(cols, p, Column(id, index, []));
    var r := ColumnInserted(cols, index, id);
    forall j | p < j < |r| ensures r[j] == cols[j - 1].(index := j) {
      assert r[j].index == j && r[j].id == ins[j].id && r[j].chords == ins[j].chords;
    }
  }

  /** Renumbering after the insertion puts every column after the new one at
      its position; when the board was numbered by position, it stays so
      exactly when the index is not past the end. */
  lemma AddColumnKeepsIndexes(cols: seq<Column>, index: nat, id: string)
    requires IndexesMatchPositions(cols)
    ensures IndexesMatchPositions(ColumnInserted(cols, index, id)) <==> index <= |cols|
  {
    AddColumnShape(cols, index, id);
    var r := ColumnInserted(cols, index, id);
    if index > |cols| {
      assert r[|cols|].index == index;
    }
  }

  /** Inserting a column adds its chords to the board. */
  lemma {:induction false} BagInsertColumn(cols: seq<Column>, p: nat, c: Column)
    requires p <= |cols|
    ensures BoardBag(InsertAt(cols, p, c)) == BoardBag(cols) + multiset(c.chords)
  {
    var r := InsertAt(cols, p, c);
    if p == 0 {
      assert r[0] == c && r[1..] == cols;
    } else {
      assert r[0] == cols[0];
      assert r[1..] == InsertAt(cols[1..], p - 1, c);
      BagInsertColumn(cols[1..], p - 1, c);
    }
  }

  /** Removing a column takes its chords off the board. */
  lemma {:induction false} BagRemoveColumn(cols: seq<Column>, k: nat)
    requires k < |cols|
    ensures BoardBag(RemoveAt(cols, k)) + multiset(cols[k].chords) == BoardBag(cols)
  {
    var r := RemoveAt(cols, k);
    if k == 0 {
      assert r == cols[1..];
    } else {
      assert r[0] == cols[0];
      assert r[1..] == RemoveAt(cols[1..], k - 1);
      BagRemoveColumn(cols[1..], k - 1);
    }
  }

  /** addColumn adds no chord and loses none. */
  lemma AddColumnKeepsChords(cols: seq<Column>, index: nat, id: string)
    ensures BoardBag(ColumnInserted(cols, index, id)) == BoardBag(cols)
  {
    var p := Min(index, |cols|);
    BoardBagSameChords(ColumnInserted(cols, index, id), InsertAt(cols, p, Column(id, index, [])));
    BagInsertColumn(cols, p, Column(id, index, []));
  }

  /** Appending at the end needs no renumbering. */
  lemma AddColumnAtEnd(cols: seq<Column>, id: string)
    ensures ColumnInserted(cols, |cols|, id) == cols + [Column(id, |cols|, [])]
  {
    AddColumnShape(cols, |cols|, id);
  }

  /** A column inserted before a chord's column moves the chord one column to
      the right without touching its coordinate: afterwards the chord no
      longer sits in the column its coordinate names. */
  lemma AddColumnBreaksOwnColumn()
    ensures var chord := Chord("c", ChordData("C", "major", []), Pixel(0, 0), Cell(0, 0), None);
            var cols := [Column("a", 0, [chord])];
            ChordsInOwnColumn(cols) && !ChordsInOwnColumn(ColumnInserted(cols, 0, "b"))
  {
    var chord := Chord("c", ChordData("C", "major", []), Pixel(0, 0), Cell(0, 0), None);
    var cols := [Column("a", 0, [chord])];
    AddColumnShape(cols, 0, "b");
    assert ColumnInserted(cols, 0, "b")[1].chords[0] == chord;
  }

  /** The board after adjustColumnCount: empty columns, numbered by position
      and named by the fresh ids in order, appended until `desired` columns
      exist. */
  function Grown(cols: seq<Column>, desired: int, ids: seq<string>): (r: seq<Column>)
    requires |ids| >= desired - |cols|
    ensures |r| == Max(|cols|, desired) && r[..|cols|] == cols
  {
    cols + seq(Max(0, desired - |cols|), k requires 0 <= k < Max(0, desired - |cols|) => Column(ids[k], |cols| + k, []))
  }

  /** adjustColumnCount, with the ids that generateId would produce in
      order. */
  method AdjustColumnCount(board: Board, gridColumns: int, freshIds: seq<string>)
    requires |freshIds| >= Max(3, gridColumns) - |board.columns|
    modifies board
    ensures board.columns == Grown(old(board.columns), Max(3, gridColumns), freshIds)
    ensures board.saveRequests == old(board.saveRequests)
  {
    var desiredColumnCount := Max(3, gridColumns);
    ghost var start := board.columns;
    var n := 0;
    GrownNone(start, |start|, freshIds);
    while |board.columns| < desiredColumnCount
      invariant |start| + n <= Max(|start|, desiredColumnCount)
      invariant board.columns == Grown(start, |start| + n, freshIds)
      invariant board.saveRequests == old(board.saveRequests)
      decreases desiredColumnCount - |board.columns|
    {
      AddColumnAtEnd(board.columns, freshIds[n]);
      GrownStep(start, n, freshIds);
      AddColumn(board, |board.columns|, freshIds[n]);
      n := n + 1;
    }
    if n == 0 {
      GrownNone(start, desiredColumnCount, freshIds);
    }
  }

  /** Growing to a size the board already has adds nothing. */
  lemma GrownNone(cols: seq<Column>, desired: int, ids: seq<string>)
    requires desired <= |cols|
    ensures Grown(cols, desired, ids) == cols
  {
    assert Grown(cols, desired, ids) == Grown(cols, desired, ids)[..|cols|];
  }

  /** One more fresh column is the next step of the growth. */
  lemma GrownStep(cols: seq<Column>, n: nat, ids: seq<string>)
    requires n < |ids|
    ensures Grown(cols, |cols| + n + 1, ids) == Grown(cols, |cols| + n, ids) + [Column(ids[n], |cols| + n, [])]
  {
  }

  /** adjustColumnCount leaves at least max(3, gridColumns) columns, never
      removes or changes an existing column, and changes nothing when the
      board is long enough already. */
  lemma AdjustReachesDesired(cols: seq<Column>, gridColumns: int, ids: seq<string>)
    requires |ids| >= Max(3, gridColumns) - |cols|
    ensures var r := Grown(cols, Max(3, gridColumns), ids);
            && |r| == Max(|cols|, Max(3, gridColumns))
            && |r| >= 3 && |r| >= gridColumns
            && r[..|cols|] == cols
            && (|cols| >= Max(3, gridColumns) ==> r == cols)
  {
    var r := Grown(cols, Max(3, gridColumns), ids);
    assert r[..|cols|] == cols;
  }

  /** Growing keeps indexes equal to positions, chords in their own columns
      and the chords on the board. */
  lemma AdjustKeepsInvariants(cols: seq<Column>, desired: int, ids: seq<string>)
    requires |ids| >= desired - |cols|
    ensures IndexesMatchPositions(cols) ==> IndexesMatchPositions(Grown(cols, desired, ids))
    ensures ChordsInOwnColumn(cols) ==> ChordsInOwnColumn(Grown(cols, desired, ids))
    ensures BoardBag(Grown(cols, desired, ids)) == BoardBag(cols)
  {
    var r := Grown(cols, desired, ids);
    forall j | 0 <= j < |r|
      ensures r[j] == if j < |cols| then cols[j] else Column(ids[j - |cols|], j, [])
    {
      GrownAt(cols, desired, ids, j);
    }
    GrownKeepsChords(cols, desired, ids);
  }

  /** Position j of the grown board: an old column, or the fresh empty
      column numbered j. */
  lemma GrownAt(cols: seq<Column>, desired: int, ids: seq<string>, j: nat)
    requires |ids| >= desired - |cols| && j < |Grown(cols, desired, ids)|
    ensures Grown(cols, desired, ids)[j] == if j < |cols| then cols[j] else Column(ids[j - |cols|], j, [])
  {
  }

  /** The columns growth appends hold no chord. */
  lemma GrownKeepsChords(cols: seq<Column>, desired: int, ids: seq<string>)
    requires |ids| >= desired - |cols|
    ensures BoardBag(Grown(cols, desired, ids)) == BoardBag(cols)
  {
    var added := seq(Max(0, desired - |cols|), k requires 0 <= k < Max(0, desired - |cols|) => Column(ids[k], |cols| + k, []));
    BoardBagConcat(cols, added);
    BoardBagSameChords(added, seq(|added|, k => Column("", 0, [])));
    EmptyColumnsBag(|added|);
  }

  /** Empty columns hold no chord. */
  lemma {:induction false} EmptyColumnsBag(n: nat)
    ensures BoardBag(seq(n, k => Column("", 0, []))) == multiset{}
  {
    if n > 0 {
      assert seq(n, k => Column("", 0, []))[1..] == seq(n - 1, k => Column("", 0, []));
      EmptyColumnsBag(n - 1);
    }
  }

  /** updateColumnIndices. */
  method UpdateColumnIndices(board: Board)
    modifies board
    ensures board.columns == RenumberedFrom(old(board.columns), 0)
    ensures board.saveRequests == old(board.saveRequests)
  {
    var i := 0;
    while i < |board.columns|
      invariant 0 <= i <= |board.columns| == |old(board.columns)|
      invariant forall j :: 0 <= j < |board.columns| ==>
                  board.columns[j] == if j < i then old(board.columns)[j].(index := j) else old(board.columns)[j]
      invariant board.saveRequests == old(board.saveRequests)
    {
      board.columns := board.columns[i := board.columns[i].(index := i)];
      i := i + 1;
    }
    assert board.columns == RenumberedFrom(old(board.columns), 0);
  }

  /** The two splices of moveColumn: the column at `from` is taken out and
      put back at `to` in the shortened list (both starts clamped, negative
      ones counted from the end). */
  function Reordered(cols: seq<Column>, from: int, to: int): seq<Column>
    requires 0 < |cols| && from < |cols|
  {
    var s := SpliceStart(from, |cols|);
    InsertAt(RemoveAt(cols, s), SpliceStart(to, |cols| - 1), cols[s])
  }

  /** moveColumn throws when the source position holds no column (an empty
      board, or a start at or past the end): the first splice then takes
      nothing, `undefined` is spliced in, and the renumbering assigns to its
      `index` and raises a TypeError. */
  predicate MoveColumnThrows(cols: seq<Column>, from: int, to: int) {
    from != to && (|cols| == 0 || from >= |cols|)
  }

  /** The board after a moveColumn that does not throw. */
  function ColumnMoved(cols: seq<Column>, from: int, to: int): seq<Column>
    requires !MoveColumnThrows(cols, from, to)
  {
    if from == to then cols else RenumberedFrom(Reordered(cols, from, to), 0)
  }

  /** moveColumn; `thrown` reports the TypeError, after which no save is
      published. */
  method MoveColumn(board: Board, fromIndex: int, toIndex: int) returns (thrown: bool)
    modifies board
    ensures thrown <==> MoveColumnThrows(old(board.columns), fromIndex, toIndex)
    ensures !thrown ==> board.columns == ColumnMoved(old(board.columns), fromIndex, toIndex)
    ensures board.saveRequests == old(board.saveRequests) + if fromIndex == toIndex || thrown then 0 else 1
  {
    thrown := false;
    if fromIndex == toIndex {
      return;
    }
    if |board.columns| == 0 || fromIndex >= |board.columns| {
      thrown := true;
      return;
    }
    var columns := board.columns;
    var start := SpliceStart(fromIndex, |columns|);
    var movedColumn := columns[start];
    var remaining := RemoveAt(columns, start);
    assert |remaining| == |columns| - 1;
    board.columns := InsertAt(remaining, SpliceStart(toIndex, |remaining|), movedColumn);
    UpdateColumnIndices(board);
    board.saveRequests := board.saveRequests + 1;
  }

  /** The two splices of a column move only permute the columns. */
  lemma MoveColumnPermutes(cols: seq<Column>, from: int, to: int)
    requires 0 < |cols| && from < |cols|
    ensures |Reordered(cols, from, to)| == |cols|
    ensures multiset(Reordered(cols, from, to)) == multiset(cols)
  {
    var s := SpliceStart(from, |cols|);
    var removed := RemoveAt(cols, s);
    assert multiset(removed) == multiset(cols) - multiset{cols[s]};
    assert cols[s] in multiset(cols);
  }

  /** After the splices, moveColumn renumbers every column: the columns'
      ids and chords are those of the permuted list and every index equals
      its position. */
  lemma MoveColumnRenumbers(cols: seq<Column>, from: int, to: int)
    requires 0 < |cols| && from < |cols| && from != to
    ensures var r := ColumnMoved(cols, from, to);
            && |r| == |cols|
            && (forall j :: 0 <= j < |r| ==> r[j] == Reordered(cols, from, to)[j].(index := j))
            && IndexesMatchPositions(r)
  {
    var r := ColumnMoved(cols, from, to);
    var re := Reordered(cols, from, to);
    MoveColumnPermutes(cols, from, to);
    forall j | 0 <= j < |r| ensures r[j] == re[j].(index := j) {
      assert r[j].id == re[j].id && r[j].chords == re[j].chords && r[j].index == j;
    }
  }

  /** A column move keeps the chords on the board. */
  lemma MoveColumnKeepsChords(cols: seq<Column>, from: int, to: int)
    requires 0 < |cols| && from < |cols| && from != to
    ensures BoardBag(ColumnMoved(cols, from, to)) == BoardBag(cols)
  {
    var s := SpliceStart(from, |cols|);
    var removed := RemoveAt(cols, s);
    BoardBagSameChords(ColumnMoved(cols, from, to), Reordered(cols, from, to));
    BagRemoveColumn(cols, s);
    BagInsertColumn(removed, SpliceStart(to, |cols| - 1), cols[s]);
  }

  /** Every column id on the board after a move was on it before. */
  lemma MoveColumnKeepsIds(cols: seq<Column>, from: int, to: int, j: nat)
    requires 0 < |cols| && from < |cols| && from != to && j < |cols|
    ensures exists k :: 0 <= k < |cols| && cols[k].id == ColumnMoved(cols, from, to)[j].id
                                        && cols[k].chords == ColumnMoved(cols, from, to)[j].chords
  {
    var re := Reordered(cols, from, to);
    MoveColumnPermutes(cols, from, to);
    assert re[j] in multiset(cols);
    var k :| 0 <= k < |cols| && cols[k] == re[j];
  }

  /** Every column id on the board before a move is on it afterwards. */
  lemma MoveColumnLosesNoId(cols: seq<Column>, from: int, to: int, k: nat)
    requires 0 < |cols| && from < |cols| && from != to && k < |cols|
    ensures exists j :: 0 <= j < |cols| && ColumnMoved(cols, from, to)[j].id == cols[k].id
                                        && ColumnMoved(cols, from, to)[j].chords == cols[k].chords
  {
    var re := Reordered(cols, from, to);
    MoveColumnPermutes(cols, from, to);
    assert cols[k] in multiset(cols);
    var j := IndexOfMember(re, cols[k]);
    MoveColumnRenumbers(cols, from, to);
    assert ColumnMoved(cols, from, to)[j] == cols[k].(index := j);
  }

  /** An element of a list's multiset sits at some position of the list. */
  lemma IndexOfMember<T>(s: seq<T>, x: T) returns (j: nat)
    requires x in multiset(s)
    ensures j < |s| && s[j] == x
  {
    assert x in s;
    j :| 0 <= j < |s| && s[j] == x;
  }

  /** Where a column comes from after moving the column at `from` to `to`,
      both inside the board: the target slot takes the moved column and the
      columns in between shift one place towards the source. */
  function MovedFrom(from: nat, to: nat, j: nat): nat {
    if j == to then from
    else if from < to && from <= j < to then j + 1
    else if to < from && to < j <= from then j - 1
    else j
  }

  /** The two splices put at one position the column MovedFrom names. */
  lemma ReorderedAt(cols: seq<Column>, from: nat, to: nat, j: nat)
    requires from < |cols| && to < |cols| && from != to && j < |cols|
    ensures MovedFrom(from, to, j) < |cols| && Reordered(cols, from, to)[j] == cols[MovedFrom(from, to, j)]
  {
    assert SpliceStart(from, |cols|) == from && SpliceStart(to, |cols| - 1) == to;
    TakeAndPutAt(cols, from, to, j);
  }

  /** Taking the element at `from` out and putting it back at `to` leaves at
      position j the element MovedFrom names. */
  lemma TakeAndPutAt<T>(s: seq<T>, from: nat, to: nat, j: nat)
    requires from < |s| && to < |s| && j < |s|
    ensures MovedFrom(from, to, j) < |s| && InsertAt(RemoveAt(s, from), to, s[from])[j] == s[MovedFrom(from, to, j)]
  {
    var removed := RemoveAt(s, from);
    var r := InsertAt(removed, to, s[from]);
    if j < to {
      assert r[j] == removed[j];
    } else if j > to {
      assert r[j] == removed[j - 1];
    }
  }

  /** For positions inside the board, a move puts at every position the
      column MovedFrom names, renumbered. */
  lemma MoveColumnPlacement(cols: seq<Column>, from: nat, to: nat)
    requires from < |cols| && to < |cols| && from != to
    ensures var r := ColumnMoved(cols, from, to);
            forall j :: 0 <= j < |cols| ==> MovedFrom(from, to, j) < |cols|
                                            && r[j] == cols[MovedFrom(from, to, j)].(index := j)
  {
    MoveColumnRenumbers(cols, from, to);
    forall j | 0 <= j < |cols|
      ensures MovedFrom(from, to, j) < |cols| && ColumnMoved(cols, from, to)[j] == cols[MovedFrom(from, to, j)].(index := j)
    {
      ReorderedAt(cols, from, to, j);
    }
  }

  /** Moving the first of four columns to position 2 gives the order
      second, third, first, fourth, renumbered. */
  lemma MoveColumnExample(a: string, b: string, c: string, d: string)
    ensures var cols := [Column(a, 0, []), Column(b, 1, []), Column(c, 2, []), Column(d, 3, [])];
            var r := ColumnMoved(cols, 0, 2);
            && |r| == 4
            && r[0] == Column(b, 0, []) && r[1] == Column(c, 1, [])
            && r[2] == Column(a, 2, []) && r[3] == Column(d, 3, [])
  {
    var cols := [Column(a, 0, []), Column(b, 1, []), Column(c, 2, []), Column(d, 3, [])];
    MoveColumnRenumbers(cols, 0, 2);
    ReorderedAt(cols, 0, 2, 0);
    ReorderedAt(cols, 0, 2, 1);
    ReorderedAt(cols, 0, 2, 2);
    ReorderedAt(cols, 0, 2, 3);
  }

  /** A column move carries the chords along without touching their
      coordinates, so they no longer sit in the column their coordinate
      names. */
  lemma MoveColumnBreaksOwnColumn()
    ensures var chord := Chord("c", ChordData("C", "major", []), Pixel(0, 0), Cell(0, 0), None);
            var cols := [Column("a", 0, [chord]), Column("b", 1, [])];
            ChordsInOwnColumn(cols) && !ChordsInOwnColumn(ColumnMoved(cols, 0, 1))
  {
    var chord := Chord("c", ChordData("C", "major", []), Pixel(0, 0), Cell(0, 0), None);
    var cols := [Column("a", 0, [chord]), Column("b", 1, [])];
    MoveColumnRenumbers(cols, 0, 1);
    ReorderedAt(cols, 0, 1, 1);
    assert ColumnMoved(cols, 0, 1)[1].chords[0] == chord;
  }
}
