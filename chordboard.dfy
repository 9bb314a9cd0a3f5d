/** The data model of the chord pin-board: grid constants, chords, columns,
    the board that the composables share, and the invariants the board
    operations are proved to keep. */
module ChordBoard {

  /** Size of one grid cell in pixels. */
  const CellWidth: int := 220
  const CellHeight: int := 280

  datatype Option<T> = None | Some(value: T) {
    function GetOr(default: T): T {
      match this
      case Some(v) => v
      case None => default
    }
  }

  /** Chord data as the chord server returns it; the board only carries it. */
  datatype Fingering = Fingering(frets: string, fingers: string, barres: Option<string>, capo: Option<string>)
  datatype ChordData = ChordData(key: string, suffix: string, positions: seq<Fingering>)

  datatype Cell = Cell(row: int, col: int)
  datatype Pixel = Pixel(x: int, y: int)

  /** A chord pinned to the board; `selectedFingering` is absent on chords
      created by auto-placement. */
  datatype Chord = Chord(id: string, chord: ChordData, position: Pixel, gridPosition: Cell,
                         selectedFingering: Option<int>)

  datatype Column = Column(id: string, index: int, chords: seq<Chord>)

  /** The reactive list of columns shared by all composables, together with
      the number of save requests published on the event bus. */
  class Board {
    var columns: seq<Column>
    var saveRequests: nat

    constructor (columns: seq<Column>)
      ensures this.columns == columns && saveRequests == 0
    {
      this.columns := columns;
      saveRequests := 0;
    }
  }

  // ---------------------------------------------------------------------
  // Strings

  /** The characters String.prototype.trim removes at either end: the
      white space (tab, vertical tab, form feed, the byte-order mark and the
      space separators) and the line terminators. */
  predicate IsWhitespace(c: char) {
    || c == '\t' || c == '\U{B}' || c == '\U{C}' || c == '\U{FEFF}'
    || c == ' ' || c == '\U{A0}' || c == '\U{1680}' || ('\U{2000}' <= c <= '\U{200A}')
    || c == '\U{202F}' || c == '\U{205F}' || c == '\U{3000}'
    || c == '\n' || c == '\r' || c == '\U{2028}' || c == '\U{2029}'
  }

  /** The string without its leading whitespace. */
  function TrimStart(s: string): (r: string)
    ensures |r| <= |s| && r == s[|s| - |r|..]
    ensures forall i :: 0 <= i < |s| - |r| ==> IsWhitespace(s[i])
    ensures r == [] || !IsWhitespace(r[0])
  {
    if |s| > 0 && IsWhitespace(s[0]) then TrimStart(s[1..]) else s
  }

  /** The string without its trailing whitespace. */
  function TrimEnd(s: string): (r: string)
    ensures |r| <= |s| && r == s[..|r|]
    ensures forall i :: |r| <= i < |s| ==> IsWhitespace(s[i])
    ensures r == [] || !IsWhitespace(r[|r| - 1])
  {
    if |s| > 0 && IsWhitespace(s[|s| - 1]) then TrimEnd(s[..|s| - 1]) else s
  }

  /** `s.trim()`: a piece of s that neither starts nor ends with whitespace,
      and only whitespace is cut off around it; nothing is left exactly when
      s is all whitespace. */
  function Trim(s: string): (r: string)
    ensures var k := |s| - |TrimStart(s)|;
            && k + |r| <= |s| && r == s[k..k + |r|]
            && (forall i :: 0 <= i < k || k + |r| <= i < |s| ==> IsWhitespace(s[i]))
    ensures r == [] || (!IsWhitespace(r[0]) && !IsWhitespace(r[|r| - 1]))
    ensures r == [] <==> forall i :: 0 <= i < |s| ==> IsWhitespace(s[i])
  {
    var t := TrimStart(s);
    var r := TrimEnd(t);
    PrefixOfSuffix(s, t, r);
    r
  }

  /** A prefix r of a suffix t of s is the slice of s starting where t
      does. */
  lemma PrefixOfSuffix<T>(s: seq<T>, t: seq<T>, r: seq<T>)
    requires |t| <= |s| && t == s[|s| - |t|..] && |r| <= |t| && r == t[..|r|]
    ensures var k := |s| - |t|;
            && r == s[k..k + |r|]
            && (forall i :: k <= i < |s| ==> s[i] == t[i - k])
            && (r != [] ==> s[k] == r[0])
  {
  }

  /** `!s.trim()`: the string is empty once trimmed, which is exactly when
      every character of it is whitespace. */
  function IsBlank(s: string): (b: bool)
    ensures b <==> forall i :: 0 <= i < |s| ==> IsWhitespace(s[i])
  {
    Trim(s) == []
  }

  // ---------------------------------------------------------------------
  // Array.prototype.splice and findIndex on sequences

  /** `s.splice(k, 1)` for a non-negative start: removes the element at k,
      or nothing when k is past the end. */
  function RemoveAt<T>(s: seq<T>, k: nat): (r: seq<T>)
    ensures k < |s| ==> |r| == |s| - 1 && multiset(r) == multiset(s) - multiset{s[k]}
    ensures k < |s| ==> forall j :: 0 <= j < |r| ==> r[j] == if j < k then s[j] else s[j + 1]
    ensures k >= |s| ==> r == s
  {
    if k < |s| then
      assert s == s[..k] + [s[k]] + s[k + 1..];
      s[..k] + s[k + 1..]
    else s
  }

  /** The position where `splice(k, ...)` starts on a list of length len:
      a negative start counts from the end, and both ends are clamped. */
  function SpliceStart(k: int, len: nat): (s: nat)
    ensures s <= len
    ensures 0 <= k <= len ==> s == k
    ensures k > len ==> s == len
    ensures k < 0 ==> s == if len + k < 0 then 0 else len + k
  {
    if k < 0 then (if len + k < 0 then 0 else len + k)
    else if k > len then len
    else k
  }

  /** `chords.findIndex(c => c.id === id)`. */
  function FirstIndexOf(chords: seq<Chord>, id: string): (k: int)
    ensures -1 <= k < |chords|
    ensures k >= 0 ==> chords[k].id == id
    ensures forall j :: 0 <= j < |chords| && (k == -1 || j < k) ==> chords[j].id != id
  {
    if |chords| == 0 then -1
    else if chords[0].id == id then 0
    else
      var k := FirstIndexOf(chords[1..], id);
      if k == -1 then -1 else k + 1
  }

  /** The first column, at or after `from`, that holds a chord with this id,
      and that chord's first index in it. */
  function FindChordFrom(cols: seq<Column>, id: string, from: nat): (r: Option<(nat, nat)>)
    requires from <= |cols|
    decreases |cols| - from
    ensures r.Some? ==> from <= r.value.0 < |cols| && r.value.1 < |cols[r.value.0].chords|
    ensures r.Some? ==> r.value.1 == FirstIndexOf(cols[r.value.0].chords, id)
    ensures forall i, k :: from <= i < |cols| && 0 <= k < |cols[i].chords| && (r.None? || i < r.value.0)
              ==> cols[i].chords[k].id != id
  {
    if from == |cols| then None
    else
      var k := FirstIndexOf(cols[from].chords, id);
      if k >= 0 then Some((from, k)) else FindChordFrom(cols, id, from + 1)
  }

  /** The search of removeChord and of the chord drop handler. */
  function FindChord(cols: seq<Column>, id: string): Option<(nat, nat)> {
    FindChordFrom(cols, id, 0)
  }

  // ---------------------------------------------------------------------
  // Board views and invariants

  /** Every chord on the board, with multiplicity. */
  function BoardBag(cols: seq<Column>): multiset<Chord> {
    if cols == [] then multiset{} else multiset(cols[0].chords) + BoardBag(cols[1..])
  }

  /** Number of chords on the board. */
  function ChordCount(cols: seq<Column>): nat {
    if cols == [] then 0 else |cols[0].chords| + ChordCount(cols[1..])
  }

  /** A chord's column coordinate names the column that holds it. */
  predicate ChordsInOwnColumn(cols: seq<Column>) {
    forall i, k :: 0 <= i < |cols| && 0 <= k < |cols[i].chords| ==> cols[i].chords[k].gridPosition.col == i
  }

  /** No chord occurs twice in the multiset, and no two of its chords share
      an id or a cell. */
  ghost predicate Unique(b: multiset<Chord>) {
    && (forall c :: b[c] <= 1)
    && (forall c, d :: c in b && d in b && (c.id == d.id || c.gridPosition == d.gridPosition) ==> c == d)
  }

  /** No chord is on the board twice, and no two chords share an id or a cell. */
  ghost predicate UniqueIdsAndCells(cols: seq<Column>) {
    Unique(BoardBag(cols))
  }

  /** Every column's `index` equals its position in the board. */
  predicate IndexesMatchPositions(cols: seq<Column>) {
    forall j :: 0 <= j < |cols| ==> cols[j].index == j
  }

  /** Replaces the chord list of column i. */
  function WithChords(cols: seq<Column>, i: nat, chords: seq<Chord>): (r: seq<Column>)
    requires i < |cols|
    ensures |r| == |cols| && r[i].chords == chords && r[i].id == cols[i].id && r[i].index == cols[i].index
    ensures forall j :: 0 <= j < |cols| && j != i ==> r[j] == cols[j]
  {
    cols[i := cols[i].(chords := chords)]
  }

  // ---------------------------------------------------------------------
  // Lemmas about the board views

  /** A chord is in the board's bag exactly when some column holds it. */
  lemma {:induction false} InBoardBag(cols: seq<Column>, c: Chord)
    ensures c in BoardBag(cols) <==> exists i, k :: 0 <= i < |cols| && 0 <= k < |cols[i].chords| && cols[i].chords[k] == c
  {
    if cols != [] {
      InBoardBag(cols[1..], c);
      if c in BoardBag(cols[1..]) {
        var i, k :| 0 <= i < |cols[1..]| && 0 <= k < |cols[1..][i].chords| && cols[1..][i].chords[k] == c;
        assert cols[i + 1].chords[k] == c;
      }
      if exists i, k :: 0 <= i < |cols| && 0 <= k < |cols[i].chords| && cols[i].chords[k] == c {
        var i, k :| 0 <= i < |cols| && 0 <= k < |cols[i].chords| && cols[i].chords[k] == c;
        if i == 0 {
          assert c in multiset(cols[0].chords);
        } else {
          assert cols[1..][i - 1].chords[k] == c;
        }
      }
    }
  }

  /** Replacing one column's chords replaces its share of the bag. */
  lemma {:induction false} WithChordsBag(cols: seq<Column>, i: nat, chords: seq<Chord>)
    requires i < |cols|
    ensures multiset(cols[i].chords) <= BoardBag(cols)
    ensures BoardBag(WithChords(cols, i, chords)) == BoardBag(cols) - multiset(cols[i].chords) + multiset(chords)
  {
    var r := WithChords(cols, i, chords);
    assert BoardBag(cols) == multiset(cols[0].chords) + BoardBag(cols[1..]);
    assert BoardBag(r) == multiset(r[0].chords) + BoardBag(r[1..]);
    if i == 0 {
      assert r[1..] == cols[1..];
    } else {
      assert r[0] == cols[0];
      assert r[1..] == WithChords(cols[1..], i - 1, chords);
      WithChordsBag(cols[1..], i - 1, chords);
    }
  }

  /** Replacing a column's chords by chords of that column's coordinate keeps
      every chord in its own column. */
  lemma WithChordsOwnColumn(cols: seq<Column>, i: nat, chords: seq<Chord>)
    requires i < |cols| && ChordsInOwnColumn(cols)
    requires forall k :: 0 <= k < |chords| ==> chords[k].gridPosition.col == i
    ensures ChordsInOwnColumn(WithChords(cols, i, chords))
  {
  }

  /** Taking chords out keeps a multiset unique. */
  lemma UniqueSub(b: multiset<Chord>, r: multiset<Chord>)
    requires Unique(b) && r <= b
    ensures Unique(r)
  {
    forall c, d | c in r && d in r && (c.id == d.id || c.gridPosition == d.gridPosition)
      ensures c == d
    {
      assert c in b && d in b;
    }
    forall c ensures r[c] <= 1 {
      assert r[c] <= b[c];
    }
  }

  /** Adding a chord whose id and cell no chord of a unique multiset has
      keeps it unique. */
  lemma UniqueAdd(b: multiset<Chord>, c: Chord)
    requires Unique(b)
    requires forall d :: d in b ==> d.id != c.id && d.gridPosition != c.gridPosition
    ensures Unique(b + multiset{c})
  {
    var a := b + multiset{c};
    assert c !in b;
    forall d, e | d in a && e in a && (d.id == e.id || d.gridPosition == e.gridPosition)
      ensures d == e
    {
      if d != c && e != c {
        assert d in b && e in b;
      }
    }
    forall d ensures a[d] <= 1 {
      if d == c {
        assert b[d] == 0;
      } else {
        assert a[d] == b[d];
      }
    }
  }

  /** Replacing one column's chords replaces its share of the chord count. */
  lemma {:induction false} WithChordsCount(cols: seq<Column>, i: nat, chords: seq<Chord>)
    requires i < |cols|
    ensures |cols[i].chords| <= ChordCount(cols)
    ensures ChordCount(WithChords(cols, i, chords)) == ChordCount(cols) - |cols[i].chords| + |chords|
  {
    if i == 0 {
      assert WithChords(cols, i, chords)[1..] == cols[1..];
    } else {
      assert WithChords(cols, i, chords)[1..] == WithChords(cols[1..], i - 1, chords);
      WithChordsCount(cols[1..], i - 1, chords);
    }
  }

  /** Taking one slot out of a column takes exactly that chord off the board. */
  lemma RemoveOneBag(cols: seq<Column>, i: nat, k: nat)
    requires i < |cols| && k < |cols[i].chords|
    ensures BoardBag(WithChords(cols, i, RemoveAt(cols[i].chords, k))) == BoardBag(cols) - multiset{cols[i].chords[k]}
    ensures ChordCount(WithChords(cols, i, RemoveAt(cols[i].chords, k))) == ChordCount(cols) - 1
  {
    var removed := RemoveAt(cols[i].chords, k);
    WithChordsBag(cols, i, removed);
    WithChordsCount(cols, i, removed);
    var m := multiset(cols[i].chords);
    assert cols[i].chords[k] in m;
  }

  /** The bag of a concatenation of boards. */
  lemma {:induction false} BoardBagConcat(a: seq<Column>, b: seq<Column>)
    ensures BoardBag(a + b) == BoardBag(a) + BoardBag(b)
  {
    if a == [] {
      assert a + b == b;
    } else {
      assert (a + b)[0] == a[0];
      assert (a + b)[1..] == a[1..] + b;
      BoardBagConcat(a[1..], b);
    }
  }

  /** Boards whose columns hold the same chords, position by position, hold
      the same chords. */
  lemma {:induction false} BoardBagSameChords(a: seq<Column>, b: seq<Column>)
    requires |a| == |b| && forall j :: 0 <= j < |a| ==> a[j].chords == b[j].chords
    ensures BoardBag(a) == BoardBag(b)
  {
    if a != [] {
      BoardBagSameChords(a[1..], b[1..]);
    }
  }
}
