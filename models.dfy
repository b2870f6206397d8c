/**
 * The game board and the Game/Cell accessor layer that the views, the
 * serializer and the tests use: a board is a list of columns, each a list of
 * cell dicts, addressed as board[col][row]. A Cell handle is the coordinate of
 * its dict, so every change made through a handle is a change of the board.
 */
module Models {
  import opened Wrappers
  import opened Cells

  /** A cell coordinate (column, row). */
  type Key = (int, int)

  /** board[col][row]: the outer list holds the columns. */
  type Board = seq<seq<CellData>>

  /** The requesting user that a game is stored with. */
  datatype User = User(id: nat)

  /** The value of `timezone.now()`, treated as opaque. */
  datatype Timestamp = Timestamp(ticks: int)

  /** The failure of `game[key]` for a coordinate that is not on the board. */
  datatype LookupError = IndexError

  // ---------------------------------------------------------------------------
  // Shape

  /** The coordinate names a cell of the grid (lookup neither wraps nor clamps). */
  predicate InGrid<T>(g: seq<seq<T>>, k: Key) {
    0 <= k.0 < |g| && 0 <= k.1 < |g[k.0]|
  }

  predicate SameShape<T, U>(g: seq<seq<T>>, h: seq<seq<U>>) {
    |g| == |h| && forall c :: 0 <= c < |g| ==> |g[c]| == |h[c]|
  }

  /** Every column has as many rows as the first one. */
  predicate Rectangular<T>(g: seq<seq<T>>) {
    forall c :: 0 <= c < |g| ==> |g[c]| == |g[0]|
  }

  /** `cols`: the number of columns, the outer length. */
  function Cols<T>(g: seq<seq<T>>): (n: nat)
    ensures n == 0 <==> g == []
    ensures forall k :: InGrid(g, k) ==> 0 <= k.0 < n
  {
    |g|
  }

  /** `rows`: the number of rows, the length of the first column (0 on an empty board). */
  function Rows<T>(g: seq<seq<T>>): (n: nat)
    ensures g == [] ==> n == 0
    ensures g != [] ==> n == |g[0]|
    ensures Rectangular(g) ==> forall c :: 0 <= c < |g| ==> |g[c]| == n
  {
    if g == [] then 0 else |g[0]|
  }

  function At(b: Board, k: Key): CellData
    requires InGrid(b, k)
  {
    b[k.0][k.1]
  }

  /** The board after the dict at k is replaced by d; nothing else changes. */
  function Put(b: Board, k: Key, d: CellData): (r: Board)
    requires InGrid(b, k)
    ensures SameShape(b, r) && InGrid(r, k) && At(r, k) == d
    ensures forall c, w :: 0 <= c < |b| && 0 <= w < |b[c]| && (c, w) != k ==> r[c][w] == b[c][w]
  {
    b[k.0 := b[k.0][k.1 := d]]
  }

  /** The bomb layout of a board: which cells hold a bomb. */
  function Mines(b: Board): (m: seq<seq<bool>>)
    ensures SameShape(b, m)
    ensures forall c, w :: 0 <= c < |b| && 0 <= w < |b[c]| ==> m[c][w] == HasBomb(b[c][w])
  {
    seq(|b|, c requires 0 <= c < |b| => seq(|b[c]|, w requires 0 <= w < |b[c]| => HasBomb(b[c][w])))
  }

  // ---------------------------------------------------------------------------
  // Neighbours

  /** a comes before b when the first coordinate varies fastest. */
  predicate Precedes(a: Key, b: Key) {
    a.1 < b.1 || (a.1 == b.1 && a.0 < b.0)
  }

  /** The keys are listed in strictly increasing Precedes order, so each at most once. */
  predicate Ordered(ks: seq<Key>) {
    forall i, j :: 0 <= i < j < |ks| ==> Precedes(ks[i], ks[j])
  }

  /** Two ordered lists, all of the first before all of the second, concatenate to an ordered list. */
  lemma OrderedConcat(a: seq<Key>, b: seq<Key>)
    requires Ordered(a) && Ordered(b)
    requires forall x, y :: x in a && y in b ==> Precedes(x, y)
    ensures Ordered(a + b)
  {
    forall i, j | 0 <= i < j < |a + b| ensures Precedes((a + b)[i], (a + b)[j]) {
      if j >= |a| && i < |a| {
        assert a[i] in a && b[j - |a|] in b;
      }
    }
  }

  /** b is one of the eight cells of the 3x3 block centred on a. */
  predicate Adjacent(a: Key, b: Key) {
    a != b && -1 <= a.0 - b.0 <= 1 && -1 <= a.1 - b.1 <= 1
  }

  /** The in-grid cells among (c-1, w), (c, w) when withCentre, and (c+1, w), in that order. */
  function Strip<T>(g: seq<seq<T>>, c: int, w: int, withCentre: bool): seq<Key> {
    (if InGrid(g, (c - 1, w)) then [(c - 1, w)] else [])
    + (if withCentre && InGrid(g, (c, w)) then [(c, w)] else [])
    + (if InGrid(g, (c + 1, w)) then [(c + 1, w)] else [])
  }

  /** The cells a strip lists, in increasing order, at most three. */
  lemma StripFacts<T>(g: seq<seq<T>>, c: int, w: int, withCentre: bool)
    ensures forall n {:trigger n in Strip(g, c, w, withCentre)} :: n in Strip(g, c, w, withCentre) <==>
      InGrid(g, n) && n.1 == w && -1 <= n.0 - c <= 1 && (withCentre || n.0 != c)
    ensures forall i :: 0 <= i < |Strip(g, c, w, withCentre)| ==> Strip(g, c, w, withCentre)[i].1 == w
    ensures Ordered(Strip(g, c, w, withCentre))
    ensures |Strip(g, c, w, withCentre)| <= 3
  {
  }

  /** The keys `get_neighbors` yields: the cells of the 3x3 block around k,
      centre excluded, that exist on the grid, row above first. */
  function NeighborKeys<T>(g: seq<seq<T>>, k: Key): (ns: seq<Key>)
    ensures forall n {:trigger n in ns} :: n in ns <==> InGrid(g, n) && Adjacent(k, n)
  {
    StripFacts(g, k.0, k.1 - 1, true);
    StripFacts(g, k.0, k.1, false);
    StripFacts(g, k.0, k.1 + 1, true);
    Strip(g, k.0, k.1 - 1, true) + Strip(g, k.0, k.1, false) + Strip(g, k.0, k.1 + 1, true)
  }

  /** The neighbour listing is the row above, the row of k, then the row below. */
  lemma NeighborKeysUnfold<T>(g: seq<seq<T>>, k: Key)
    ensures NeighborKeys(g, k) == Strip(g, k.0, k.1 - 1, true) + Strip(g, k.0, k.1, false) + Strip(g, k.0, k.1 + 1, true)
  {
  }

  /** A cell has at most eight neighbours. */
  lemma NeighborKeysAtMostEight<T>(g: seq<seq<T>>, k: Key)
    ensures |NeighborKeys(g, k)| <= 8
  {
    StripFacts(g, k.0, k.1 - 1, true);
    StripFacts(g, k.0, k.1, false);
    StripFacts(g, k.0, k.1 + 1, true);
    NeighborKeysLength(g, k);
  }

  /** An ordered list of keys on rows below r, then an ordered list on rows from r on, is ordered. */
  lemma OrderedByRows(a: seq<Key>, b: seq<Key>, r: int)
    requires Ordered(a) && Ordered(b)
    requires forall i :: 0 <= i < |a| ==> a[i].1 < r
    requires forall j :: 0 <= j < |b| ==> b[j].1 >= r
    ensures Ordered(a + b)
  {
    forall i, j | 0 <= i < j < |a + b| ensures Precedes((a + b)[i], (a + b)[j]) {
      if j < |a| {
        assert (a + b)[i] == a[i] && (a + b)[j] == a[j];
      } else if i >= |a| {
        assert (a + b)[i] == b[i - |a|] && (a + b)[j] == b[j - |a|];
      } else {
        assert (a + b)[i] == a[i] && (a + b)[j] == b[j - |a|];
      }
    }
  }

  /** Three ordered lists on consecutive rows, concatenated top to bottom, are ordered. */
  lemma OrderedThreeRows(above: seq<Key>, level: seq<Key>, below: seq<Key>, w: int)
    requires Ordered(above) && Ordered(level) && Ordered(below)
    requires forall i :: 0 <= i < |above| ==> above[i].1 == w - 1
    requires forall i :: 0 <= i < |level| ==> level[i].1 == w
    requires forall i :: 0 <= i < |below| ==> below[i].1 == w + 1
    ensures Ordered(above + level + below)
  {
    OrderedByRows(above, level, w);
    var top := above + level;
    forall i | 0 <= i < |top| ensures top[i].1 < w + 1 {
      if i < |above| {
        assert top[i] == above[i];
      } else {
        assert top[i] == level[i - |above|];
      }
    }
    OrderedByRows(top, below, w + 1);
  }

  /** `get_neighbors` lists each neighbour once, first coordinate fastest. */
  lemma NeighborKeysOrdered<T>(g: seq<seq<T>>, k: Key)
    ensures Ordered(NeighborKeys(g, k))
  {
    StripFacts(g, k.0, k.1 - 1, true);
    StripFacts(g, k.0, k.1, false);
    StripFacts(g, k.0, k.1 + 1, true);
    OrderedThreeRows(Strip(g, k.0, k.1 - 1, true), Strip(g, k.0, k.1, false), Strip(g, k.0, k.1 + 1, true), k.1);
    NeighborKeysUnfold(g, k);
  }

  /** `game.get_neighbors(key)`: (key, cell) pairs of the neighbours, read from the board. */
  function NeighborPairs(b: Board, k: Key): (ps: seq<(Key, CellData)>)
    ensures |ps| == |NeighborKeys(b, k)|
    ensures forall i :: 0 <= i < |ps| ==> ps[i].0 == NeighborKeys(b, k)[i] && InGrid(b, ps[i].0) && ps[i].1 == At(b, ps[i].0)
  {
    var ns := NeighborKeys(b, k);
    assert forall i :: 0 <= i < |ns| ==> ns[i] in ns;
    PairsOf(b, ns)
  }

  /** Each listed key with the cell the board holds there. */
  function PairsOf(b: Board, ks: seq<Key>): (ps: seq<(Key, CellData)>)
    requires forall i :: 0 <= i < |ks| ==> InGrid(b, ks[i])
    ensures |ps| == |ks|
    ensures forall i :: 0 <= i < |ps| ==> ps[i].0 == ks[i] && InGrid(b, ps[i].0) && ps[i].1 == At(b, ps[i].0)
  {
    seq(|ks|, i requires 0 <= i < |ks| => (ks[i], At(b, ks[i])))
  }

  /** No cell adjacent to k holds a bomb. */
  ghost predicate NoBombNeighbor(m: seq<seq<bool>>, k: Key) {
    forall n {:trigger Adjacent(k, n)} :: InGrid(m, n) && Adjacent(k, n) ==> !m[n.0][n.1]
  }

  /** get_neighbors on a 10x10 board at the corner (0,0): three neighbours. */
  lemma NeighborsOfFirstCorner<T>(g: seq<seq<T>>)
    requires |g| == 10 && forall c :: 0 <= c < 10 ==> |g[c]| == 10
    ensures NeighborKeys(g, (0, 0)) == [(1, 0), (0, 1), (1, 1)]
  {
    NeighborKeysUnfold(g, (0, 0));
    assert Strip(g, 0, -1, true) == [];
    assert Strip(g, 0, 0, false) == [(1, 0)];
    assert Strip(g, 0, 1, true) == [(0, 1), (1, 1)];
  }

  /** get_neighbors on a 10x10 board at the corner (9,9): three neighbours. */
  lemma NeighborsOfLastCorner<T>(g: seq<seq<T>>)
    requires |g| == 10 && forall c :: 0 <= c < 10 ==> |g[c]| == 10
    ensures NeighborKeys(g, (9, 9)) == [(8, 8), (9, 8), (8, 9)]
  {
    NeighborKeysUnfold(g, (9, 9));
    assert Strip(g, 9, 8, true) == [(8, 8), (9, 8)];
    assert Strip(g, 9, 9, false) == [(8, 9)];
    assert Strip(g, 9, 10, true) == [];
  }

  /** get_neighbors on a 10x10 board at the inner cell (4,4): eight neighbours. */
  lemma NeighborsOfInnerCell<T>(g: seq<seq<T>>)
    requires |g| == 10 && forall c :: 0 <= c < 10 ==> |g[c]| == 10
    ensures NeighborKeys(g, (4, 4)) == [(3, 3), (4, 3), (5, 3), (3, 4), (5, 4), (3, 5), (4, 5), (5, 5)]
  {
    NeighborKeysUnfold(g, (4, 4));
    assert Strip(g, 4, 3, true) == [(3, 3), (4, 3), (5, 3)];
    assert Strip(g, 4, 4, false) == [(3, 4), (5, 4)];
    assert Strip(g, 4, 5, true) == [(3, 5), (4, 5), (5, 5)];
  }

  /** On a rectangular board of at least 2x2 a corner has 3 neighbours, another
      border cell 5, an inner cell 8. */
  lemma NeighborCount<T>(g: seq<seq<T>>, k: Key)
    requires Rectangular(g) && Cols(g) >= 2 && Rows(g) >= 2 && InGrid(g, k)
    ensures var onEdgeC, onEdgeR := k.0 == 0 || k.0 == Cols(g) - 1, k.1 == 0 || k.1 == Rows(g) - 1;
            |NeighborKeys(g, k)| == if onEdgeC && onEdgeR then 3 else if onEdgeC || onEdgeR then 5 else 8
  {
    var (c, w) := k;
    StripLength(g, c, w - 1, true);
    StripLength(g, c, w, false);
    StripLength(g, c, w + 1, true);
    NeighborKeysLength(g, k);
  }

  lemma NeighborKeysLength<T>(g: seq<seq<T>>, k: Key)
    ensures |NeighborKeys(g, k)| == |Strip(g, k.0, k.1 - 1, true)| + |Strip(g, k.0, k.1, false)| + |Strip(g, k.0, k.1 + 1, true)|
  {
    NeighborKeysUnfold(g, k);
    var above, level, below := Strip(g, k.0, k.1 - 1, true), Strip(g, k.0, k.1, false), Strip(g, k.0, k.1 + 1, true);
    assert |above + level + below| == |above| + |level| + |below|;
  }

  /** A strip in column range of a rectangular board of at least two columns: one or two
      cells beside the centre, plus the centre when asked for, on a row of the board. */
  lemma StripLength<T>(g: seq<seq<T>>, c: int, w: int, withCentre: bool)
    requires Rectangular(g) && Cols(g) >= 2 && 0 <= c < Cols(g)
    ensures |Strip(g, c, w, withCentre)| ==
      if 0 <= w < Rows(g) then (if c == 0 || c == Cols(g) - 1 then 1 else 2) + (if withCentre then 1 else 0) else 0
  {
    assert InGrid(g, (c, w)) <==> 0 <= w < Rows(g);
    assert c > 0 ==> (InGrid(g, (c - 1, w)) <==> 0 <= w < Rows(g));
    assert c < Cols(g) - 1 ==> (InGrid(g, (c + 1, w)) <==> 0 <= w < Rows(g));
  }

  // ---------------------------------------------------------------------------
  // Cell enumeration

  /** The keys `game.cells` yields for a cols x rows board: every cell once,
      the first coordinate varying fastest. */
  function CellKeys(cols: nat, rows: nat): (ks: seq<Key>)
    ensures |ks| == cols * rows
    ensures forall k {:trigger k in ks} :: k in ks <==> 0 <= k.0 < cols && 0 <= k.1 < rows
    ensures Ordered(ks)
    decreases rows
  {
    if rows == 0 then []
    else
      var earlier, last := CellKeys(cols, rows - 1), seq(cols, c => (c, rows - 1));
      OrderedConcat(earlier, last);
      assert forall k: Key :: 0 <= k.0 < cols && k.1 == rows - 1 ==> k == last[k.0];
      earlier + last
  }

  /** The cells test: on a board with at least two columns and a row, (0,0) comes first and (1,0) second. */
  lemma {:induction false} CellsStartAtOrigin(cols: nat, rows: nat)
    requires cols >= 2 && rows >= 1
    ensures |CellKeys(cols, rows)| >= 2
    ensures CellKeys(cols, rows)[0] == (0, 0) && CellKeys(cols, rows)[1] == (1, 0)
  {
    var ks := CellKeys(cols, rows);
    assert cols * rows >= 2 by {
      assert cols * rows >= cols * 1;
    }
    assert (0, 0) in ks && (1, 0) in ks;
    var i :| 0 <= i < |ks| && ks[i] == (0, 0);
    var j :| 0 <= j < |ks| && ks[j] == (1, 0);
    assert ks[0] in ks && ks[1] in ks;
    assert i == 0;
    assert j == 1;
  }

  // ---------------------------------------------------------------------------
  // Counting bombs

  /** The number of cells of a board. */
  function CellCount(b: Board): nat {
    if b == [] then 0 else |b[0]| + CellCount(b[1..])
  }

  /** The number of bomb cells in one column. */
  function ColumnBombs(col: seq<CellData>): (n: nat)
    ensures n <= |col|
    ensures n == 0 <==> forall w :: 0 <= w < |col| ==> !HasBomb(col[w])
    ensures n == |col| <==> forall w :: 0 <= w < |col| ==> HasBomb(col[w])
  {
    if col == [] then 0
    else
      var rest := ColumnBombs(col[1..]);
      assert forall w :: 1 <= w < |col| ==> col[w] == col[1..][w - 1];
      (if HasBomb(col[0]) then 1 else 0) + rest
  }

  /** `bombs`: the number of bomb cells of a board. */
  function GridBombs(b: Board): (n: nat)
    ensures n <= CellCount(b)
    ensures n == 0 <==> forall c, w :: 0 <= c < |b| && 0 <= w < |b[c]| ==> !HasBomb(b[c][w])
    ensures n == CellCount(b) <==> forall c, w :: 0 <= c < |b| && 0 <= w < |b[c]| ==> HasBomb(b[c][w])
  {
    if b == [] then 0
    else
      var rest := GridBombs(b[1..]);
      assert forall c :: 1 <= c < |b| ==> b[c] == b[1..][c - 1];
      ColumnBombs(b[0]) + rest
  }

  /** Replacing one dict of a column changes its bomb count by the bombs of the two dicts. */
  lemma {:induction false} ColumnBombsReplace(col: seq<CellData>, w: nat, d: CellData)
    requires w < |col|
    ensures ColumnBombs(col[w := d]) + (if HasBomb(col[w]) then 1 else 0)
         == ColumnBombs(col) + (if HasBomb(d) then 1 else 0)
  {
    if w > 0 {
      assert col[w := d][1..] == col[1..][w - 1 := d];
      ColumnBombsReplace(col[1..], w - 1, d);
    } else {
      assert col[w := d][1..] == col[1..];
    }
  }

  /** Replacing one column of a board changes its bomb count by the bombs of the two columns. */
  lemma {:induction false} GridBombsReplace(b: Board, c: nat, col: seq<CellData>)
    requires c < |b|
    ensures GridBombs(b[c := col]) + ColumnBombs(b[c]) == GridBombs(b) + ColumnBombs(col)
  {
    if c > 0 {
      assert b[c := col][1..] == b[1..][c - 1 := col];
      GridBombsReplace(b[1..], c - 1, col);
    } else {
      assert b[c := col][1..] == b[1..];
    }
  }

  /** A rectangular board has cols * rows cells. */
  lemma {:induction false} RectangularCellCount(b: Board)
    requires Rectangular(b)
    ensures CellCount(b) == Cols(b) * Rows(b)
  {
    if b != [] {
      var rest := b[1..];
      assert Rectangular(rest) && (rest != [] ==> |rest[0]| == |b[0]|);
      RectangularCellCount(rest);
      assert CellCount(b) == |b[0]| + (|b| - 1) * Rows(rest);
      if rest == [] {
      } else {
        assert CellCount(b) == |b[0]| + (|b| - 1) * |b[0]|;
      }
    }
  }

  /** RectangularCellCount, for a board that may or may not be rectangular. */
  lemma CellCountOfRectangular(b: Board)
    ensures Rectangular(b) ==> CellCount(b) == Cols(b) * Rows(b)
  {
    if Rectangular(b) {
      RectangularCellCount(b);
    }
  }

  /** Putting a bomb into a cell without one raises the bomb count by exactly one. */
  lemma PlaceBombAddsOne(b: Board, k: Key)
    requires InGrid(b, k) && !HasBomb(At(b, k))
    ensures GridBombs(Put(b, k, PlaceBomb(At(b, k)))) == GridBombs(b) + 1
  {
    var (c, w) := k;
    var col := b[c][w := PlaceBomb(b[c][w])];
    ColumnBombsReplace(b[c], w, PlaceBomb(b[c][w]));
    GridBombsReplace(b, c, col);
  }

  // ---------------------------------------------------------------------------
  // The game

  /** A Minesweeper game: its board, its player and when it finished. */
  class Game {
    var board: Board
    var finishedAt: Option<Timestamp>
    const player: User

    /** `Game.objects.create(player=..., board=...)`. */
    constructor (player: User, board: Board)
      ensures this.player == player && this.board == board && finishedAt == None
    {
      this.player := player;
      this.board := board;
      finishedAt := None;
    }

    /** `bombs`: the number of cells holding a bomb. */
    function Bombs(): (n: nat)
      reads this
      ensures n == 0 <==> forall c, w :: 0 <= c < |board| && 0 <= w < |board[c]| ==> !HasBomb(board[c][w])
      ensures n <= CellCount(board)
      ensures Rectangular(board) ==> n <= Cols(board) * Rows(board)
    {
      CellCountOfRectangular(board);
      GridBombs(board)
    }

    /** `game[key]`: the handle of the cell at key, or IndexError when there is none
        (also on an empty board). The cell's dict is the board's own: the handle is its key. */
    function Lookup(key: Key): (r: Result<Key, LookupError>)
      reads this
      requires key.0 >= 0 && key.1 >= 0
      ensures r.Success? <==> InGrid(board, key)
      ensures r.Success? ==> r.value == key
    {
      if InGrid(board, key) then Success(key) else Failure(IndexError)
    }

    /** `game.cells`: the key of every cell of a rectangular board, first coordinate fastest. */
    function Cells(): (ks: seq<Key>)
      reads this
      requires Rectangular(board)
      ensures forall k {:trigger k in ks} :: k in ks <==> InGrid(board, k)
      ensures |ks| == Cols(board) * Rows(board)
    {
      CellKeys(Cols(board), Rows(board))
    }

    /** `cell.flag()` through a handle: the board's dict at k is flagged, nothing else changes. */
    method FlagCell(k: Key)
      requires InGrid(board, k)
      modifies this`board
      ensures board == Put(old(board), k, Flag(At(old(board), k)))
    {
      board := Put(board, k, Flag(At(board, k)));
    }

    /** `cell.unflag()` through a handle. */
    method UnflagCell(k: Key)
      requires InGrid(board, k)
      modifies this`board
      ensures board == Put(old(board), k, Unflag(At(old(board), k)))
    {
      board := Put(board, k, Unflag(At(board, k)));
    }

    /** `cell.uncover()` through a handle. */
    method UncoverCell(k: Key)
      requires InGrid(board, k)
      modifies this`board
      ensures board == Put(old(board), k, Uncover(At(old(board), k)))
    {
      board := Put(board, k, Uncover(At(board, k)));
    }
  }
}
