/**
 * GameSerializer: building fresh boards, placing bombs at random, rendering a
 * board for the client and creating a game.
 */
module Serializers {
  import opened Wrappers
  import opened Cells
  import opened Models

  /** One entry of the rendered board: "c", "f", or the number of neighbouring bombs. */
  datatype Shown = ShowCovered | ShowFlagged | ShowCount(n: nat)

  /** Why `_populate_board_with_bombs` does not return a board. */
  datatype PopulateError =
    | EmptyBoard    // `board[0]` on an empty outer list raises IndexError
    | ZeroSize      // `bombs / size` with size 0 raises ZeroDivisionError
    | StillRunning  // `while bombs` has not stopped within the sweeps this model allows

  /** The number of iterations of `range(n)`: none when n is not positive. */
  function Span(n: int): nat {
    if n < 0 then 0 else n
  }

  function Min(a: int, b: int): int {
    if a < b then a else b
  }

  /** g has cols columns of rows entries each. */
  predicate IsGrid<T>(g: seq<seq<T>>, cols: nat, rows: nat) {
    |g| == cols && forall c :: 0 <= c < cols ==> |g[c]| == rows
  }

  /** Every entry of g is v. */
  predicate Uniform<T(==)>(g: seq<seq<T>>, v: T) {
    forall c, w :: 0 <= c < |g| && 0 <= w < |g[c]| ==> g[c][w] == v
  }

  // ---------------------------------------------------------------------------
  // Counting

  /** `_count_bombs(cells)`: the number of (key, cell) pairs whose cell has a bomb. */
  function CountBombs(cells: seq<(Key, CellData)>): (n: nat)
    ensures n <= |cells|
    ensures n == 0 <==> forall i :: 0 <= i < |cells| ==> !HasBomb(cells[i].1)
  {
    if cells == [] then 0
    else
      var init := cells[..|cells| - 1];
      assert forall i :: 0 <= i < |init| ==> init[i] == cells[i];
      CountBombs(init) + (if HasBomb(cells[|cells| - 1].1) then 1 else 0)
  }

  /** The positions of the pairs whose cell has a bomb. */
  ghost function BombPositions(cells: seq<(Key, CellData)>): set<int> {
    set i | 0 <= i < |cells| && HasBomb(cells[i].1)
  }

  /** `_count_bombs` counts exactly the pairs that hold a bomb. */
  lemma {:induction false} CountBombsIsCardinality(cells: seq<(Key, CellData)>)
    ensures CountBombs(cells) == |BombPositions(cells)|
  {
    if cells != [] {
      var n := |cells| - 1;
      var init := cells[..n];
      CountBombsIsCardinality(init);
      if HasBomb(cells[n].1) {
        assert BombPositions(cells) == BombPositions(init) + {n};
      } else {
        assert BombPositions(cells) == BombPositions(init);
      }
    }
  }

  /** The number the board shows for an uncovered cell: bombs among its neighbours. */
  function NeighborBombs(b: Board, k: Key): nat {
    CountBombs(NeighborPairs(b, k))
  }

  /** The shown count is zero exactly when no neighbour holds a bomb, the test the cascade uses. */
  lemma NeighborBombsZeroIffSafe(b: Board, k: Key)
    ensures NeighborBombs(b, k) == 0 <==> NoBombNeighbor(Mines(b), k)
    ensures NeighborBombs(b, k) <= 8
  {
    var ns, ps := NeighborKeys(b, k), NeighborPairs(b, k);
    NeighborKeysAtMostEight(b, k);
    if NeighborBombs(b, k) == 0 {
      forall n {:trigger Adjacent(k, n)} | InGrid(Mines(b), n) && Adjacent(k, n) ensures !Mines(b)[n.0][n.1] {
        assert n in ns;
        var i :| 0 <= i < |ns| && ns[i] == n;
        assert ps[i].1 == At(b, n);
      }
    } else {
      var i :| 0 <= i < |ps| && HasBomb(ps[i].1);
      assert ns[i] in ns;
      assert Mines(b)[ns[i].0][ns[i].1];
    }
  }

  /** The keys of the pairs whose cell has a bomb. */
  ghost function BombKeys(cells: seq<(Key, CellData)>): set<Key> {
    set i | 0 <= i < |cells| && HasBomb(cells[i].1) :: cells[i].0
  }

  /** Appending a pair adds its key to the bomb keys exactly when its cell has a bomb. */
  lemma BombKeysSnoc(init: seq<(Key, CellData)>, p: (Key, CellData))
    ensures BombKeys(init + [p]) == BombKeys(init) + (if HasBomb(p.1) then {p.0} else {})
  {
    var cells := init + [p];
    forall x | x in BombKeys(cells) ensures x in BombKeys(init) + (if HasBomb(p.1) then {p.0} else {}) {
      var i :| 0 <= i < |cells| && HasBomb(cells[i].1) && cells[i].0 == x;
      if i < |init| {
        assert cells[i] == init[i];
      }
    }
    forall x | x in BombKeys(init) ensures x in BombKeys(cells) {
      var i :| 0 <= i < |init| && HasBomb(init[i].1) && init[i].0 == x;
      assert cells[i] == init[i];
    }
    if HasBomb(p.1) {
      assert cells[|init|] == p;
    }
  }

  /** Over pairs with distinct keys, `_count_bombs` counts the keys that hold a bomb. */
  lemma {:induction false} CountBombsOfDistinctKeys(cells: seq<(Key, CellData)>)
    requires forall i, j :: 0 <= i < j < |cells| ==> cells[i].0 != cells[j].0
    ensures CountBombs(cells) == |BombKeys(cells)|
  {
    if cells != [] {
      var n := |cells| - 1;
      var init, last := cells[..n], cells[n];
      assert cells == init + [last];
      CountBombsOfDistinctKeys(init);
      BombKeysSnoc(init, last);
      assert forall i :: 0 <= i < |init| ==> init[i] == cells[i];
    }
  }

  /** The cells adjacent to k that hold a bomb. */
  ghost function AdjacentBombs(b: Board, k: Key): set<Key> {
    set c, w | 0 <= c < |b| && 0 <= w < |b[c]| && Adjacent(k, (c, w)) && HasBomb(b[c][w]) :: (c, w)
  }

  /** Pairs read off an ordered key list have distinct keys. */
  lemma PairKeysDistinct(ns: seq<Key>, ps: seq<(Key, CellData)>)
    requires Ordered(ns) && |ps| == |ns|
    requires forall i :: 0 <= i < |ps| ==> ps[i].0 == ns[i]
    ensures forall i, j :: 0 <= i < j < |ps| ==> ps[i].0 != ps[j].0
  {
    forall i, j | 0 <= i < j < |ps| ensures ps[i].0 != ps[j].0 {
      assert Precedes(ns[i], ns[j]);
    }
  }

  lemma AdjacentBombsMembership(b: Board, k: Key, n: Key)
    ensures n in AdjacentBombs(b, k) <==> InGrid(b, n) && Adjacent(k, n) && HasBomb(At(b, n))
  {
    if InGrid(b, n) && Adjacent(k, n) && HasBomb(At(b, n)) {
      var (c, w) := n;
      assert (c, w) in AdjacentBombs(b, k);
    }
  }

  /** Pairs read off a listing of the neighbours of k: those holding a bomb are exactly the
      adjacent cells holding a bomb. */
  lemma BombKeysOfListing(b: Board, k: Key, ns: seq<Key>, ps: seq<(Key, CellData)>)
    requires forall n {:trigger n in ns} :: n in ns <==> InGrid(b, n) && Adjacent(k, n)
    requires |ps| == |ns|
    requires forall i :: 0 <= i < |ps| ==> ps[i].0 == ns[i] && InGrid(b, ns[i]) && ps[i].1 == At(b, ns[i])
    ensures BombKeys(ps) == AdjacentBombs(b, k)
  {
    forall n ensures n in BombKeys(ps) <==> n in AdjacentBombs(b, k) {
      AdjacentBombsMembership(b, k, n);
      if n in AdjacentBombs(b, k) {
        assert n in ns;
        var i :| 0 <= i < |ns| && ns[i] == n;
        assert ps[i].0 == n && HasBomb(ps[i].1);
      }
      if n in BombKeys(ps) {
        var i :| 0 <= i < |ps| && HasBomb(ps[i].1) && ps[i].0 == n;
        assert ns[i] in ns;
      }
    }
  }

  lemma NeighborBombKeys(b: Board, k: Key)
    ensures BombKeys(NeighborPairs(b, k)) == AdjacentBombs(b, k)
  {
    BombKeysOfListing(b, k, NeighborKeys(b, k), NeighborPairs(b, k));
  }

  /** The count an uncovered cell shows is the number of adjacent cells holding a bomb. */
  lemma NeighborBombsCountsAdjacentBombs(b: Board, k: Key)
    ensures NeighborBombs(b, k) == |AdjacentBombs(b, k)|
  {
    NeighborKeysOrdered(b, k);
    PairKeysDistinct(NeighborKeys(b, k), NeighborPairs(b, k));
    CountBombsOfDistinctKeys(NeighborPairs(b, k));
    NeighborBombKeys(b, k);
  }

  // ---------------------------------------------------------------------------
  // Fresh boards

  /** `_get_new_covered_board(cols, rows)` (and the tests' `create_covered_board`):
      cols lists of rows "c" entries. */
  method NewCoveredBoard(cols: int, rows: int) returns (board: seq<seq<Shown>>)
    ensures IsGrid(board, Span(cols), Span(rows)) && Uniform(board, ShowCovered)
  {
    board := [];
    var i := 0;
    while i < cols
      invariant 0 <= i <= Span(cols)
      invariant IsGrid(board, i, Span(rows)) && Uniform(board, ShowCovered)
    {
      var row := [];
      var j := 0;
      while j < rows
        invariant 0 <= j <= Span(rows) && |row| == j
        invariant forall w :: 0 <= w < j ==> row[w] == ShowCovered
      {
        row := row + [ShowCovered];
        j := j + 1;
      }
      board := board + [row];
      i := i + 1;
    }
  }

  /** `_get_new_data_board(cols, rows)` (and the tests' `create_data_board`):
      cols lists of rows empty dicts. */
  method NewDataBoard(cols: int, rows: int) returns (board: Board)
    ensures IsGrid(board, Span(cols), Span(rows)) && Uniform(board, EmptyCell)
  {
    board := [];
    var i := 0;
    while i < cols
      invariant 0 <= i <= Span(cols)
      invariant IsGrid(board, i, Span(rows)) && Uniform(board, EmptyCell)
    {
      var row := [];
      var j := 0;
      while j < rows
        invariant 0 <= j <= Span(rows) && |row| == j
        invariant forall w :: 0 <= w < j ==> row[w] == EmptyCell
      {
        row := row + [EmptyCell];
        j := j + 1;
      }
      board := board + [row];
      i := i + 1;
    }
  }

  // ---------------------------------------------------------------------------
  // Bomb placement

  /** Each dict of the column is unchanged or has gained a bomb it did not hold. */
  ghost predicate ColumnOnlyAddsBombs(before: seq<CellData>, after: seq<CellData>) {
    |after| == |before| &&
    forall w :: 0 <= w < |before| ==>
      after[w] == before[w] || (!HasBomb(before[w]) && after[w] == PlaceBomb(before[w]))
  }

  /** Each dict of the board is unchanged or has gained a bomb it did not hold. */
  ghost predicate OnlyAddsBombs(before: Board, after: Board) {
    |after| == |before| &&
    forall c :: 0 <= c < |before| ==> ColumnOnlyAddsBombs(before[c], after[c])
  }

  /** The values random() may return. */
  ghost predicate IsUnitInterval(random: nat -> real) {
    forall i :: 0.0 <= random(i) < 1.0
  }

  /** One pass of the inner loop of `_populate_board_with_bombs` over one list of the board
      (the source names it `row`; it is board[col]). `random(draws)` is the value of the next
      call of random(), which is made only when bombs remain and the cell has none. */
  method PlaceInColumn(column: seq<CellData>, remaining: int, probability: real, random: nat -> real, draws: nat)
    returns (placed: seq<CellData>, left: int, draws': nat)
    requires IsUnitInterval(random)
    ensures ColumnOnlyAddsBombs(column, placed)
    ensures left + ColumnBombs(placed) == remaining + ColumnBombs(column)
    ensures remaining >= 0 ==> left >= 0
    ensures remaining == 0 || probability <= 0.0 ==> placed == column && left == remaining
    ensures probability >= 1.0 && remaining >= 0 ==> left == 0 || forall w :: 0 <= w < |placed| ==> HasBomb(placed[w])
    ensures draws' >= draws
  {
    placed, left, draws' := column, remaining, draws;
    var w := 0;
    while w < |column|
      invariant 0 <= w <= |column|
      invariant ColumnOnlyAddsBombs(column, placed)
      invariant left + ColumnBombs(placed) == remaining + ColumnBombs(column)
      invariant remaining >= 0 ==> left >= 0
      invariant remaining == 0 || probability <= 0.0 ==> placed == column && left == remaining
      invariant probability >= 1.0 && remaining >= 0 ==> left == 0 || forall v :: 0 <= v < w ==> HasBomb(placed[v])
      invariant forall v :: w <= v < |column| ==> placed[v] == column[v]
      invariant draws' >= draws
    {
      if left != 0 && !HasBomb(placed[w]) {
        var hit := random(draws') < probability;
        draws' := draws' + 1;
        if hit {
          ColumnBombsReplace(placed, w, PlaceBomb(placed[w]));
          placed := placed[w := PlaceBomb(placed[w])];
          left := left - 1;
        }
      }
      w := w + 1;
    }
  }

  /** One full sweep `for row in board: for cell in row: ...` of `_populate_board_with_bombs`. */
  method Sweep(board: Board, remaining: int, probability: real, random: nat -> real, draws: nat)
    returns (placed: Board, left: int, draws': nat)
    requires IsUnitInterval(random)
    ensures OnlyAddsBombs(board, placed)
    ensures left + GridBombs(placed) == remaining + GridBombs(board)
    ensures remaining >= 0 ==> left >= 0
    ensures remaining == 0 || probability <= 0.0 ==> placed == board && left == remaining
    ensures probability >= 1.0 && remaining >= 0 ==> left == 0 || GridBombs(placed) == CellCount(placed)
    ensures draws' >= draws
  {
    placed, left, draws' := board, remaining, draws;
    var c := 0;
    while c < |board|
      invariant 0 <= c <= |board|
      invariant OnlyAddsBombs(board, placed)
      invariant left + GridBombs(placed) == remaining + GridBombs(board)
      invariant remaining >= 0 ==> left >= 0
      invariant remaining == 0 || probability <= 0.0 ==> placed == board && left == remaining
      invariant probability >= 1.0 && remaining >= 0 ==> left == 0 || BombedUpTo(placed, c)
      invariant forall v :: c <= v < |board| ==> placed[v] == board[v]
      invariant draws' >= draws
    {
      var column, left', next := PlaceInColumn(placed[c], left, probability, random, draws');
      GridBombsReplace(placed, c, column);
      OnlyAddsBombsStep(board, placed, c, column);
      if probability >= 1.0 && remaining >= 0 && left' != 0 {
        BombedUpToStep(placed, c, column);
      }
      placed := placed[c := column];
      left, draws' := left', next;
      c := c + 1;
    }
    if probability >= 1.0 && remaining >= 0 && left != 0 {
      BombedUpToFills(placed);
    }
  }

  /** Every dict of the first `c` lists of the board holds a bomb. */
  ghost predicate BombedUpTo(b: Board, c: int)
    requires 0 <= c <= |b|
  {
    forall v, w :: 0 <= v < c && 0 <= w < |b[v]| ==> HasBomb(b[v][w])
  }

  /** Replacing list `c`, still as the original, by one that only adds bombs keeps the board
      one that only adds bombs, with the lists after `c` still original. */
  lemma OnlyAddsBombsStep(board: Board, placed: Board, c: int, column: seq<CellData>)
    requires 0 <= c < |board| && OnlyAddsBombs(board, placed)
    requires forall v :: c <= v < |board| ==> placed[v] == board[v]
    requires ColumnOnlyAddsBombs(placed[c], column)
    ensures OnlyAddsBombs(board, placed[c := column])
    ensures forall v :: c < v < |board| ==> placed[c := column][v] == board[v]
  {
  }

  /** A board bombed in all its lists has as many bombs as cells. */
  lemma BombedUpToFills(b: Board)
    requires BombedUpTo(b, |b|)
    ensures GridBombs(b) == CellCount(b)
  {
  }

  /** Putting a fully bombed list at position `c` extends the bombed prefix by one. */
  lemma BombedUpToStep(b: Board, c: int, column: seq<CellData>)
    requires 0 <= c < |b| && BombedUpTo(b, c)
    requires forall w :: 0 <= w < |column| ==> HasBomb(column[w])
    ensures BombedUpTo(b[c := column], c + 1)
  {
  }

  /** A quotient whose dividend is at least its positive divisor is at least one. */
  lemma RatioAtLeastOne(x: real, y: real)
    requires 0.0 < y <= x
    ensures x / y >= 1.0
  {
  }

  /** A sweep that fills a bomb-free rectangular board, or empties the counter, leaves no bombs
      to place when the counter started at the number of cells. */
  lemma FillingSweepEmptiesCounter(board: Board, next: Board, size: int, left: int)
    requires Rectangular(board) && board != [] && size == |board| * |board[0]| && GridBombs(board) == 0
    requires OnlyAddsBombs(board, next)
    requires left + GridBombs(next) == size
    requires left == 0 || GridBombs(next) == CellCount(next)
    ensures left == 0
  {
    if left != 0 {
      assert Rectangular(next) && Cols(next) == Cols(board) && Rows(next) == Rows(board) by {
        assert |next[0]| == |board[0]|;
        forall c | 0 <= c < |next| ensures |next[c]| == |next[0]| {
          assert |next[c]| == |board[c]|;
        }
      }
      RectangularCellCount(next);
    }
  }

  /** `_populate_board_with_bombs(board, bombs)`, where random(i) is the value of the i-th
      call of random() and at most `sweeps` passes of `while bombs` are followed. On success
      it has placed exactly min(size, bombs) new bombs and only ever set "bomb" to true. */
  method PopulateBoardWithBombs(board: Board, bombs: int, random: nat -> real, sweeps: nat)
    returns (r: Result<Board, PopulateError>)
    requires IsUnitInterval(random)
    ensures r == Failure(EmptyBoard) <==> board == []
    ensures board != [] ==> (r == Failure(ZeroSize) <==> Cols(board) * Rows(board) == 0)
    ensures r.Success? ==> OnlyAddsBombs(board, r.value)
    ensures r.Success? ==> GridBombs(r.value) == GridBombs(board) + Min(Cols(board) * Rows(board), bombs)
    ensures board != [] && Cols(board) * Rows(board) > 0 && bombs == 0 ==> r == Success(board)
    ensures board != [] && Cols(board) * Rows(board) > 0 && bombs < 0 ==> r == Failure(StillRunning)
    ensures sweeps >= 1 && Rectangular(board) && GridBombs(board) == 0 && 0 < Cols(board) * Rows(board) <= bombs ==>
      r.Success?
  {
    if board == [] {
      return Failure(EmptyBoard);
    }
    var size := |board| * |board[0]|;
    if size == 0 {
      return Failure(ZeroSize);
    }
    var probability := bombs as real / size as real;
    assert bombs <= 0 ==> probability <= 0.0 by {
      if bombs <= 0 {
        assert probability * (size as real) == bombs as real;
      }
    }
    ghost var filling := Rectangular(board) && GridBombs(board) == 0 && bombs >= size;
    if filling {
      RatioAtLeastOne(bombs as real, size as real);
    }
    var remaining := Min(size, bombs);
    var placed, draws, sweep := board, 0, 0;
    while remaining != 0 && sweep < sweeps
      invariant sweep <= sweeps
      invariant OnlyAddsBombs(board, placed)
      invariant remaining + GridBombs(placed) == Min(size, bombs) + GridBombs(board)
      invariant bombs >= 0 ==> remaining >= 0
      invariant bombs <= 0 ==> placed == board && remaining == bombs
      invariant filling && sweep >= 1 ==> remaining == 0
      decreases sweeps - sweep
    {
      var next, left, draws' := Sweep(placed, remaining, probability, random, draws);
      OnlyAddsBombsTransitive(board, placed, next);
      if filling {
        FillingSweepEmptiesCounter(board, next, size, left);
      }
      placed, remaining, draws := next, left, draws';
      sweep := sweep + 1;
    }
    if remaining != 0 {
      return Failure(StillRunning);
    }
    return Success(placed);
  }

  /** Adding bombs is transitive. */
  lemma OnlyAddsBombsTransitive(a: Board, b: Board, c: Board)
    requires OnlyAddsBombs(a, b) && OnlyAddsBombs(b, c)
    ensures OnlyAddsBombs(a, c)
  {
  }

  // ---------------------------------------------------------------------------
  // Rendering

  /** The value `get_board` shows for one cell: "f" for a flagged cell, bomb or not; the
      number of neighbouring bombs for an uncovered cell, bomb or not; "c" otherwise. */
  function ShownCell(b: Board, k: Key): Shown
    requires InGrid(b, k)
  {
    var d := At(b, k);
    if IsFlagged(d) then ShowFlagged
    else if !IsCovered(d) then ShowCount(NeighborBombs(b, k))
    else ShowCovered
  }

  /** `get_board(obj)`: start from a covered board and fill in each cell in `obj.cells` order. */
  method GetBoard(game: Game) returns (shown: seq<seq<Shown>>)
    requires Rectangular(game.board)
    ensures IsGrid(shown, Cols(game.board), Rows(game.board))
    ensures forall c, w :: 0 <= c < Cols(game.board) && 0 <= w < Rows(game.board) ==>
      shown[c][w] == ShownCell(game.board, (c, w))
  {
    var b := game.board;
    var cols, rows := Cols(b), Rows(b);
    shown := NewCoveredBoard(cols, rows);
    var keys := game.Cells();
    var i := 0;
    while i < |keys|
      invariant 0 <= i <= |keys|
      invariant IsGrid(shown, cols, rows)
      invariant forall c, w :: 0 <= c < cols && 0 <= w < rows ==>
        shown[c][w] == if (c, w) in keys[..i] then ShownCell(b, (c, w)) else ShowCovered
    {
      var (c, w) := keys[i];
      assert keys[i] in keys;
      assert keys[..i + 1] == keys[..i] + [(c, w)];
      var d := At(b, (c, w));
      if IsFlagged(d) {
        shown := shown[c := shown[c][w := ShowFlagged]];
      } else if !IsCovered(d) {
        shown := shown[c := shown[c][w := ShowCount(NeighborBombs(b, (c, w)))]];
      }
      i := i + 1;
    }
    assert keys[..i] == keys;
  }

  /** What is shown for a covered cell depends on its flag alone, never on its bomb. */
  lemma CoveredCellHidesBomb(b: Board, k: Key, bomb: Entry<bool>)
    requires InGrid(b, k) && IsCovered(At(b, k))
    ensures ShownCell(b, k) == ShownCell(Put(b, k, At(b, k).(bomb := bomb)), k)
    ensures ShownCell(b, k) == if IsFlagged(At(b, k)) then ShowFlagged else ShowCovered
  {
  }

  /** A board of empty dicts renders as all "c" (the empty-board test). */
  lemma FreshBoardRendersCovered(b: Board, k: Key)
    requires Uniform(b, EmptyCell) && InGrid(b, k)
    ensures ShownCell(b, k) == ShowCovered
  {
  }

  /** An uncovered cell with exactly two bombs around it shows 2. */
  lemma UncoveredCellShowsTwo(b: Board, k: Key, x: Key, y: Key)
    requires InGrid(b, k) && !IsCovered(At(b, k))
    requires x != y && AdjacentBombs(b, k) == {x, y}
    ensures ShownCell(b, k) == ShowCount(2)
  {
    NeighborBombsCountsAdjacentBombs(b, k);
  }

  /** The uncovered-count scenario: on 8 columns of 9 empty cells, with bombs at (2, 2) and
      (2, 4) and the cell between them uncovered, that cell shows 2. */
  lemma UncoveredCellBetweenTwoBombsShowsTwo()
    ensures var b0 := seq(8, _ => seq(9, _ => EmptyCell));
            var b := Put(Put(Put(b0, (2, 2), PlaceBomb(EmptyCell)), (2, 3), Uncover(EmptyCell)), (2, 4), PlaceBomb(EmptyCell));
            ShownCell(b, (2, 3)) == ShowCount(2)
  {
    var b0 := seq(8, _ => seq(9, _ => EmptyCell));
    var b := Put(Put(Put(b0, (2, 2), PlaceBomb(EmptyCell)), (2, 3), Uncover(EmptyCell)), (2, 4), PlaceBomb(EmptyCell));
    forall n ensures n in AdjacentBombs(b, (2, 3)) <==> n in {(2, 2), (2, 4)} {
      AdjacentBombsMembership(b, (2, 3), n);
    }
    UncoveredCellShowsTwo(b, (2, 3), (2, 2), (2, 4));
  }

  /** The cols, rows and bombs fields on 8 columns of 9 empty cells with bombs placed at
      (2, 2), (3, 3) and (5, 3): 8, 9 and 3. */
  lemma TestBoardFields()
    ensures var b0 := seq(8, _ => seq(9, _ => EmptyCell));
            var b := Put(Put(Put(b0, (2, 2), PlaceBomb(EmptyCell)), (3, 3), PlaceBomb(EmptyCell)), (5, 3), PlaceBomb(EmptyCell));
            Cols(b) == 8 && Rows(b) == 9 && GridBombs(b) == 3
  {
    var b0 := seq(8, _ => seq(9, _ => EmptyCell));
    var b1 := Put(b0, (2, 2), PlaceBomb(EmptyCell));
    var b2 := Put(b1, (3, 3), PlaceBomb(EmptyCell));
    var b3 := Put(b2, (5, 3), PlaceBomb(EmptyCell));
    assert GridBombs(b0) == 0;
    PlaceBombAddsOne(b0, (2, 2));
    PlaceBombAddsOne(b1, (3, 3));
    PlaceBombAddsOne(b2, (5, 3));
  }

  // ---------------------------------------------------------------------------
  // Creating a game

  /** `create(validated_data)`: a cols x rows board of empty dicts, populated with the requested
      number of bombs, stored with the requesting user as player. */
  method Create(cols: int, rows: int, bombs: int, user: User, random: nat -> real, sweeps: nat)
    returns (r: Result<Game, PopulateError>)
    requires IsUnitInterval(random)
    ensures cols <= 0 <==> r == Failure(EmptyBoard)
    ensures cols > 0 ==> (rows <= 0 <==> r == Failure(ZeroSize))
    ensures cols > 0 && rows > 0 && bombs < 0 ==> r == Failure(StillRunning)
    ensures cols > 0 && rows > 0 && bombs >= cols * rows && sweeps >= 1 ==> r.Success?
    ensures r.Success? ==> fresh(r.value) && r.value.player == user && r.value.finishedAt == None
    ensures r.Success? ==> IsGrid(r.value.board, cols, rows) && Rectangular(r.value.board)
    ensures r.Success? ==> forall c, w :: 0 <= c < cols && 0 <= w < rows ==> r.value.board[c][w].status == Missing
    ensures r.Success? ==> r.value.Bombs() == Min(cols * rows, bombs)
    ensures r.Success? && bombs >= cols * rows ==> forall c, w :: 0 <= c < cols && 0 <= w < rows ==> HasBomb(r.value.board[c][w])
  {
    var board := NewDataBoard(cols, rows);
    assert GridBombs(board) == 0;
    if cols > 0 {
      assert Rows(board) == Span(rows);
    }
    var populated := PopulateBoardWithBombs(board, bombs, random, sweeps);
    if populated.Failure? {
      return Failure(populated.error);
    }
    var game := new Game(user, populated.value);
    assert Cols(board) * Rows(board) == cols * rows;
    if bombs >= cols * rows {
      RectangularCellCount(game.board);
    }
    return Success(game);
  }
}
