/**
 * The Game model as it stands in models.py: a board stored as a JSON dict keyed by
 * "c,r" strings, and `__getitem__`, which hands out Cell objects from a cache held
 * in a class attribute, so one dict is shared by every Game.
 */
module LegacyModels {
  import opened Wrappers
  import opened Cells
  import opened Numerals

  // ---------------------------------------------------------------------------
  // The "c,r" key of the board dict

  /** In text around a single comma, the comma stands right after the first part. */
  lemma CommaAt(a: string, b: string)
    requires ',' !in a
    ensures (a + "," + b)[|a|] == ','
    ensures forall i :: 0 <= i < |a| ==> (a + "," + b)[i] != ','
  {
    forall i | 0 <= i < |a| ensures (a + "," + b)[i] != ',' {
      assert (a + "," + b)[i] == a[i];
    }
  }

  /** `f"{c},{r}"`, the board key of cell (c, r): the column's text, the first comma, then
      the row's text. */
  function KeyString(c: int, r: int): (s: string)
    ensures |s| == |IntToString(c)| + 1 + |IntToString(r)|
    ensures s[|IntToString(c)|] == ',' && forall i :: 0 <= i < |IntToString(c)| ==> s[i] != ','
    ensures s[..|IntToString(c)|] == IntToString(c) && s[|IntToString(c)| + 1..] == IntToString(r)
  {
    CommaAt(IntToString(c), IntToString(r));
    IntToString(c) + "," + IntToString(r)
  }

  /** Text around a single comma splits back into its two parts. */
  lemma CommaSplit(a: string, b: string, a': string, b': string)
    requires ',' !in a && ',' !in a'
    requires a + "," + b == a' + "," + b'
    ensures a == a' && b == b'
  {
    var s := a + "," + b;
    CommaAt(a, b);
    CommaAt(a', b');
    assert |a| == |a'|;
    assert a == s[..|a|] && a' == (a' + "," + b')[..|a'|];
    assert b == s[|a| + 1..] && b' == (a' + "," + b')[|a'| + 1..];
  }

  /** Distinct cells have distinct board keys, so a key names one cell. */
  lemma KeyStringInjective(c: int, r: int, c': int, r': int)
    requires KeyString(c, r) == KeyString(c', r')
    ensures c == c' && r == r'
  {
    CommaSplit(IntToString(c), IntToString(r), IntToString(c'), IntToString(r'));
    IntToStringInjective(c, c');
    IntToStringInjective(r, r');
  }

  // ---------------------------------------------------------------------------
  // Game, Cell and the cell cache

  /** What `__getitem__` receives: something that unpacks into two ints, or something else. */
  datatype Index = Pair(c: int, r: int) | NotAPair

  /** The exceptions `__getitem__` raises. */
  datatype GetItemError = TypeError | KeyError

  /** The dict behind the class attribute `_cells`: one object, whichever Game reaches it. */
  class CellCache {
    var cells: map<(int, int), Cell>

    constructor()
      ensures cells == map[]
    {
      cells := map[];
    }
  }

  /** The Cell dataclass: the game it was created for, and its column and row. */
  class Cell {
    const game: Game
    const column: int
    const row: int

    constructor(game: Game, column: int, row: int)
      ensures this.game == game && this.column == column && this.row == row
    {
      this.game, this.column, this.row := game, column, row;
    }
  }

  class Game {
    /** The "board" JSON field: cell dicts under "c,r" keys. */
    var board: map<string, CellData>
    /** `_cells` reached through `self`: the class attribute, the same dict for every Game. */
    const sharedCells: CellCache
    /** A cache of this game's own, the corrected alternative to sharedCells. */
    var ownCells: map<(int, int), Cell>

    constructor(board: map<string, CellData>, sharedCells: CellCache)
      ensures this.board == board && this.sharedCells == sharedCells && ownCells == map[]
      ensures Valid()
    {
      this.board, this.sharedCells, ownCells := board, sharedCells, map[];
    }

    /** Every cell in this game's own cache belongs to this game, at its key. */
    predicate Valid()
      reads this
    {
      forall k {:trigger ownCells[k]} :: k in ownCells ==> ownCells[k].game == this && ownCells[k].column == k.0 && ownCells[k].row == k.1
    }

    /** `__getitem__(key)` as written: a key that does not unpack into two values raises
        TypeError; a cell missing from the board raises KeyError before the cache is
        touched; otherwise the cached Cell for the key is returned, created for this game
        only when no Game has asked for that key before. */
    method GetItem(key: Index) returns (r: Result<Cell, GetItemError>)
      modifies sharedCells
      ensures key.NotAPair? ==> r == Failure(TypeError) && sharedCells.cells == old(sharedCells.cells)
      ensures key.Pair? && KeyString(key.c, key.r) !in board ==>
        r == Failure(KeyError) && sharedCells.cells == old(sharedCells.cells)
      ensures key.Pair? && KeyString(key.c, key.r) in board ==>
        && r.Success?
        && sharedCells.cells == old(sharedCells.cells)[(key.c, key.r) := r.value]
        && ((key.c, key.r) in old(sharedCells.cells) ==> r.value == old(sharedCells.cells)[(key.c, key.r)])
        && ((key.c, key.r) !in old(sharedCells.cells) ==>
              fresh(r.value) && r.value.game == this && r.value.column == key.c && r.value.row == key.r)
    {
      if key.NotAPair? {
        return Failure(TypeError);
      }
      var (c, w) := (key.c, key.r);
      if KeyString(c, w) !in board {
        return Failure(KeyError);
      }
      if (c, w) !in sharedCells.cells {
        var cell := new Cell(this, c, w);
        sharedCells.cells := sharedCells.cells[(c, w) := cell];
      }
      r := Success(sharedCells.cells[(c, w)]);
    }

    /** `__getitem__(key)` with the cache kept per game: the same errors, the same Cell for
        repeated lookups of one key, and that Cell always belongs to this game. */
    method GetItemScoped(key: Index) returns (r: Result<Cell, GetItemError>)
      requires Valid()
      modifies this`ownCells
      ensures Valid()
      ensures key.NotAPair? ==> r == Failure(TypeError) && ownCells == old(ownCells)
      ensures key.Pair? && KeyString(key.c, key.r) !in board ==> r == Failure(KeyError) && ownCells == old(ownCells)
      ensures key.Pair? && KeyString(key.c, key.r) in board ==>
        && r.Success? && r.value.game == this && r.value.column == key.c && r.value.row == key.r
        && ownCells == old(ownCells)[(key.c, key.r) := r.value]
        && ((key.c, key.r) in old(ownCells) ==> r.value == old(ownCells)[(key.c, key.r)])
    {
      if key.NotAPair? {
        return Failure(TypeError);
      }
      var (c, w) := (key.c, key.r);
      if KeyString(c, w) !in board {
        return Failure(KeyError);
      }
      if (c, w) !in ownCells {
        var cell := new Cell(this, c, w);
        ownCells := ownCells[(c, w) := cell];
      }
      r := Success(ownCells[(c, w)]);
    }
  }

  // ---------------------------------------------------------------------------
  // The shared cache, shown on two games

  /** Two games on one-cell boards, each asked for cell (0, 0), first one then the other:
      with the shared cache the second game receives the first game's Cell. */
  method SharedCacheHandsOutForeignCell() returns (first: Game, second: Game, cell: Cell)
    ensures first != second
    ensures cell.game == first && cell.game != second
  {
    var cache := new CellCache();
    first := new Game(map["0,0" := EmptyCell], cache);
    second := new Game(map["0,0" := EmptyCell], cache);
    assert KeyString(0, 0) == "0,0";
    var a := first.GetItem(Pair(0, 0));
    var b := second.GetItem(Pair(0, 0));
    cell := b.value;
  }

  /** The same two games with per-game caches: each receives a Cell of its own. */
  method ScopedCacheKeepsCellsApart() returns (first: Game, second: Game, firstCell: Cell, secondCell: Cell)
    ensures first != second
    ensures firstCell.game == first && secondCell.game == second
  {
    var cache := new CellCache();
    first := new Game(map["0,0" := EmptyCell], cache);
    second := new Game(map["0,0" := EmptyCell], cache);
    assert KeyString(0, 0) == "0,0";
    var a := first.GetItemScoped(Pair(0, 0));
    var b := second.GetItemScoped(Pair(0, 0));
    firstCell, secondCell := a.value, b.value;
  }

  /** `game[0, 0] is game[0, 0]`: asking one game twice for a cell on its board yields one
      Cell object, with either cache. */
  method LookupTwiceSameCell(game: Game, c: int, r: int) returns (x: Cell, y: Cell, x': Cell, y': Cell)
    requires game.Valid() && KeyString(c, r) in game.board
    modifies game.sharedCells, game`ownCells
    ensures x == y && x' == y'
    ensures x'.game == game
  {
    var a := game.GetItem(Pair(c, r));
    var b := game.GetItem(Pair(c, r));
    x, y := a.value, b.value;
    var a' := game.GetItemScoped(Pair(c, r));
    var b' := game.GetItemScoped(Pair(c, r));
    x', y' := a'.value, b'.value;
  }
}
