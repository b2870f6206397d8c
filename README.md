# Minesweeper API: board logic in Dafny

A model of the board logic of the `ms_game` Django app, a Minesweeper server, with proofs of its properties.

- **Board.** A board is a list of columns, each a list of cell dicts, addressed as `board[col][row]`. A cell dict has a `status` key (absent, null, `FLAGGED` or `UNCOVERED`) and a `bomb` key.
- **Cells module.** The Cell readings and writes the tests fix: `is_flagged`, `is_covered`, `has_bomb`, `flag`, `unflag` and `uncover`.
- **Models module.** The board: `game[key]` lookup, `get_neighbors`, `cells` and the bomb count.
  - A Cell handle is its coordinate. Every write through a handle is a write of the game's own board, so the aliasing the tests check holds by construction.
  - `Models.Game` is a class whose `board` field the cell operations reassign.
- **Serializers module.** `GameSerializer`:
  - `_count_bombs`;
  - the two fresh-board builders, as nested loops;
  - `_populate_board_with_bombs`, as loops over the board with the remaining-bombs counter;
  - `get_board`, which writes into a covered board in `cells` order;
  - `create`.
- **Views module.** `GameViewset`:
  - `recursive_uncover_neighbors`: the worklist `while` loop. It is proved to terminate, to uncover only covered cells without a bomb, to leave every revealed cell with no bomb around it with its whole neighbourhood uncovered, and to reach every revealed cell through a chain of such cells from the start.
  - `update_cell`, in the source's order: lookup, validation, the cell change, the cascade, then `finished_at`.
- **Numerals module.** `str()` of an int and `int()` of a digit string, which the route parsing and the `"c,r"` keys both use.
- **LegacyModels module.** The string-keyed `Game.__getitem__` of models.py, as written: a `"c,r"` board dict and the class-level `_cells` cache, which every Game shares because it is a class attribute. It sits beside a per-game cache that corrects it (see Findings).

External inputs are parameters:
- `random()` is a function from the call number to a value in [0, 1).
- The number of `while bombs` sweeps followed is a parameter, `sweeps`.
- The results of the serializer validations, the `finished` property and `timezone.now()` are parameters of `UpdateCell`.

## Model

| member | source | states |
|---|---|---|
| Cells.IsCovered | ms_game/tests.py:163-180 | a flagged cell is also covered |
| Cells.StatusReadings | ms_game/tests.py:126-180 | FLAGGED reads flagged and covered; UNCOVERED reads neither; a null or missing status reads covered and not flagged, whatever the bomb key holds |
| Cells.BombReadings | ms_game/tests.py:193-210 | only `bomb: true` reads as a bomb; false, null and missing do not, whatever the status |
| Cells.Flag | ms_game/tests.py:145-150 | after `flag()` the cell is flagged and covered, and its bomb is kept |
| Cells.Unflag | ms_game/tests.py:152-157 | after `unflag()` the cell is covered and not flagged, and its bomb is kept |
| Cells.Uncover | ms_game/tests.py:182-187 | after `uncover()` the cell is neither covered nor flagged, its bomb is kept, and uncovering an uncovered cell changes nothing |
| Cells.PlaceBomb | ms_game/serializers.py:56-57 | `cell["bomb"] = True` makes the cell hold a bomb and leaves its status and readings alone |
| Models.Put | ms_game/tests.py:109-120 | a write through a cell changes that cell of the game's board and no other |
| Models.NeighborKeys | ms_game/tests.py:72-107 | a key is listed exactly when it is on the grid and is one of the eight cells around k |
| Models.NeighborKeysOrdered | ms_game/tests.py:72-107 | the neighbours are listed once each, first coordinate fastest |
| Models.NeighborKeysAtMostEight | ms_game/tests.py:95-107 | no cell has more than eight neighbours |
| Models.NeighborsOfFirstCorner | ms_game/tests.py:77-84 | on a 10x10 board (0,0) has exactly the neighbours (1,0), (0,1), (1,1) |
| Models.NeighborsOfLastCorner | ms_game/tests.py:86-93 | on a 10x10 board (9,9) has exactly the neighbours (8,8), (9,8), (8,9) |
| Models.NeighborsOfInnerCell | ms_game/tests.py:95-107 | on a 10x10 board (4,4) has exactly the eight cells of its 3x3 block minus the centre |
| Models.NeighborCount | ms_game/tests.py:72-107 | on a rectangular board of at least 2x2 a corner has 3 neighbours, another border cell 5, an inner cell 8 |
| Models.NeighborPairs | ms_game/views.py:100 | `get_neighbors` yields the listed neighbour keys, each with the cell the board holds there |
| Models.CellKeys | ms_game/tests.py:47-54 | `cells` lists every cell of a cols x rows board exactly once, cols*rows in all, first coordinate fastest |
| Models.CellsStartAtOrigin | ms_game/tests.py:47-54 | with at least two columns and a row, `cells` starts with (0,0) and then (1,0) |
| Models.Cols | ms_game/serializers.py:13 | `cols` is the number of columns: 0 exactly on an empty board, and above every column index of the board |
| Models.Rows | ms_game/serializers.py:14 | `rows` is the length of the first column, and the length of every column of a rectangular board |
| Models.ColumnBombs | ms_game/tests.py:257-263 | a column's bomb count is at most its length, 0 exactly when no cell has a bomb, the length exactly when all do |
| Models.GridBombs | ms_game/tests.py:257-263 | `bombs` is at most the number of cells, 0 exactly when no cell has a bomb, the number of cells exactly when all do |
| Models.RectangularCellCount | ms_game/serializers.py:49 | a rectangular board has `len(board) * len(board[0])` cells |
| Models.PlaceBombAddsOne | ms_game/serializers.py:56-58 | putting a bomb into a cell without one raises the bomb count by exactly one |
| Models.Game.Bombs | ms_game/serializers.py:15 | the game's `bombs` is 0 exactly when no cell has a bomb, and at most the number of cells, cols*rows on a rectangular board |
| Models.Game.constructor | ms_game/tests.py:43 | a created game holds the given player and board, with `finished_at` unset |
| Models.Game.Lookup | ms_game/tests.py:56-70 | `game[key]` succeeds exactly for a key on the board and then hands out the handle of that cell; off the board, including on an empty board, it fails with IndexError |
| Models.Game.Cells | ms_game/tests.py:47-54 | the keys of `game.cells` are exactly the cells of the board, cols*rows of them |
| Models.Game.FlagCell | ms_game/tests.py:109-120 | flagging through a handle flags that dict of the board and changes nothing else |
| Models.Game.UnflagCell | ms_game/tests.py:152-157 | unflagging through a handle unflags that dict of the board and changes nothing else |
| Models.Game.UncoverCell | ms_game/tests.py:182-187 | uncovering through a handle uncovers that dict of the board and changes nothing else |
| Serializers.CountBombs | ms_game/serializers.py:23-25 | the count is at most the number of pairs, and 0 exactly when no pair's cell has a bomb |
| Serializers.CountBombsIsCardinality | ms_game/serializers.py:23-25 | `_count_bombs` is the number of positions whose cell has a bomb |
| Serializers.CountBombsOfDistinctKeys | ms_game/serializers.py:23-25 | over pairs with distinct keys, `_count_bombs` is the number of keys whose cell has a bomb |
| Serializers.NeighborBombsZeroIffSafe | ms_game/serializers.py:76 | the count shown for a cell is 0 exactly when no adjacent cell has a bomb, and never more than 8 |
| Serializers.NeighborBombsCountsAdjacentBombs | ms_game/serializers.py:75-77 | the count shown for a cell is the number of adjacent cells holding a bomb |
| Serializers.NewCoveredBoard | ms_game/serializers.py:27-35 | `cols` lists of `rows` entries, all "c" (none for a non-positive count) |
| Serializers.NewDataBoard | ms_game/serializers.py:37-45 | `cols` lists of `rows` dicts, all empty |
| Serializers.PlaceInColumn | ms_game/serializers.py:55-58 | one pass over a list only adds bombs, lowers the counter by the bombs it adds and never below zero, changes nothing when no bombs remain or the probability is 0, and with probability 1 empties the counter or fills the list |
| Serializers.Sweep | ms_game/serializers.py:54-58 | one sweep over the board keeps the same facts for the whole board |
| Serializers.PopulateBoardWithBombs | ms_game/serializers.py:47-60 | an empty board fails at `board[0]`; zero cells divide by zero; otherwise, when the loop ends, only bombs were added and exactly min(size, bombs) of them; with 0 bombs the board is unchanged; with negative bombs the loop never ends; a bomb-free rectangular board asked for at least as many bombs as it has cells is filled in the first sweep |
| Serializers.OnlyAddsBombsTransitive | ms_game/serializers.py:53-58 | successive sweeps that only add bombs together only add bombs |
| Serializers.GetBoard | ms_game/serializers.py:62-79 | the rendered board is cols x rows, and each cell shows "f" when flagged, its neighbour bomb count when uncovered (bomb or not), "c" otherwise |
| Serializers.CoveredCellHidesBomb | ms_game/serializers.py:68-78 | what a covered cell shows depends on its flag alone, never on its bomb |
| Serializers.FreshBoardRendersCovered | ms_game/tests.py:222-226 | a board of empty dicts renders as all "c" |
| Serializers.UncoveredCellShowsTwo | ms_game/serializers.py:75-77 | an uncovered cell with exactly two adjacent bombs shows 2 |
| Serializers.UncoveredCellBetweenTwoBombsShowsTwo | ms_game/tests.py:228-236 | on 8x9 empty cells with bombs at (2,2) and (2,4) and (2,3) uncovered, (2,3) shows 2 |
| Serializers.TestBoardFields | ms_game/tests.py:247-263 | on 8x9 empty cells with bombs at (2,2), (3,3) and (5,3), cols is 8, rows is 9 and bombs is 3 |
| Serializers.Create | ms_game/serializers.py:81-96 | no columns fails at `board[0]`, no rows divides by zero, negative bombs never end; otherwise a fresh game of the requesting user with a cols x rows board, every cell covered, exactly min(cols*rows, bombs) bombs, every cell bombed when bombs >= cols*rows, and that case succeeds after one sweep |
| Views.ScanNeighbors | ms_game/views.py:100-106 | the first pass keeps every neighbour handle, its flag is set exactly when some neighbour has a bomb, and it collects exactly the covered neighbours |
| Views.InspectNeighbors | ms_game/views.py:95-106 | the same pass over `get_neighbors`: the flag is set exactly when an adjacent cell has a bomb, and the keys are exactly the covered adjacent cells |
| Views.BombAmongNeighbors | ms_game/views.py:100-103 | a listed neighbour has a bomb exactly when some adjacent cell does |
| Views.UncoverAll | ms_game/views.py:109 | every listed cell is uncovered and no other cell changes |
| Views.ExpandCell | ms_game/views.py:93-111 | with a bomb among the neighbours nothing changes and nothing is added; otherwise the cell and all its neighbours, flagged ones included, are uncovered, and exactly the neighbours that were covered are added |
| Views.ExpandOnlyUncovers | ms_game/views.py:108-110 | an expansion from an uncovered cell without a bomb only uncovers covered cells without a bomb |
| Views.ExpandShrinksMeasure | ms_game/views.py:89-111 | the added keys were covered and are not yet in the worklist, so covered cells plus worklist size drops by exactly one per iteration |
| Views.OnlyUncoversKeepsMines | ms_game/views.py:108-110 | a board that only uncovers keeps every bomb where it was |
| Views.PathFromExtend | ms_game/views.py:108-111 | a chain to a cell with no bomb around it extends to any neighbour it reveals |
| Views.ExpandPreservesInvariant | ms_game/views.py:91-111 | one iteration keeps the loop invariant: the worklist holds uncovered bomb-free cells, each popped cell with no bomb around it has its neighbours uncovered, and every revealed cell is queued or popped and has a chain from the start |
| Views.InvariantGivesCascaded | ms_game/views.py:91-111 | when the worklist is empty the invariant gives the cascade's outcome |
| Views.RecursiveUncoverNeighbors | ms_game/views.py:81-111 | a key off the board fails at the lookup; a covered or bomb start changes nothing; otherwise only covered bomb-free cells are uncovered, the start and every revealed cell with no bomb around it have all neighbours uncovered, and every revealed cell is reached from the start through such cells |
| Views.Apply | ms_game/views.py:71-73 | the saved cell change keeps the bomb; flag flags, unflag leaves the cell covered and unflagged, uncover uncovers |
| Views.RouteKey | ms_game/views.py:55-60 | the route's two segments give a key exactly when neither is empty, and that key is non-negative |
| Views.UpdateCell | ms_game/views.py:58-79 | an empty route segment raises ValueError, a key off the board gives 404, and a rejected validation changes nothing; otherwise the cell change is saved, the cascade runs from that cell on the saved board, and `finished_at` is set to now when the game is finished afterwards |
| Numerals.NatToString | ms_game/models.py:31 | `str(n)` is a non-empty string of digits, of two or more for n >= 10 |
| Numerals.IntToString | ms_game/models.py:31 | `str(i)` holds no comma and starts with "-" exactly when i is negative |
| Numerals.NatToStringInjective | ms_game/models.py:31 | different numbers print differently |
| Numerals.IntToStringInjective | ms_game/models.py:31 | different ints print differently |
| Numerals.ParseInt | ms_game/views.py:60 | `int(s)` of a digit string fails exactly on the empty string |
| Numerals.ParseIntOfStr | ms_game/views.py:60 | `int(str(n)) == n` for every non-negative n |
| LegacyModels.KeyString | ms_game/models.py:31 | `f"{c},{r}"` is `str(c)`, one comma, then `str(r)`, and the first comma is the separator |
| LegacyModels.KeyStringInjective | ms_game/models.py:31 | different cells have different `"c,r"` keys |
| LegacyModels.CellCache.constructor | ms_game/models.py:21 | `_cells` starts empty |
| LegacyModels.Cell.constructor | ms_game/models.py:45-51 | a Cell holds the game, column and row it was made with |
| LegacyModels.Game.constructor | ms_game/models.py:13-21 | a game holds its board and the cache it is given, which stands for the class attribute `_cells` |
| LegacyModels.Game.GetItem | ms_game/models.py:23-36 | a key that is not a pair raises TypeError and a missing `"c,r"` key raises KeyError, both with the cache untouched; otherwise the cached Cell for (c, r) is returned, made for this game and cached only when no game has asked for (c, r) before |
| LegacyModels.Game.GetItemScoped | ms_game/models.py:23-36 | the same errors and the same Cell for repeated lookups, with a cache per game, so the Cell always belongs to this game |
| LegacyModels.SharedCacheHandsOutForeignCell | ms_game/models.py:21-36 | two games asking for (0,0) in turn: the second receives the first game's Cell |
| LegacyModels.ScopedCacheKeepsCellsApart | ms_game/models.py:21-36 | with per-game caches each game receives its own Cell |
| LegacyModels.LookupTwiceSameCell | ms_game/models.py:33-36 | two lookups of one key on one game return one Cell object, with either cache |

## Left out

- Persistence, HTTP routing, authentication, authorisation, swagger decorators, `filter_queryset`, `game.save()`, the `uuid` and `timelog` fields and the admin are not modelled.
- The `Cell` wrapper class over a cell dict, and `Game.cells`, `get_neighbors` and the list-based `game[key]`, are not defined in models.py as it stands. The model takes their behaviour from what tests.py asserts, except for the neighbour listing order noted below. A Cell handle is its coordinate, so the dict identity the tests check (`cell._data is game.board[0][0]`) is modelled as writes going into the game's own board.
- `unflag()` is defined in none of models.py, views.py, serializers.py and tests.py. It is modelled as writing null to `status`, which the tests read as covered and not flagged.
- `game.finished`, `won` and the finished-game validation of `GameSerializer` are defined in none of those four files. `finished` is a parameter of `UpdateCell`, and so are the outcome of the game validation (`gameValid`), the outcome of `CellSerializer` (`change`) and `timezone.now()`.
- Serializers.PopulateBoardWithBombs: `random()` is a parameter giving the value of each call. The distribution of bomb placement is not modelled, nor is the probabilistic termination of `while bombs`. The loop is followed for at most `sweeps` passes and reports StillRunning after that.
- Serializers.PopulateBoardWithBombs: `bombs / size` is exact real division. Floating-point rounding of the probability is not modelled.
- Serializers.Create: the `validated_data` dict and the serializer's field validation are not modelled. `cols`, `rows` and `bombs` arrive as ints.
- Models.Game.Lookup: it requires non-negative coordinates, which is all `int()` of the `update_cell` route's digit strings can produce. Python's negative-index wrap-around on lists is not modelled.
- Models.Game.Cells: it requires a rectangular board. `cells` is not defined in these files, and its enumeration of a ragged board is not modelled.
- Serializers.GetBoard: it requires a rectangular board. On a ragged board the result depends on `obj.cols`, `obj.rows` and `obj.cells`, which models.py does not define, so that case is not modelled.
- Models.Rows: an empty board has 0 rows by this model's choice, where `len(board[0])` would raise IndexError. This choice decides what Serializers.GetBoard renders for an empty board: no columns.
- LegacyModels.Game.GetItem: keys are pairs of ints or "not a pair". Unpacking of other two-element iterables, the unhashable-key TypeError of a list key and `f"{c},{r}"` of non-int parts are not modelled.
- Views.RecursiveUncoverNeighbors: `keys_to_check.pop()` takes an arbitrary element. The model picks any member, so every property holds for every pop order.
- The tests' `create_data_board` and `create_covered_board` build the same boards as `_get_new_data_board` and `_get_new_covered_board`. They are modelled once, by `Serializers.NewDataBoard` and `Serializers.NewCoveredBoard`.
- Some behaviours of the code are worth stating plainly:
  - An uncovered cell with a bomb renders as its neighbour bomb count, like any other uncovered cell (serializers.py:75-77).
  - `finished_at` is reassigned every time `game.finished` holds after a change (views.py:75-76).
  - No columns make `_populate_board_with_bombs` fail at `board[0]`, and no rows make it divide by zero (serializers.py:49-50). Negative `cols`/`rows` give empty ranges and then fail the same way.
  - The cascade runs after every cell change, not only after an uncover (views.py:74). It does nothing unless the cell ends up uncovered and without a bomb.
- Whether `CellSerializer` rejects a change, for instance to a cell that is already uncovered, is the `change` parameter of `UpdateCell`. `CellSerializer` is defined in none of the four files.
- The order in which `get_neighbors` lists the neighbours, and that it lists each one once, are this model's choice: the row above first, first coordinate fastest. tests.py:72-107 compares `dict(game.get_neighbors(key))`, which fixes neither. `Serializers.NeighborBombsCountsAdjacentBombs` relies on each neighbour being listed once, because `_count_bombs` counts pairs.

## Findings

| source | as written | input that shows it | evidently intended | confidence | as-written member | corrected member |
|---|---|---|---|---|---|---|
| ms_game/models.py:21-36 | `_cells = {}` is a class attribute keyed by `(c, r)` alone, so one cache is shared by every Game | two games with board `{"0,0": {}}`: `first[0, 0]`, then `second[0, 0]` returns the Cell whose `game` is `first` | a cache per game, so `game[key].game is game` | not executed | LegacyModels.SharedCacheHandsOutForeignCell | LegacyModels.ScopedCacheKeepsCellsApart |
