/**
 * GameViewset: the `update_cell` action and the cascade that uncovers the
 * neighbourhood of every uncovered cell with no bomb around it.
 */
module Views {
  import opened Wrappers
  import opened Cells
  import opened Models
  import opened Numerals

  // ---------------------------------------------------------------------------
  // What the cascade may change, and what it must reach

  /** The only change from before to after: a covered (possibly flagged) cell without a bomb
      becomes uncovered. Bombs never change and no bomb is ever uncovered. */
  ghost predicate OnlyUncovers(before: Board, after: Board) {
    SameShape(before, after) &&
    forall c, w :: 0 <= c < |before| && 0 <= w < |before[c]| ==>
      after[c][w] == before[c][w] ||
      (IsCovered(before[c][w]) && !HasBomb(before[c][w]) && after[c][w] == Uncover(before[c][w]))
  }

  /** The cell at k was changed, that is uncovered, on the way from before to after. */
  ghost predicate Revealed(before: Board, after: Board, k: Key)
    requires SameShape(before, after)
  {
    InGrid(before, k) && after[k.0][k.1] != before[k.0][k.1]
  }

  /** Every cell adjacent to k is uncovered. */
  ghost predicate NeighborsUncovered(b: Board, k: Key) {
    forall n :: InGrid(b, n) && Adjacent(k, n) ==> !IsCovered(At(b, n))
  }

  /** A chain of adjacent cells from start to k along which the cascade can spread: every
      cell but the last has no bomb around it, and every cell after the first was revealed. */
  ghost predicate PathFrom(before: Board, after: Board, start: Key, path: seq<Key>, k: Key)
    requires SameShape(before, after)
  {
    && |path| > 0 && path[0] == start && path[|path| - 1] == k
    && (forall i :: 0 <= i < |path| ==> InGrid(before, path[i]))
    && (forall i :: 0 < i < |path| ==> Revealed(before, after, path[i]))
    && (forall i :: 0 <= i < |path| - 1 ==> NoBombNeighbor(Mines(before), path[i]) && Adjacent(path[i], path[i + 1]))
  }

  /** The outcome of a cascade from an uncovered cell without a bomb: only covered cells
      without bombs were uncovered; the start and every revealed cell with no bomb around it
      have all their neighbours uncovered; and every revealed cell was reached from the start
      through revealed cells with no bomb around them. */
  ghost predicate Cascaded(before: Board, after: Board, start: Key)
    requires InGrid(before, start)
  {
    && OnlyUncovers(before, after)
    && (forall k :: InGrid(before, k) && (k == start || Revealed(before, after, k)) && NoBombNeighbor(Mines(before), k) ==>
          NeighborsUncovered(after, k))
    && (forall k :: InGrid(before, k) && Revealed(before, after, k) ==>
          exists path :: PathFrom(before, after, start, path, k))
  }

  /** The covered cells of a board. */
  ghost function CoveredKeys(b: Board): set<Key> {
    set c, w | 0 <= c < |b| && 0 <= w < |b[c]| && IsCovered(b[c][w]) :: (c, w)
  }

  lemma CoveredKeysMembership(b: Board, k: Key)
    ensures k in CoveredKeys(b) <==> InGrid(b, k) && IsCovered(At(b, k))
  {
    if InGrid(b, k) && IsCovered(At(b, k)) {
      var (c, w) := k;
      assert (c, w) in CoveredKeys(b);
    }
  }

  // ---------------------------------------------------------------------------
  // Basic facts about OnlyUncovers

  lemma OnlyUncoversKeepsMines(before: Board, after: Board)
    requires OnlyUncovers(before, after)
    ensures Mines(after) == Mines(before)
  {
    var ma, mb := Mines(after), Mines(before);
    forall c | 0 <= c < |before| ensures ma[c] == mb[c] {
      assert |ma[c]| == |mb[c]|;
      forall w | 0 <= w < |before[c]| ensures ma[c][w] == mb[c][w] {
      }
    }
  }

  lemma OnlyUncoversTransitive(a: Board, b: Board, c: Board)
    requires OnlyUncovers(a, b) && OnlyUncovers(b, c)
    ensures OnlyUncovers(a, c)
    ensures forall k :: InGrid(a, k) && Revealed(a, b, k) ==> Revealed(a, c, k)
  {
  }

  /** Uncovered cells stay uncovered. */
  lemma NeighborsStayUncovered(b0: Board, b1: Board, k: Key)
    requires OnlyUncovers(b0, b1) && NeighborsUncovered(b0, k)
    ensures NeighborsUncovered(b1, k)
  {
  }

  // ---------------------------------------------------------------------------
  // One iteration of the while loop

  /** A listed neighbour holds a bomb exactly when some adjacent cell does. */
  lemma BombAmongNeighbors(b: Board, k: Key)
    ensures (exists n :: n in NeighborKeys(b, k) && InGrid(b, n) && HasBomb(At(b, n))) <==> !NoBombNeighbor(Mines(b), k)
  {
    var ns := NeighborKeys(b, k);
    if exists n :: n in ns && InGrid(b, n) && HasBomb(At(b, n)) {
      var n :| n in ns && InGrid(b, n) && HasBomb(At(b, n));
      assert Mines(b)[n.0][n.1];
    } else {
      forall n {:trigger Adjacent(k, n)} | InGrid(Mines(b), n) && Adjacent(k, n) ensures !Mines(b)[n.0][n.1] {
        assert n in ns;
      }
    }
  }

  /** The loop of the first pass over the neighbour handles `all`: it copies them into
      `neighbors`, notes whether one holds a bomb, and collects the keys of the covered ones. */
  method ScanNeighbors(b: Board, all: seq<Key>) returns (neighborHasBomb: bool, neighbors: seq<Key>, neighborKeys: seq<Key>)
    requires forall n :: n in all ==> InGrid(b, n)
    ensures neighbors == all
    ensures neighborHasBomb <==> exists n :: n in all && InGrid(b, n) && HasBomb(At(b, n))
    ensures forall n :: n in neighborKeys <==> n in all && InGrid(b, n) && IsCovered(At(b, n))
  {
    neighborHasBomb, neighbors, neighborKeys := false, [], [];
    var i := 0;
    while i < |all|
      invariant 0 <= i <= |all|
      invariant neighbors == all[..i]
      invariant neighborHasBomb <==> exists n :: n in neighbors && InGrid(b, n) && HasBomb(At(b, n))
      invariant forall n :: n in neighborKeys <==> n in neighbors && InGrid(b, n) && IsCovered(At(b, n))
    {
      var n := all[i];
      assert n in all;
      neighbors := neighbors + [n];
      if HasBomb(At(b, n)) {
        neighborHasBomb := true;
      }
      if IsCovered(At(b, n)) {
        neighborKeys := neighborKeys + [n];
      }
      i := i + 1;
    }
    assert all[..i] == all;
  }

  /** The first pass over `game.get_neighbors(current_cell_key)`: whether a neighbour holds
      a bomb, the neighbour handles, and the keys of the neighbours that are covered. */
  method InspectNeighbors(b: Board, k: Key) returns (neighborHasBomb: bool, neighbors: seq<Key>, neighborKeys: seq<Key>)
    ensures neighbors == NeighborKeys(b, k)
    ensures neighborHasBomb <==> !NoBombNeighbor(Mines(b), k)
    ensures forall n :: n in neighborKeys <==> InGrid(b, n) && Adjacent(k, n) && IsCovered(At(b, n))
  {
    neighborHasBomb, neighbors, neighborKeys := ScanNeighbors(b, NeighborKeys(b, k));
    BombAmongNeighbors(b, k);
  }

  /** `[cell.uncover() for cell in neighbors]`: every listed cell is uncovered, nothing else changes. */
  method UncoverAll(game: Game, keys: seq<Key>)
    requires forall n :: n in keys ==> InGrid(game.board, n)
    modifies game`board
    ensures SameShape(old(game.board), game.board)
    ensures forall c, w :: 0 <= c < |game.board| && 0 <= w < |game.board[c]| ==>
      game.board[c][w] == if (c, w) in keys then Uncover(old(game.board)[c][w]) else old(game.board)[c][w]
  {
    var i := 0;
    while i < |keys|
      invariant 0 <= i <= |keys|
      invariant SameShape(old(game.board), game.board)
      invariant forall c, w :: 0 <= c < |game.board| && 0 <= w < |game.board[c]| ==>
        game.board[c][w] == if (c, w) in keys[..i] then Uncover(old(game.board)[c][w]) else old(game.board)[c][w]
    {
      assert keys[..i + 1] == keys[..i] + [keys[i]];
      assert keys[i] in keys;
      game.UncoverCell(keys[i]);
      i := i + 1;
    }
    assert keys[..i] == keys;
  }

  /** The effect of one iteration for the popped key `current`, from board b0 to b1, returning
      the keys that join the worklist. With a bomb among its neighbours nothing changes and
      nothing is added; otherwise the cell and every neighbour, flagged ones included, are
      uncovered, and exactly the neighbours that were covered are added. */
  ghost predicate ExpandEffect(b0: Board, b1: Board, current: Key, added: seq<Key>) {
    if !NoBombNeighbor(Mines(b0), current) then
      b1 == b0 && added == []
    else
      && SameShape(b0, b1)
      && (forall c, w :: 0 <= c < |b0| && 0 <= w < |b0[c]| ==>
            b1[c][w] == if (c, w) == current || Adjacent(current, (c, w)) then Uncover(b0[c][w]) else b0[c][w])
      && (forall n :: n in added <==> InGrid(b0, n) && Adjacent(current, n) && IsCovered(At(b0, n)))
  }

  /** The body of the while loop for the popped key `current`. */
  method ExpandCell(game: Game, current: Key) returns (added: seq<Key>)
    requires InGrid(game.board, current)
    modifies game`board
    ensures ExpandEffect(old(game.board), game.board, current, added)
  {
    var neighborHasBomb, neighbors, neighborKeys := InspectNeighbors(game.board, current);
    if !neighborHasBomb {
      UncoverAll(game, neighbors);
      game.UncoverCell(current);
      added := neighborKeys;
    } else {
      added := [];
    }
  }

  // ---------------------------------------------------------------------------
  // The loop invariant of the cascade

  /** The facts that hold at the head of the while loop, with the worklist `work`, the popped
      keys `processed` and, for every reached key, a chain from the start (`pathTo`). */
  ghost predicate CascadeInvariant(before: Board, board: Board, start: Key, work: set<Key>, processed: set<Key>,
                                   pathTo: map<Key, seq<Key>>)
  {
    && InGrid(before, start)
    && OnlyUncovers(before, board)
    && (forall k :: k in work ==> InGrid(before, k) && !IsCovered(At(board, k)) && !HasBomb(At(before, k)) && k in pathTo)
    && (forall k :: k in processed ==> InGrid(before, k) && (NoBombNeighbor(Mines(before), k) ==> NeighborsUncovered(board, k)))
    && (start in processed || start in work)
    && (forall k :: InGrid(before, k) && Revealed(before, board, k) ==> (k in processed || k in work) && k in pathTo)
    && (forall k :: k in pathTo ==> PathFrom(before, board, start, pathTo[k], k))
  }

  /** The keys of a list, as the worklist set holds them. */
  function KeySet(s: seq<Key>): (r: set<Key>)
    ensures forall k :: k in r <==> k in s
  {
    set k | k in s
  }

  /** The chains of the keys added when `current` expands: current's chain, one step further. */
  ghost function ExtendPaths(pathTo: map<Key, seq<Key>>, current: Key, added: seq<Key>): map<Key, seq<Key>>
    requires current in pathTo
  {
    pathTo + map n | n in added :: pathTo[current] + [n]
  }

  /** A chain stays a chain while the board only uncovers further. */
  lemma PathFromStable(before: Board, b0: Board, b1: Board, start: Key, path: seq<Key>, k: Key)
    requires OnlyUncovers(before, b0) && OnlyUncovers(b0, b1)
    requires PathFrom(before, b0, start, path, k)
    ensures OnlyUncovers(before, b1) && PathFrom(before, b1, start, path, k)
  {
    OnlyUncoversTransitive(before, b0, b1);
  }

  /** A chain to a cell with no bomb around it extends to any neighbour revealed later. */
  lemma {:induction false} PathFromExtend(before: Board, after: Board, start: Key, path: seq<Key>, k: Key, n: Key)
    requires SameShape(before, after)
    requires PathFrom(before, after, start, path, k)
    requires NoBombNeighbor(Mines(before), k) && Adjacent(k, n) && InGrid(before, n) && Revealed(before, after, n)
    ensures PathFrom(before, after, start, path + [n], n)
  {
    var p := path + [n];
    forall i | 0 <= i < |p| - 1 ensures NoBombNeighbor(Mines(before), p[i]) && Adjacent(p[i], p[i + 1]) {
      if i < |path| - 1 {
        assert p[i] == path[i] && p[i + 1] == path[i + 1];
      } else {
        assert p[i] == k && p[i + 1] == n;
      }
    }
    forall i | 0 < i < |p| ensures Revealed(before, after, p[i]) {
      if i < |path| {
        assert p[i] == path[i];
      }
    }
  }

  /** What ExpandCell changes is itself an OnlyUncovers step, when current has no bomb. */
  lemma ExpandOnlyUncovers(b0: Board, b1: Board, current: Key, added: seq<Key>)
    requires InGrid(b0, current) && !HasBomb(At(b0, current)) && !IsCovered(At(b0, current))
    requires ExpandEffect(b0, b1, current, added)
    ensures OnlyUncovers(b0, b1)
  {
    if NoBombNeighbor(Mines(b0), current) {
      forall c, w | 0 <= c < |b0| && 0 <= w < |b0[c]| && Adjacent(current, (c, w)) ensures !HasBomb(b0[c][w]) {
        assert InGrid(Mines(b0), (c, w));
        assert !Mines(b0)[c][w];
      }
    }
  }

  /** An iteration from an uncovered cell uncovers exactly the keys it adds, all of which
      were covered before. */
  lemma CoveredKeysAfterExpand(b0: Board, b1: Board, current: Key, added: seq<Key>)
    requires InGrid(b0, current) && !IsCovered(At(b0, current))
    requires ExpandEffect(b0, b1, current, added)
    ensures KeySet(added) <= CoveredKeys(b0)
    ensures CoveredKeys(b1) == CoveredKeys(b0) - KeySet(added)
  {
    forall k | k in KeySet(added) ensures k in CoveredKeys(b0) {
      CoveredKeysMembership(b0, k);
    }
    forall k ensures k in CoveredKeys(b1) <==> k in CoveredKeys(b0) && k !in KeySet(added) {
      CoveredKeysMembership(b0, k);
      CoveredKeysMembership(b1, k);
    }
  }

  /** Keys of uncovered cells are not among the covered ones. */
  lemma UncoveredApartFromCovered(b: Board, keys: set<Key>, covered: set<Key>)
    requires forall k :: k in keys ==> InGrid(b, k) && !IsCovered(At(b, k))
    requires covered <= CoveredKeys(b)
    ensures keys !! covered
  {
    forall k | k in keys && k in covered ensures false {
      CoveredKeysMembership(b, k);
    }
  }

  /** Moving `moved` from `pool` into a disjoint `rest` keeps the total size. */
  lemma MoveKeepsTotal(pool: set<Key>, moved: set<Key>, rest: set<Key>)
    requires moved <= pool && rest !! moved
    ensures |pool - moved| + |rest + moved| == |pool| + |rest|
  {
    assert pool == (pool - moved) + moved;
  }

  /** The worklist and the covered cells together shrink by exactly one per iteration. */
  lemma ExpandShrinksMeasure(b0: Board, b1: Board, current: Key, added: seq<Key>, work: set<Key>)
    requires InGrid(b0, current) && !IsCovered(At(b0, current)) && current in work
    requires forall k :: k in work ==> InGrid(b0, k) && !IsCovered(At(b0, k))
    requires ExpandEffect(b0, b1, current, added)
    ensures |CoveredKeys(b1)| + |(work - {current}) + KeySet(added)| + 1 == |CoveredKeys(b0)| + |work|
  {
    var rest := work - {current};
    assert |rest| + 1 == |work|;
    CoveredKeysAfterExpand(b0, b1, current, added);
    UncoveredApartFromCovered(b0, rest, KeySet(added));
    MoveKeepsTotal(CoveredKeys(b0), KeySet(added), rest);
  }

  /** The facts every part of one iteration's proof starts from. */
  ghost predicate ExpandStep(before: Board, b0: Board, b1: Board, start: Key, work: set<Key>,
                             processed: set<Key>, pathTo: map<Key, seq<Key>>, current: Key, added: seq<Key>)
  {
    CascadeInvariant(before, b0, start, work, processed, pathTo) && current in work && ExpandEffect(b0, b1, current, added)
  }

  /** After one iteration the board still only uncovers relative to the start of the cascade. */
  lemma ExpandKeepsOnlyUncovers(before: Board, b0: Board, b1: Board, start: Key, work: set<Key>,
                                processed: set<Key>, pathTo: map<Key, seq<Key>>, current: Key, added: seq<Key>)
    requires ExpandStep(before, b0, b1, start, work, processed, pathTo, current, added)
    ensures OnlyUncovers(b0, b1) && OnlyUncovers(before, b1) && Mines(b0) == Mines(before)
  {
    OnlyUncoversKeepsMines(before, b0);
    ExpandOnlyUncovers(b0, b1, current, added);
    OnlyUncoversTransitive(before, b0, b1);
  }

  /** The worklist: the old keys stay uncovered, the added ones were covered and are uncovered now. */
  lemma ExpandKeepsWorklist(before: Board, b0: Board, b1: Board, start: Key, work: set<Key>,
                            processed: set<Key>, pathTo: map<Key, seq<Key>>, current: Key, added: seq<Key>)
    requires ExpandStep(before, b0, b1, start, work, processed, pathTo, current, added)
    ensures forall k :: k in (work - {current}) + KeySet(added) ==>
      InGrid(before, k) && !IsCovered(At(b1, k)) && !HasBomb(At(before, k)) && k in ExtendPaths(pathTo, current, added)
  {
    ExpandKeepsOnlyUncovers(before, b0, b1, start, work, processed, pathTo, current, added);
    forall k | k in (work - {current}) + KeySet(added)
      ensures InGrid(before, k) && !IsCovered(At(b1, k)) && !HasBomb(At(before, k)) && k in ExtendPaths(pathTo, current, added)
    {
      if k in added {
        assert NoBombNeighbor(Mines(b0), current);
        assert InGrid(Mines(b0), k) && !Mines(b0)[k.0][k.1];
      }
    }
  }

  /** The processed keys keep their neighbourhoods uncovered; current has its own uncovered now. */
  lemma ExpandKeepsProcessed(before: Board, b0: Board, b1: Board, start: Key, work: set<Key>,
                             processed: set<Key>, pathTo: map<Key, seq<Key>>, current: Key, added: seq<Key>)
    requires ExpandStep(before, b0, b1, start, work, processed, pathTo, current, added)
    ensures forall k :: k in processed + {current} ==>
      InGrid(before, k) && (NoBombNeighbor(Mines(before), k) ==> NeighborsUncovered(b1, k))
  {
    ExpandKeepsOnlyUncovers(before, b0, b1, start, work, processed, pathTo, current, added);
    forall k | k in processed + {current} ensures InGrid(before, k) && (NoBombNeighbor(Mines(before), k) ==> NeighborsUncovered(b1, k)) {
      if k in processed && NoBombNeighbor(Mines(before), k) {
        NeighborsStayUncovered(b0, b1, k);
      }
    }
  }

  /** Every revealed cell was popped or waits in the worklist, and has a chain. */
  lemma ExpandKeepsRevealed(before: Board, b0: Board, b1: Board, start: Key, work: set<Key>,
                            processed: set<Key>, pathTo: map<Key, seq<Key>>, current: Key, added: seq<Key>)
    requires ExpandStep(before, b0, b1, start, work, processed, pathTo, current, added)
    ensures SameShape(before, b1)
    ensures forall k :: InGrid(before, k) && Revealed(before, b1, k) ==>
      (k in processed + {current} || k in (work - {current}) + KeySet(added)) && k in ExtendPaths(pathTo, current, added)
  {
    ExpandKeepsOnlyUncovers(before, b0, b1, start, work, processed, pathTo, current, added);
    forall k | InGrid(before, k) && Revealed(before, b1, k)
      ensures (k in processed + {current} || k in (work - {current}) + KeySet(added)) && k in ExtendPaths(pathTo, current, added)
    {
      if !Revealed(before, b0, k) {
        assert b0[k.0][k.1] == before[k.0][k.1];
        assert k in added;
      }
    }
  }

  /** The chains: the old ones survive, the new ones extend current's. */
  lemma ExpandKeepsPaths(before: Board, b0: Board, b1: Board, start: Key, work: set<Key>,
                         processed: set<Key>, pathTo: map<Key, seq<Key>>, current: Key, added: seq<Key>)
    requires ExpandStep(before, b0, b1, start, work, processed, pathTo, current, added)
    ensures SameShape(before, b1)
    ensures var pathTo' := ExtendPaths(pathTo, current, added);
      forall k :: k in pathTo' ==> PathFrom(before, b1, start, pathTo'[k], k)
  {
    ExpandKeepsOnlyUncovers(before, b0, b1, start, work, processed, pathTo, current, added);
    var pathTo' := ExtendPaths(pathTo, current, added);
    forall k | k in pathTo' ensures PathFrom(before, b1, start, pathTo'[k], k) {
      if k in added {
        PathFromStable(before, b0, b1, start, pathTo[current], current);
        assert b0[k.0][k.1] == before[k.0][k.1];
        PathFromExtend(before, b1, start, pathTo[current], current, k);
      } else {
        PathFromStable(before, b0, b1, start, pathTo[k], k);
      }
    }
  }

  /** One iteration keeps the loop invariant. */
  lemma ExpandPreservesInvariant(before: Board, b0: Board, b1: Board, start: Key, work: set<Key>,
                                 processed: set<Key>, pathTo: map<Key, seq<Key>>, current: Key, added: seq<Key>)
    requires CascadeInvariant(before, b0, start, work, processed, pathTo)
    requires current in work
    requires ExpandEffect(b0, b1, current, added)
    ensures current in pathTo
    ensures CascadeInvariant(before, b1, start, (work - {current}) + KeySet(added), processed + {current},
                             ExtendPaths(pathTo, current, added))
  {
    ExpandKeepsOnlyUncovers(before, b0, b1, start, work, processed, pathTo, current, added);
    ExpandKeepsWorklist(before, b0, b1, start, work, processed, pathTo, current, added);
    ExpandKeepsProcessed(before, b0, b1, start, work, processed, pathTo, current, added);
    ExpandKeepsRevealed(before, b0, b1, start, work, processed, pathTo, current, added);
    ExpandKeepsPaths(before, b0, b1, start, work, processed, pathTo, current, added);
  }

  /** With an empty worklist the invariant gives the cascade's outcome. */
  lemma InvariantGivesCascaded(before: Board, board: Board, start: Key, processed: set<Key>, pathTo: map<Key, seq<Key>>)
    requires CascadeInvariant(before, board, start, {}, processed, pathTo)
    ensures Cascaded(before, board, start)
  {
    forall k | InGrid(before, k) && Revealed(before, board, k) ensures exists path :: PathFrom(before, board, start, path, k) {
      assert PathFrom(before, board, start, pathTo[k], k);
    }
  }

  // ---------------------------------------------------------------------------
  // The cascade

  /** `recursive_uncover_neighbors(game, cell_key)`: nothing happens unless the cell is
      uncovered and has no bomb; otherwise a worklist of keys spreads the uncovering over every
      cell with no bomb around it. `game[cell_key]` fails first for a key off the board. */
  method RecursiveUncoverNeighbors(game: Game, cellKey: Key) returns (outcome: Result<(), LookupError>)
    requires cellKey.0 >= 0 && cellKey.1 >= 0
    modifies game`board
    ensures outcome.Failure? <==> !InGrid(old(game.board), cellKey)
    ensures outcome.Failure? || IsCovered(At(old(game.board), cellKey)) || HasBomb(At(old(game.board), cellKey)) ==>
      game.board == old(game.board)
    ensures outcome.Success? && !IsCovered(At(old(game.board), cellKey)) && !HasBomb(At(old(game.board), cellKey)) ==>
      Cascaded(old(game.board), game.board, cellKey)
  {
    var cell := game.Lookup(cellKey);
    if cell.Failure? {
      return Failure(cell.error);
    }
    outcome := Success(());
    if IsCovered(At(game.board, cellKey)) || HasBomb(At(game.board, cellKey)) {
      return;
    }
    ghost var before := game.board;
    var keysToCheck := {cellKey};
    ghost var processed: set<Key> := {};
    ghost var pathTo := map[cellKey := [cellKey]];
    assert PathFrom(before, game.board, cellKey, [cellKey], cellKey);
    while keysToCheck != {}
      invariant CascadeInvariant(before, game.board, cellKey, keysToCheck, processed, pathTo)
      decreases |CoveredKeys(game.board)| + |keysToCheck|
    {
      var current :| current in keysToCheck;
      ghost var b0, work := game.board, keysToCheck;
      keysToCheck := keysToCheck - {current};
      var neighborKeys := ExpandCell(game, current);
      keysToCheck := keysToCheck + KeySet(neighborKeys);
      ExpandPreservesInvariant(before, b0, game.board, cellKey, work, processed, pathTo, current, neighborKeys);
      ExpandShrinksMeasure(b0, game.board, current, neighborKeys, work);
      pathTo := ExtendPaths(pathTo, current, neighborKeys);
      processed := processed + {current};
    }
    InvariantGivesCascaded(before, game.board, cellKey, processed, pathTo);
  }

  // ---------------------------------------------------------------------------
  // update_cell

  /** The change the cell serializer saves from the request data. */
  datatype CellAction = FlagAction | UnflagAction | UncoverAction

  function Apply(a: CellAction, d: CellData): (r: CellData)
    ensures HasBomb(r) == HasBomb(d)
    ensures a == FlagAction ==> IsFlagged(r)
    ensures a == UnflagAction ==> IsCovered(r) && !IsFlagged(r)
    ensures a == UncoverAction ==> !IsCovered(r)
  {
    match a
    case FlagAction => Flag(d)
    case UnflagAction => Unflag(d)
    case UncoverAction => Uncover(d)
  }

  // ---------------------------------------------------------------------------
  // The route's coordinates

  /** `col, row = int(col), int(row)`: the cell key, or None when either segment is empty. */
  function RouteKey(col: string, row: string): (r: Option<Key>)
    requires IsDigits(col) && IsDigits(row)
    ensures r.Some? <==> col != [] && row != []
    ensures r.Some? ==> r.value.0 >= 0 && r.value.1 >= 0
  {
    match (ParseInt(col), ParseInt(row))
    case (Some(c), Some(w)) => Some((c, w))
    case _ => None
  }

  /** The HTTP outcome of `update_cell`. */
  datatype Response =
    | NoContent     // 204
    | ServerError   // 500: `int()` of an empty route segment raised ValueError
    | NotFound      // Http404 for a key off the board
    | GameRejected  // the game validation raised (a finished game)
    | CellRejected  // the cell serializer's validation raised

  /** `update_cell(request, pk, col, row)`, where col and row are the digit strings the route
      matched, possibly empty. `gameValid` is the outcome of the game validation, `change` the
      outcome of the cell serializer (None when it rejects the data), `finished` the game's
      `finished` property and `now` the value of `timezone.now()`. The coordinates are parsed
      first (ValueError), then looked up (404), then the two validations run, then the cell
      change, then the cascade, then `finished_at`. */
  method UpdateCell(game: Game, col: string, row: string, gameValid: bool, change: Option<CellAction>,
                    finished: Board -> bool, now: Timestamp)
    returns (response: Response)
    requires IsDigits(col) && IsDigits(row)
    modifies game`board, game`finishedAt
    ensures RouteKey(col, row).None? ==>
      response == ServerError && game.board == old(game.board) && game.finishedAt == old(game.finishedAt)
    ensures RouteKey(col, row).Some? && !InGrid(old(game.board), RouteKey(col, row).value) ==>
      response == NotFound && game.board == old(game.board) && game.finishedAt == old(game.finishedAt)
    ensures RouteKey(col, row).Some? && InGrid(old(game.board), RouteKey(col, row).value) && !gameValid ==>
      response == GameRejected && game.board == old(game.board) && game.finishedAt == old(game.finishedAt)
    ensures RouteKey(col, row).Some? && InGrid(old(game.board), RouteKey(col, row).value) && gameValid && change.None? ==>
      response == CellRejected && game.board == old(game.board) && game.finishedAt == old(game.finishedAt)
    ensures RouteKey(col, row).Some? && InGrid(old(game.board), RouteKey(col, row).value) && gameValid && change.Some? ==>
      && response == NoContent
      && var key := RouteKey(col, row).value;
         var saved := Put(old(game.board), key, Apply(change.value, At(old(game.board), key)));
         && (IsCovered(At(saved, key)) || HasBomb(At(saved, key)) ==> game.board == saved)
         && (!IsCovered(At(saved, key)) && !HasBomb(At(saved, key)) ==> Cascaded(saved, game.board, key))
         && game.finishedAt == if finished(game.board) then Some(now) else old(game.finishedAt)
  {
    var parsed := RouteKey(col, row);
    if parsed.None? {
      return ServerError;
    }
    var key := parsed.value;
    var cell := game.Lookup(key);
    if cell.Failure? {
      return NotFound;
    }
    if !gameValid {
      return GameRejected;
    }
    if change.None? {
      return CellRejected;
    }
    match change.value {
      case FlagAction => game.FlagCell(key);
      case UnflagAction => game.UnflagCell(key);
      case UncoverAction => game.UncoverCell(key);
    }
    var _ := RecursiveUncoverNeighbors(game, key);
    if finished(game.board) {
      game.finishedAt := Some(now);
    }
    response := NoContent;
  }
}
