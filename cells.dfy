/**
 * The per-cell record of a Minesweeper board: the JSON dict stored at
 * board[col][row], and the reads and writes the Cell wrapper performs on it.
 */
module Cells {

  /** The state of one key of a JSON dict: absent, present with null, or present with a value. */
  datatype Entry<T> = Missing | Null | Present(value: T)

  /** The values of the Status enum that the game writes under "status". */
  datatype Status = FLAGGED | UNCOVERED

  /** The dict of one cell: its "status" key and its "bomb" key. */
  datatype CellData = CellData(status: Entry<Status>, bomb: Entry<bool>)

  /** `{}`, the dict every fresh board holds in each cell. */
  const EmptyCell := CellData(Missing, Missing)

  /** `is_flagged`: the status is FLAGGED; a missing or null status is not. */
  predicate IsFlagged(d: CellData) {
    d.status == Present(FLAGGED)
  }

  /** `is_covered`: the status is anything but UNCOVERED, so a flagged cell is covered. */
  predicate IsCovered(d: CellData)
    ensures IsFlagged(d) ==> IsCovered(d)
  {
    d.status != Present(UNCOVERED)
  }

  /** `has_bomb`: the bomb key holds true; false, null and absent all mean no bomb. */
  predicate HasBomb(d: CellData) {
    d.bomb == Present(true)
  }

  /** `flag()`: the cell reads as flagged, stays covered, and keeps its bomb. */
  function Flag(d: CellData): (r: CellData)
    ensures IsFlagged(r) && IsCovered(r)
    ensures HasBomb(r) == HasBomb(d)
  {
    d.(status := Present(FLAGGED))
  }

  /** `unflag()`: the cell reads as covered and not flagged, and keeps its bomb. */
  function Unflag(d: CellData): (r: CellData)
    ensures !IsFlagged(r) && IsCovered(r)
    ensures HasBomb(r) == HasBomb(d)
  {
    d.(status := Null)
  }

  /** `uncover()`: the cell reads as neither covered nor flagged, keeps its bomb,
      and uncovering an uncovered cell leaves its dict as it was. */
  function Uncover(d: CellData): (r: CellData)
    ensures !IsCovered(r) && !IsFlagged(r)
    ensures HasBomb(r) == HasBomb(d)
    ensures !IsCovered(d) ==> r == d
  {
    d.(status := Present(UNCOVERED))
  }

  /** `cell["bomb"] = True`: the cell holds a bomb and its status is untouched. */
  function PlaceBomb(d: CellData): (r: CellData)
    ensures HasBomb(r)
    ensures r.status == d.status
    ensures IsFlagged(r) == IsFlagged(d) && IsCovered(r) == IsCovered(d)
  {
    d.(bomb := Present(true))
  }

  /** What the Cell tests assert of the status readings, for every bomb entry. */
  lemma StatusReadings(b: Entry<bool>)
    ensures IsFlagged(CellData(Present(FLAGGED), b)) && IsCovered(CellData(Present(FLAGGED), b))
    ensures !IsFlagged(CellData(Present(UNCOVERED), b)) && !IsCovered(CellData(Present(UNCOVERED), b))
    ensures !IsFlagged(CellData(Null, b)) && IsCovered(CellData(Null, b))
    ensures !IsFlagged(CellData(Missing, b)) && IsCovered(CellData(Missing, b))
  {
  }

  /** What the Cell tests assert of the bomb reading, for every status entry. */
  lemma BombReadings(s: Entry<Status>)
    ensures HasBomb(CellData(s, Present(true)))
    ensures !HasBomb(CellData(s, Present(false)))
    ensures !HasBomb(CellData(s, Null)) && !HasBomb(CellData(s, Missing))
  {
  }
}
