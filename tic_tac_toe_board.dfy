/**
 * The 3x3 board shared by every tic-tac-toe state in the system: a flat
 * sequence of nine cells (0 empty, 1 and 2 the players' marks), the
 * coordinate mapping, the eight winning lines in the order the code scans
 * them, and the full-board test.
 */
module TicTacToeBoard {
  import opened Wrappers

  type Board9 = s: seq<int> | |s| == 9 witness [0, 0, 0, 0, 0, 0, 0, 0, 0]

  const EmptyBoard: Board9 := [0, 0, 0, 0, 0, 0, 0, 0, 0]

  /** Rows, then columns, then the two diagonals. */
  const Lines: seq<(nat, nat, nat)> :=
    [(0, 1, 2), (3, 4, 5), (6, 7, 8),
     (0, 3, 6), (1, 4, 7), (2, 5, 8),
     (0, 4, 8), (2, 4, 6)]

  /** Row-major index of (row, col); None outside the grid. */
  function CoordsToIndex(row: nat, col: nat): (r: Option<nat>)
    ensures r.Some? <==> row < 3 && col < 3
    ensures r.Some? ==> r.value < 9 && r.value / 3 == row && r.value % 3 == col
  {
    if row < 3 && col < 3 then Some(row * 3 + col) else None
  }

  /** Line k holds three equal non-zero marks. */
  predicate LineWon(b: Board9, k: nat)
    requires k < |Lines|
  {
    b[Lines[k].0] != 0 && b[Lines[k].0] == b[Lines[k].1] && b[Lines[k].1] == b[Lines[k].2]
  }

  /** The mark on the first cell of line k. */
  function LineMark(b: Board9, k: nat): int
    requires k < |Lines|
  {
    b[Lines[k].0]
  }

  /** The mark of the first won line at index k or later, in scan order. */
  function WinnerFrom(b: Board9, k: nat): Option<int>
    requires k <= |Lines|
    decreases |Lines| - k
  {
    if k == |Lines| then None
    else if LineWon(b, k) then Some(LineMark(b, k))
    else WinnerFrom(b, k + 1)
  }

  /** The winner the code reports: the mark of the first won line. */
  function Winner(b: Board9): Option<int>
  {
    WinnerFrom(b, 0)
  }

  /** Every one of the nine cells is taken. */
  predicate IsFull(b: Board9)
  {
    forall i :: 0 <= i < 9 ==> b[i] != 0
  }

  /** Player v owns a whole line. */
  ghost predicate HasLine(b: Board9, v: int)
  {
    exists k :: 0 <= k < |Lines| && LineWon(b, k) && LineMark(b, k) == v
  }

  lemma {:induction false} WinnerFromSound(b: Board9, k: nat)
    requires k <= |Lines|
    ensures WinnerFrom(b, k).Some? ==>
      exists j :: k <= j < |Lines| && LineWon(b, j) && LineMark(b, j) == WinnerFrom(b, k).value
    ensures WinnerFrom(b, k).None? ==> forall j :: k <= j < |Lines| ==> !LineWon(b, j)
    decreases |Lines| - k
  {
    if k < |Lines| && !LineWon(b, k) {
      WinnerFromSound(b, k + 1);
    }
  }

  /** A reported winner owns a line with three equal non-zero marks. */
  lemma WinnerSound(b: Board9)
    ensures Winner(b).Some? ==> Winner(b).value != 0 && HasLine(b, Winner(b).value)
  {
    WinnerFromSound(b, 0);
  }

  /** No winner is reported exactly when no line is won. */
  lemma WinnerComplete(b: Board9)
    ensures Winner(b).None? <==> forall k :: 0 <= k < |Lines| ==> !LineWon(b, k)
  {
    WinnerFromSound(b, 0);
  }

  /** When only one player owns lines, that player is the winner reported. */
  lemma WinnerUnique(b: Board9, v: int)
    requires HasLine(b, v)
    requires forall k :: 0 <= k < |Lines| && LineWon(b, k) ==> LineMark(b, k) == v
    ensures Winner(b) == Some(v)
  {
    WinnerFromSound(b, 0);
  }

  /**
   * The winner scan: walks the eight lines in order and stops at the first
   * one holding three equal non-zero cells.
   */
  method CheckWinner(b: Board9) returns (r: Option<int>)
    ensures r == Winner(b)
  {
    var i := 0;
    while i < |Lines|
      invariant 0 <= i <= |Lines|
      invariant WinnerFrom(b, i) == Winner(b)
    {
      var (a, c1, c2) := Lines[i];
      if b[a] != 0 && b[a] == b[c1] && b[c1] == b[c2] {
        return Some(b[a]);
      }
      i := i + 1;
    }
    return None;
  }
}
