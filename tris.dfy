/**
 * The cells-only tic-tac-toe state that the match table stores as JSON
 * and that the matchmaking and move handlers work on.
 */
module Tris {
  import opened Wrappers
  import opened TicTacToeBoard

  class GameState {
    var cells: Board9

    /** Nine empty cells. */
    constructor ()
      ensures cells == EmptyBoard
    {
      cells := EmptyBoard;
    }

    /** A state holding the given cells (what decoding the stored JSON gives). */
    constructor FromCells(c: Board9)
      ensures cells == c
    {
      cells := c;
    }

    /**
     * Writes `player` at `index`, checking in order that the index is on
     * the board, the cell is empty and the player is 1 or 2; a failed
     * check leaves the cells unchanged.
     */
    method PlaceMove(index: nat, player: int) returns (r: Result<(), string>)
      modifies this
      ensures index >= 9 ==> r == Err("Invalid cell index")
      ensures index < 9 && old(cells)[index] != 0 ==> r == Err("Cell already occupied")
      ensures index < 9 && old(cells)[index] == 0 && player != 1 && player != 2 ==>
        r == Err("Invalid player number")
      ensures r.Ok? <==> index < 9 && old(cells)[index] == 0 && (player == 1 || player == 2)
      ensures cells == if r.Ok? then old(cells)[index := player] else old(cells)
    {
      if index >= 9 {
        return Err("Invalid cell index");
      }
      if cells[index] != 0 {
        return Err("Cell already occupied");
      }
      if player != 1 && player != 2 {
        return Err("Invalid player number");
      }
      cells := cells[index := player];
      return Ok(());
    }
  }
}
