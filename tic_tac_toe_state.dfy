/**
 * The shared tic-tac-toe game state of the common library: a board plus
 * the turn, the winner and the finished flag. Placing a mark changes the
 * board in place.
 */
module TicTacToeState {
  import opened Wrappers
  import opened TicTacToeBoard

  class GameState {
    var board: Board9
    var currentPlayer: int
    var winner: Option<int>
    var isFinished: bool

    /** An empty board with player 1 to move. */
    constructor ()
      ensures board == EmptyBoard && currentPlayer == 1
      ensures winner == None && !isFinished
    {
      board := EmptyBoard;
      currentPlayer := 1;
      winner := None;
      isFinished := false;
    }

    /**
     * Writes `player` at `index`. The checks run in this order: the index
     * must be on the board, the cell must be empty, the player must be 1
     * or 2. On any failure nothing changes; the turn, the winner and the
     * finished flag are never touched.
     */
    method PlaceMove(index: nat, player: int) returns (r: Result<(), string>)
      modifies this
      ensures index >= 9 ==> r == Err("Invalid cell index")
      ensures index < 9 && old(board)[index] != 0 ==> r == Err("Cell already occupied")
      ensures index < 9 && old(board)[index] == 0 && player != 1 && player != 2 ==>
        r == Err("Invalid player number")
      ensures r.Ok? <==> index < 9 && old(board)[index] == 0 && (player == 1 || player == 2)
      ensures board == if r.Ok? then old(board)[index := player] else old(board)
      ensures currentPlayer == old(currentPlayer) && winner == old(winner)
      ensures isFinished == old(isFinished)
    {
      if index >= 9 {
        return Err("Invalid cell index");
      }
      if board[index] != 0 {
        return Err("Cell already occupied");
      }
      if player != 1 && player != 2 {
        return Err("Invalid player number");
      }
      board := board[index := player];
      return Ok(());
    }
  }
}
