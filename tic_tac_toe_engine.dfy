/**
 * The server's tic-tac-toe engine: a state with board, turn, winner and
 * finished flag, and a move function that validates and applies a move on
 * a copy of the state.
 */
module TicTacToeEngine {
  import opened Wrappers
  import opened GameErrors
  import opened TicTacToeBoard

  datatype Move = Move(row: nat, col: nat)

  datatype State = State(board: Board9, currentPlayer: int, winner: Option<int>, isFinished: bool)

  /** The board index a move targets; None off the grid. */
  function ToIndex(m: Move): (r: Option<nat>)
    ensures r.Some? <==> m.row < 3 && m.col < 3
    ensures r.Some? ==> r.value < 9 && r.value / 3 == m.row && r.value % 3 == m.col
  {
    CoordsToIndex(m.row, m.col)
  }

  /**
   * A state whose derived fields agree with its board: marks are 0, 1 or 2,
   * the turn is 1 or 2, the game is over exactly when some line is won or
   * the board is full, and the winner is the reported line owner.
   */
  predicate Consistent(s: State)
  {
    && (forall i :: 0 <= i < 9 ==> 0 <= s.board[i] <= 2)
    && (s.currentPlayer == 1 || s.currentPlayer == 2)
    && s.isFinished == (Winner(s.board).Some? || IsFull(s.board))
    && s.winner == Winner(s.board)
  }

  /** The initial state: empty board, player 1 to move, nobody has won. */
  function New(): (s: State)
    ensures Consistent(s) && !s.isFinished && s.currentPlayer == 1 && s.winner == None
    ensures forall i :: 0 <= i < 9 ==> s.board[i] == 0
  {
    WinnerComplete(EmptyBoard);
    State(EmptyBoard, 1, None, false)
  }

  /** Tic-tac-toe has no hidden information: every viewer sees the whole state. */
  function RedactForPlayer(s: State, viewer: int): (r: State)
    ensures r == s
  {
    s
  }

  /** A valid player whose turn it is in a game still in progress. */
  predicate MayMove(s: State, player: int)
  {
    (player == 1 || player == 2) && !s.isFinished && s.currentPlayer == player
  }

  /**
   * Validates and applies a move. Rejections come in this order: a player
   * other than 1 and 2, a finished game, the wrong turn, coordinates off
   * the grid, an occupied cell. An accepted move writes the player's mark
   * and nothing else on the board; then a won line ends the game with that
   * winner and the turn unchanged, a full board ends it as a draw, and
   * otherwise the turn passes to the other player.
   */
  function Update(s: State, player: int, m: Move): (r: Result<State, GameError>)
    ensures player != 1 && player != 2 ==> r == Err(InvalidPlayer)
    ensures (player == 1 || player == 2) && s.isFinished ==> r == Err(GameNotInProgress)
    ensures (player == 1 || player == 2) && !s.isFinished && s.currentPlayer != player ==>
      r == Err(WrongTurn)
    ensures MayMove(s, player) && ToIndex(m).None? ==> r == Err(IllegalMove("Invalid coordinates"))
    ensures MayMove(s, player) && ToIndex(m).Some? && s.board[ToIndex(m).value] != 0 ==>
      r == Err(IllegalMove("Cell already occupied"))
    ensures r.Ok? <==> (MayMove(s, player) && ToIndex(m).Some? && s.board[ToIndex(m).value] == 0)
    ensures r.Ok? ==>
      var i := ToIndex(m).value;
      && r.value.board[i] == player
      && (forall j :: 0 <= j < 9 && j != i ==> r.value.board[j] == s.board[j])
      && (Winner(r.value.board).Some? ==>
            r.value.winner == Winner(r.value.board) && r.value.isFinished
            && r.value.currentPlayer == player)
      && (Winner(r.value.board).None? && IsFull(r.value.board) ==>
            r.value.winner == None && r.value.isFinished && r.value.currentPlayer == player)
      && (Winner(r.value.board).None? && !IsFull(r.value.board) ==>
            !r.value.isFinished && r.value.winner == s.winner
            && r.value.currentPlayer == 3 - player)
  {
    if player != 1 && player != 2 then Err(InvalidPlayer)
    else if s.isFinished then Err(GameNotInProgress)
    else if s.currentPlayer != player then Err(WrongTurn)
    else
      match ToIndex(m)
      case None => Err(IllegalMove("Invalid coordinates"))
      case Some(index) =>
        if s.board[index] != 0 then Err(IllegalMove("Cell already occupied"))
        else
          var placed := s.(board := s.board[index := player]);
          var w := Winner(placed.board);
          if w.Some? then Ok(placed.(winner := w, isFinished := true))
          else if IsFull(placed.board) then Ok(placed.(winner := None, isFinished := true))
          else Ok(placed.(currentPlayer := if player == 1 then 2 else 1))
  }

  /** An accepted move keeps a consistent state consistent. */
  lemma UpdatePreservesConsistent(s: State, player: int, m: Move)
    requires Consistent(s)
    requires Update(s, player, m).Ok?
    ensures Consistent(Update(s, player, m).value)
  {
  }

  /** Every accepted move adds exactly one mark; no mark is ever erased. */
  lemma UpdateAddsOneMark(s: State, player: int, m: Move)
    requires Update(s, player, m).Ok?
    ensures var t := Update(s, player, m).value;
      && MarkCount(t.board, 0, 9) == MarkCount(s.board, 0, 9) + 1
      && forall j :: 0 <= j < 9 && s.board[j] != 0 ==> t.board[j] == s.board[j]
  {
    var t := Update(s, player, m).value;
    var i := ToIndex(m).value;
    MarkCountSplit(s.board, t.board, i);
  }

  /** The number of non-empty cells among indices lo..hi-1. */
  function MarkCount(b: Board9, lo: nat, hi: nat): nat
    requires lo <= hi <= 9
    decreases hi - lo
  {
    if lo == hi then 0 else (if b[lo] != 0 then 1 else 0) + MarkCount(b, lo + 1, hi)
  }

  lemma {:induction false} MarkCountSplit(b: Board9, c: Board9, i: nat)
    requires i < 9 && b[i] == 0 && c[i] != 0
    requires forall j :: 0 <= j < 9 && j != i ==> c[j] == b[j]
    ensures MarkCount(c, 0, 9) == MarkCount(b, 0, 9) + 1
  {
    MarkCountShift(b, c, i, 0);
  }

  lemma {:induction false} MarkCountShift(b: Board9, c: Board9, i: nat, lo: nat)
    requires i < 9 && b[i] == 0 && c[i] != 0 && lo <= 9
    requires forall j :: 0 <= j < 9 && j != i ==> c[j] == b[j]
    ensures MarkCount(c, lo, 9) == MarkCount(b, lo, 9) + (if lo <= i then 1 else 0)
    decreases 9 - lo
  {
    if lo < 9 {
      MarkCountShift(b, c, i, lo + 1);
    }
  }
}
