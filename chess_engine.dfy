/**
 * The server's chess engine: legality of a move for the side to move,
 * the move itself, and the check, checkmate and stalemate verdicts that
 * follow it. The piece rules are those of ChessRules, with their error
 * messages carried in IllegalMove.
 */
module ChessEngine {
  import opened Wrappers
  import opened GameErrors
  import opened ChessRules

  /** `player` has a piece on (fromRow, fromCol) that may legally move to (toRow, toCol). */
  predicate LegalAt(b: Board, player: Player, fromRow: int, fromCol: int, toRow: int, toCol: int)
  {
    0 <= fromRow < 8 && 0 <= fromCol < 8 && 0 <= toRow < 8 && 0 <= toCol < 8
    && b[fromRow][fromCol].Some? && b[fromRow][fromCol].value.player == player
    && ValidMove(b, ChessMove(Position(fromRow, fromCol), Position(toRow, toCol)), player) == Ok(true)
  }

  predicate HasLegal(b: Board, player: Player)
  {
    exists fromRow, fromCol, toRow, toCol | 0 <= fromRow < 8 && 0 <= fromCol < 8 && 0 <= toRow < 8 && 0 <= toCol < 8 ::
      LegalAt(b, player, fromRow, fromCol, toRow, toCol)
  }

  /** Tries every move of every piece of `player`; errors count as illegal. */
  method HasLegalMoves(b: Board, player: Player) returns (found: bool)
    ensures found == HasLegal(b, player)
  {
    for fromRow := 0 to 8
      invariant forall i, j, k, l :: i < fromRow ==> !LegalAt(b, player, i, j, k, l)
    {
      for fromCol := 0 to 8
        invariant forall i, j, k, l :: i < fromRow ==> !LegalAt(b, player, i, j, k, l)
        invariant forall j, k, l :: j < fromCol ==> !LegalAt(b, player, fromRow, j, k, l)
      {
        var piece := b[fromRow][fromCol];
        if piece.Some? && piece.value.player == player {
          var any := HasLegalTarget(b, player, fromRow, fromCol);
          if any {
            return true;
          }
        }
      }
    }
    return false;
  }

  /** The inner two loops: every target square of the piece on (fromRow, fromCol). */
  method HasLegalTarget(b: Board, player: Player, fromRow: nat, fromCol: nat) returns (found: bool)
    requires fromRow < 8 && fromCol < 8
    ensures found <==> exists k, l :: LegalAt(b, player, fromRow, fromCol, k, l)
  {
    var from := Position(fromRow, fromCol);
    for toRow := 0 to 8
      invariant forall k, l :: k < toRow ==> !LegalAt(b, player, fromRow, fromCol, k, l)
    {
      for toCol := 0 to 8
        invariant forall k, l :: k < toRow ==> !LegalAt(b, player, fromRow, fromCol, k, l)
        invariant forall l :: l < toCol ==> !LegalAt(b, player, fromRow, fromCol, toRow, l)
      {
        var valid := IsValidMove(b, ChessMove(from, Position(toRow, toCol)), player);
        if valid == Ok(true) {
          assert LegalAt(b, player, fromRow, fromCol, toRow, toCol);
          return true;
        }
      }
    }
    return false;
  }

  method IsCheckmate(b: Board, player: Player) returns (mate: bool)
    ensures mate == (InCheck(b, player) && !HasLegal(b, player))
  {
    var check := IsInCheck(b, player);
    if !check {
      return false;
    }
    var any := HasLegalMoves(b, player);
    return !any;
  }

  method IsStalemate(b: Board, player: Player) returns (stale: bool)
    ensures stale == (!InCheck(b, player) && !HasLegal(b, player))
  {
    var check := IsInCheck(b, player);
    if check {
      return false;
    }
    var any := HasLegalMoves(b, player);
    return !any;
  }

  /** The source square's piece moved to the target; fails only on an empty source square. */
  function ApplyMove(s: State, m: ChessMove): (r: Result<State, GameError>)
    requires OnBoard(m.from) && OnBoard(m.to)
    ensures r.Err? <==> PieceAt(s.board, m.from).None?
    ensures r.Err? ==> r.error == IllegalMove("No piece at source position")
    ensures r.Ok? ==> r.value == s.(board := Apply(s.board, m))
  {
    var piece := PieceAt(s.board, m.from);
    if piece.None? then Err(IllegalMove("No piece at source position"))
    else Ok(s.(board := Apply(s.board, m)))
  }

  /** The game's verdict with `toMove` to play after `mover`'s move. */
  function Verdict(b: Board, toMove: Player, mover: Player): Option<GameOverReason>
  {
    if InCheck(b, toMove) && !HasLegal(b, toMove) then Some(Checkmate(mover))
    else if !InCheck(b, toMove) && !HasLegal(b, toMove) then Some(Stalemate)
    else None
  }

  /** A player symbol 1 or 2, in a game still going, whose colour is to move. */
  predicate MayMove(s: State, player: int)
  {
    (player == 1 || player == 2) && !IsFinished(s) && FromSymbol(player) == Some(s.currentTurn)
  }

  /**
   * Plays a move for player 1 (White) or 2 (Black). Rejections, in order:
   * an unknown player, a finished game, the wrong colour, then the
   * move-validation errors and an illegal move. A played move is recorded,
   * passes the turn, and sets the check flag and the result for the side
   * now to move.
   */
  method Update(s: State, player: int, m: ChessMove) returns (r: Result<State, GameError>)
    requires OnBoard(m.from) && OnBoard(m.to)
    ensures player != 1 && player != 2 ==> r == Err(InvalidPlayer)
    ensures (player == 1 || player == 2) && IsFinished(s) ==> r == Err(GameNotInProgress)
    ensures (player == 1 || player == 2) && !IsFinished(s) && FromSymbol(player) != Some(s.currentTurn) ==>
      r == Err(WrongTurn)
    ensures MayMove(s, player) && ValidMove(s.board, m, s.currentTurn).Err? ==>
      r == Err(IllegalMove(ValidMove(s.board, m, s.currentTurn).error))
    ensures MayMove(s, player) && ValidMove(s.board, m, s.currentTurn) == Ok(false) ==>
      r == Err(IllegalMove("Invalid move"))
    ensures r.Ok? <==> MayMove(s, player) && ValidMove(s.board, m, s.currentTurn) == Ok(true)
    ensures r.Ok? ==> r.value.board == Apply(s.board, m) && r.value.moveHistory == s.moveHistory + [m]
    ensures r.Ok? ==> r.value.currentTurn == Opponent(s.currentTurn)
    ensures r.Ok? ==> !InCheck(r.value.board, s.currentTurn)
    ensures r.Ok? ==> (r.value.checkState ==
      if InCheck(r.value.board, r.value.currentTurn) then Some(r.value.currentTurn) else None)
    ensures r.Ok? ==> r.value.gameOver == Verdict(r.value.board, r.value.currentTurn, s.currentTurn)
  {
    if player != 1 && player != 2 {
      return Err(InvalidPlayer);
    }
    if IsFinished(s) {
      return Err(GameNotInProgress);
    }
    var playerColor := FromSymbol(player).value;
    if s.currentTurn != playerColor {
      return Err(WrongTurn);
    }
    var valid := IsValidMove(s.board, m, playerColor);
    if valid.Err? {
      return Err(IllegalMove(valid.error));
    }
    if !valid.value {
      return Err(IllegalMove("Invalid move"));
    }
    ValidMoveKeepsKingSafe(s.board, m, playerColor);
    var newState := ApplyMove(s, m).value;
    newState := newState.(moveHistory := newState.moveHistory + [m]);
    newState := newState.(currentTurn := Opponent(playerColor));
    var check := IsInCheck(newState.board, newState.currentTurn);
    newState := newState.(checkState := if check then Some(newState.currentTurn) else None);
    var mate := IsCheckmate(newState.board, newState.currentTurn);
    if mate {
      newState := newState.(gameOver := Some(Checkmate(playerColor)));
    } else {
      var stale := IsStalemate(newState.board, newState.currentTurn);
      if stale {
        newState := newState.(gameOver := Some(Stalemate));
      }
    }
    return Ok(newState);
  }

  /** Checkmate is declared exactly when the side to move is in check and has no legal move. */
  lemma CheckmateExactly(b: Board, toMove: Player, mover: Player)
    ensures Verdict(b, toMove, mover) == Some(Checkmate(mover)) <==> InCheck(b, toMove) && !HasLegal(b, toMove)
    ensures Verdict(b, toMove, mover) == Some(Stalemate) <==> !InCheck(b, toMove) && !HasLegal(b, toMove)
    ensures Verdict(b, toMove, mover).None? <==> HasLegal(b, toMove)
  {
  }
}
