/**
 * Routing of a move to the engine of the match's game, the per-viewer
 * redaction of a match, and the initial state of a new game.
 */
module GameRouter {
  import opened Wrappers
  import opened GameErrors
  import opened GameTypes
  import opened Matches
  import TicTacToeBoard
  import T = TicTacToeEngine
  import R = RpsState
  import RE = RpsEngine

  /** A move payload as received: a tic-tac-toe cell, an RPS choice, or anything else. */
  datatype MoveData =
    | TicTacToeMoveData(row: nat, col: nat)
    | RpsMoveData(choice: R.RpsMove)
    | OtherMoveData(detail: string)

  /** The decoder's error text when a payload is not a move of the expected game. */
  function MoveDecodeError(d: MoveData): string
  {
    if d.OtherMoveData? then d.detail else ""
  }

  datatype GameMoveResult = GameMoveResult(newState: GameBlob, isFinished: bool, outcome: Option<MatchOutcome>)

  /** The acting player's slot: 1 for player 1, 2 for player 2, none for anyone else. */
  function PlayerSlot(m: Match, playerId: int): (r: Option<int>)
    ensures r == Some(1) <==> playerId == m.player1Id
    ensures r == Some(2) <==> playerId != m.player1Id && playerId == m.player2Id
    ensures r.None? <==> playerId != m.player1Id && playerId != m.player2Id
  {
    if playerId == m.player1Id then Some(1)
    else if playerId == m.player2Id then Some(2)
    else None
  }

  /** The match outcome of a game with the given finished flag and winner slot. */
  function OutcomeOf(isFinished: bool, winner: Option<int>): (o: Option<MatchOutcome>)
    ensures o.None? <==> !isFinished
    ensures o == Some(Player1Win) <==> isFinished && winner == Some(1)
    ensures o == Some(Player2Win) <==> isFinished && winner == Some(2)
    ensures o == Some(Draw) <==> isFinished && winner != Some(1) && winner != Some(2)
  {
    if isFinished then
      match winner
      case Some(1) => Some(Player1Win)
      case Some(2) => Some(Player2Win)
      case _ => Some(Draw)
    else None
  }

  /**
   * A tic-tac-toe move: decode the state, then the move, then find the
   * player's slot, then let the engine decide.
   */
  function HandleTicTacToeMove(m: Match, playerId: int, moveData: MoveData): (r: Result<GameMoveResult, GameError>)
    ensures !m.gameState.TicTacToeJson? ==>
      r.Err? && r.error.IllegalMove? && "Invalid game state: " <= r.error.message
    ensures m.gameState.TicTacToeJson? && !moveData.TicTacToeMoveData? ==>
      r.Err? && r.error.IllegalMove? && "Invalid move data: " <= r.error.message
    ensures m.gameState.TicTacToeJson? && moveData.TicTacToeMoveData? && PlayerSlot(m, playerId).None? ==>
      r == Err(InvalidPlayer)
    ensures m.gameState.TicTacToeJson? && moveData.TicTacToeMoveData? && PlayerSlot(m, playerId).Some? ==>
      var u := T.Update(m.gameState.ticTacToe, PlayerSlot(m, playerId).value, T.Move(moveData.row, moveData.col));
      && (u.Err? ==> r == Err(u.error))
      && (u.Ok? ==> r.Ok? && r.value.newState == TicTacToeJson(u.value)
                    && r.value.isFinished == u.value.isFinished
                    && r.value.outcome == OutcomeOf(u.value.isFinished, u.value.winner))
  {
    match m.gameState
    case TicTacToeJson(state) =>
      (match moveData
       case TicTacToeMoveData(row, col) =>
         (match PlayerSlot(m, playerId)
          case None => Err(InvalidPlayer)
          case Some(symbol) =>
            match T.Update(state, symbol, T.Move(row, col))
            case Err(e) => Err(e)
            case Ok(next) => Ok(GameMoveResult(TicTacToeJson(next), next.isFinished, OutcomeOf(next.isFinished, next.winner))))
       case _ => Err(IllegalMove("Invalid move data: " + MoveDecodeError(moveData))))
    case _ => Err(IllegalMove("Invalid game state: " + DecodeError(m.gameState)))
  }

  /** The engine's state has at least one round whenever the engine is reached. */
  predicate RpsReachable(m: Match, playerId: int, moveData: MoveData)
  {
    m.gameState.RpsJson? && moveData.RpsMoveData? && PlayerSlot(m, playerId).Some?
  }

  /** An RPS move, decoded and dispatched in the same order as a tic-tac-toe move. */
  function HandleRpsMove(m: Match, playerId: int, moveData: MoveData): (r: Result<GameMoveResult, GameError>)
    requires RpsReachable(m, playerId, moveData) ==> |m.gameState.rps.rounds| > 0
    ensures !m.gameState.RpsJson? ==>
      r.Err? && r.error.IllegalMove? && "Invalid game state: " <= r.error.message
    ensures m.gameState.RpsJson? && !moveData.RpsMoveData? ==>
      r.Err? && r.error.IllegalMove? && "Invalid move data: " <= r.error.message
    ensures m.gameState.RpsJson? && moveData.RpsMoveData? && PlayerSlot(m, playerId).None? ==>
      r == Err(InvalidPlayer)
    ensures RpsReachable(m, playerId, moveData) ==>
      var u := RE.Update(m.gameState.rps, PlayerSlot(m, playerId).value, moveData.choice);
      && (u.Err? ==> r == Err(u.error))
      && (u.Ok? ==> r.Ok? && r.value.newState == RpsJson(u.value)
                    && r.value.isFinished == R.IsFinished(u.value)
                    && r.value.outcome == OutcomeOf(R.IsFinished(u.value), R.GetWinner(u.value)))
  {
    match m.gameState
    case RpsJson(state) =>
      (match moveData
       case RpsMoveData(choice) =>
         (match PlayerSlot(m, playerId)
          case None => Err(InvalidPlayer)
          case Some(symbol) =>
            match RE.Update(state, symbol, choice)
            case Err(e) => Err(e)
            case Ok(next) =>
              Ok(GameMoveResult(RpsJson(next), R.IsFinished(next), OutcomeOf(R.IsFinished(next), R.GetWinner(next)))))
       case _ => Err(IllegalMove("Invalid move data: " + MoveDecodeError(moveData))))
    case _ => Err(IllegalMove("Invalid game state: " + DecodeError(m.gameState)))
  }

  /** Dispatches a move to the engine named by the match's game type. */
  function HandleGameMove(m: Match, playerId: int, moveData: MoveData): (r: Result<GameMoveResult, GameError>)
    requires m.gameType == RockPaperScissors && RpsReachable(m, playerId, moveData) ==> |m.gameState.rps.rounds| > 0
    ensures m.gameType == TicTacToe ==> r == HandleTicTacToeMove(m, playerId, moveData)
    ensures m.gameType == RockPaperScissors ==> r == HandleRpsMove(m, playerId, moveData)
  {
    match m.gameType
    case TicTacToe => HandleTicTacToeMove(m, playerId, moveData)
    case RockPaperScissors => HandleRpsMove(m, playerId, moveData)
  }

  /**
   * On a consistent tic-tac-toe state, the routed outcome is read off the
   * new board: a won line gives that player's win, a full board a draw,
   * and otherwise the game goes on with the other player to move.
   */
  lemma TicTacToeOutcomeFromBoard(m: Match, playerId: int, moveData: MoveData)
    requires m.gameState.TicTacToeJson? && T.Consistent(m.gameState.ticTacToe)
    requires HandleTicTacToeMove(m, playerId, moveData).Ok?
    ensures var res := HandleTicTacToeMove(m, playerId, moveData).value;
      var b := res.newState.ticTacToe.board;
      && res.newState.TicTacToeJson? && T.Consistent(res.newState.ticTacToe)
      && (res.outcome == Some(Player1Win) <==> TicTacToeBoard.Winner(b) == Some(1))
      && (res.outcome == Some(Player2Win) <==> TicTacToeBoard.Winner(b) == Some(2))
      && (res.outcome == Some(Draw) <==> TicTacToeBoard.Winner(b).None? && TicTacToeBoard.IsFull(b))
      && (res.outcome.None? ==> res.newState.ticTacToe.currentPlayer == 3 - PlayerSlot(m, playerId).value)
  {
    var state := m.gameState.ticTacToe;
    var symbol := PlayerSlot(m, playerId).value;
    var move := T.Move(moveData.row, moveData.col);
    T.UpdatePreservesConsistent(state, symbol, move);
    var next := T.Update(state, symbol, move).value;
    if TicTacToeBoard.Winner(next.board).Some? {
      TicTacToeBoard.WinnerSound(next.board);
    }
  }

  /** A finished RPS game always has a winner, so the routed outcome is never a draw. */
  lemma RpsOutcomeNeverDraw(m: Match, playerId: int, moveData: MoveData)
    requires m.gameType == RockPaperScissors && RpsReachable(m, playerId, moveData)
    requires |m.gameState.rps.rounds| > 0
    requires HandleGameMove(m, playerId, moveData).Ok?
    ensures HandleGameMove(m, playerId, moveData).value.outcome != Some(Draw)
  {
  }

  /**
   * The match as `playerId` may see it. A non-participant gets the match
   * unchanged; otherwise only the game state is redacted: RPS hides the
   * opponent's pending move, tic-tac-toe hides nothing, and a state that
   * does not decode passes through.
   */
  function RedactMatchForPlayer(m: Match, playerId: int): (r: Match)
    ensures r == m.(gameState := r.gameState)
    ensures PlayerSlot(m, playerId).None? ==> r == m
    ensures m.gameType == TicTacToe ==> r == m
    ensures m.gameType == RockPaperScissors && !m.gameState.RpsJson? ==> r == m
    ensures m.gameType == RockPaperScissors && m.gameState.RpsJson? && PlayerSlot(m, playerId).Some? ==>
      r.gameState == RpsJson(R.RedactForPlayer(m.gameState.rps, PlayerSlot(m, playerId).value))
  {
    match PlayerSlot(m, playerId)
    case None => m
    case Some(playerNum) =>
      var redacted :=
        match m.gameType
        case TicTacToe =>
          (match m.gameState
           case TicTacToeJson(state) => TicTacToeJson(T.RedactForPlayer(state, playerNum))
           case _ => m.gameState)
        case RockPaperScissors =>
          (match m.gameState
           case RpsJson(state) => RpsJson(R.RedactForPlayer(state, playerNum))
           case _ => m.gameState);
      Match(m.id, m.player1Id, m.player2Id, m.inProgress, m.outcome, m.gameType, redacted)
  }

  /** Redacting a match a second time for the same viewer changes nothing more. */
  lemma RedactMatchIdempotent(m: Match, playerId: int)
    ensures RedactMatchForPlayer(RedactMatchForPlayer(m, playerId), playerId) == RedactMatchForPlayer(m, playerId)
  {
    if m.gameType == RockPaperScissors && m.gameState.RpsJson? && PlayerSlot(m, playerId).Some? {
      R.RedactIdempotent(m.gameState.rps, PlayerSlot(m, playerId).value);
    }
  }

  /** Redaction never changes an RPS score: only pending moves are hidden. */
  lemma RedactMatchKeepsScore(m: Match, playerId: int)
    requires m.gameType == RockPaperScissors && m.gameState.RpsJson?
    ensures var r := RedactMatchForPlayer(m, playerId);
      r.gameState.RpsJson? && R.Tally(r.gameState.rps.rounds) == R.Tally(m.gameState.rps.rounds)
  {
    if PlayerSlot(m, playerId).Some? {
      R.RedactKeepsScore(m.gameState.rps, PlayerSlot(m, playerId).value);
    }
  }

  /**
   * The state a new game starts from. `firstPlayer` is the coin flip,
   * which decides who moves first in tic-tac-toe; RPS starts with one
   * empty round.
   */
  function InitializeGameState(gameType: GameType, firstPlayer: int): (b: GameBlob)
    requires firstPlayer == 1 || firstPlayer == 2
    ensures gameType == TicTacToe ==>
      b.TicTacToeJson? && T.Consistent(b.ticTacToe) && !b.ticTacToe.isFinished
      && b.ticTacToe.currentPlayer == firstPlayer
      && forall i :: 0 <= i < 9 ==> b.ticTacToe.board[i] == 0
    ensures gameType == RockPaperScissors ==> b == RpsJson(R.New()) && RE.WellFormed(b.rps)
  {
    match gameType
    case TicTacToe => TicTacToeJson(T.New().(currentPlayer := firstPlayer))
    case RockPaperScissors =>
      RE.NewWellFormed();
      RpsJson(R.New())
  }
}
