/**
 * The chess client's screen-state transitions and move input. The `&mut`
 * arguments of the handlers are passed in and their new values returned;
 * a move sent to the server is the returned `sent` move.
 */
module ClientChess {
  import opened Wrappers
  import opened Matches
  import opened ChessRules
  import Strings

  datatype UiState =
    | WaitingForOpponentToJoin
    | MyTurn(matchData: Match)
    | OpponentTurn(matchData: Match)
    | WaitingForOpponentToReconnect(matchData: Match)
    | MatchEndedYouWon(matchData: Match)
    | MatchEndedYouLost(matchData: Match)
    | MatchEndedDraw(matchData: Match)
    | MatchEndedOpponentDisconnected(matchData: Match)

  predicate IsEnded(u: UiState)
  {
    u.MatchEndedYouWon? || u.MatchEndedYouLost? || u.MatchEndedDraw? || u.MatchEndedOpponentDisconnected?
  }

  /** A state that still has a live match on screen. */
  predicate IsPlaying(u: UiState)
  {
    u.MyTurn? || u.OpponentTurn? || u.WaitingForOpponentToReconnect?
  }

  datatype Flagged = Flagged(next: Option<UiState>, opponentDisconnected: bool)

  /**
   * A player left. The viewer's own id changes nothing; for the opponent the
   * flag is raised, and the opponent's-turn screen turns into the
   * reconnect wait unless the client is waiting for the viewer's input.
   */
  function HandlePlayerDisconnected(playerId: int, myPlayerId: int, ui: UiState, opponentDisconnected: bool,
                                    waitingForInput: bool): (r: Flagged)
    ensures playerId == myPlayerId ==> r == Flagged(None, opponentDisconnected)
    ensures playerId != myPlayerId ==> r.opponentDisconnected
    ensures r.next.Some? <==> playerId != myPlayerId && !waitingForInput && ui.OpponentTurn?
    ensures r.next.Some? ==> r.next.value == WaitingForOpponentToReconnect(ui.matchData)
  {
    if playerId == myPlayerId then Flagged(None, opponentDisconnected)
    else if !waitingForInput && ui.OpponentTurn? then Flagged(Some(WaitingForOpponentToReconnect(ui.matchData)), true)
    else Flagged(None, true)
  }

  /** The viewer's own turn is never interrupted by the opponent leaving. */
  lemma DisconnectKeepsMyTurn(playerId: int, myPlayerId: int, m: Match, flag: bool)
    ensures HandlePlayerDisconnected(playerId, myPlayerId, MyTurn(m), flag, true).next.None?
    ensures HandlePlayerDisconnected(playerId, myPlayerId, MyTurn(m), flag, false).next.None?
  {
  }

  /** White wins on a player-1 win, Black on a player-2 win; a draw or no outcome is a draw. */
  function DetermineMatchEndState(m: Match, myPlayer: Option<Player>): (s: UiState)
    ensures IsEnded(s) && !s.MatchEndedOpponentDisconnected? && s.matchData == m
    ensures s.MatchEndedYouWon? <==>
      (m.outcome == Some(Player1Win) && myPlayer == Some(White)) || (m.outcome == Some(Player2Win) && myPlayer == Some(Black))
    ensures s.MatchEndedDraw? <==> m.outcome.None? || m.outcome == Some(Draw)
  {
    match m.outcome
    case Some(Player1Win) => if myPlayer == Some(White) then MatchEndedYouWon(m) else MatchEndedYouLost(m)
    case Some(Player2Win) => if myPlayer == Some(Black) then MatchEndedYouWon(m) else MatchEndedYouLost(m)
    case Some(Draw) => MatchEndedDraw(m)
    case None => MatchEndedDraw(m)
  }

  /** The two colours of a decided match see opposite results. */
  lemma ColoursSeeOppositeResults(m: Match)
    requires m.outcome == Some(Player1Win) || m.outcome == Some(Player2Win)
    ensures DetermineMatchEndState(m, Some(White)).MatchEndedYouWon? <==>
            DetermineMatchEndState(m, Some(Black)).MatchEndedYouLost?
    ensures DetermineMatchEndState(m, Some(White)).MatchEndedYouWon? ||
            DetermineMatchEndState(m, Some(Black)).MatchEndedYouWon?
  {
  }

  /** Screens without a live match stay; otherwise the disconnection or result screen of the match shown. */
  function HandleMatchEnded(reason: MatchEndReason, ui: UiState, myPlayer: Option<Player>): (s: UiState)
    ensures !IsPlaying(ui) ==> s == ui
    ensures IsPlaying(ui) && reason == Disconnection ==> s == MatchEndedOpponentDisconnected(ui.matchData)
    ensures IsPlaying(ui) && reason == Ended ==> s == DetermineMatchEndState(ui.matchData, myPlayer)
  {
    if !IsPlaying(ui) then ui
    else match reason
      case Disconnection => MatchEndedOpponentDisconnected(ui.matchData)
      case Ended => DetermineMatchEndState(ui.matchData, myPlayer)
  }

  /** After a match end every live screen is final and keeps its match. */
  lemma MatchEndIsFinal(reason: MatchEndReason, ui: UiState, myPlayer: Option<Player>)
    requires IsPlaying(ui)
    ensures IsEnded(HandleMatchEnded(reason, ui, myPlayer))
    ensures HandleMatchEnded(reason, ui, myPlayer).matchData == ui.matchData
  {
  }

  datatype FoundStep = FoundStep(result: Result<UiState, string>, myPlayer: Option<Player>)

  /** The viewer's colour: kept once known, else White iff they are player 1. */
  function ColourOf(m: Match, myPlayerId: int, myPlayer: Option<Player>): (p: Option<Player>)
    ensures myPlayer.Some? ==> p == myPlayer
    ensures myPlayer.None? ==> p == Some(if m.player1Id == myPlayerId then White else Black)
  {
    if myPlayer.Some? then myPlayer else Some(if m.player1Id == myPlayerId then White else Black)
  }

  /**
   * A match was found or updated. A finished match gives its result screen
   * and an unreadable state an error. Otherwise it is the viewer's turn
   * iff the state says so and the game is not over; else the reconnect
   * wait if the opponent is flagged as gone, else the opponent's turn.
   */
  function HandleMatchFoundOrUpdate(m: Match, myPlayerId: int, myPlayer: Option<Player>, opponentDisconnected: bool): (r: FoundStep)
    ensures r.myPlayer == ColourOf(m, myPlayerId, myPlayer) && r.myPlayer.Some?
    ensures !m.inProgress ==> r.result == Ok(DetermineMatchEndState(m, r.myPlayer))
    ensures m.inProgress && !m.gameState.ChessJson? ==> r.result.Err?
    ensures m.inProgress && m.gameState.ChessJson? ==> r.result.Ok? && IsPlaying(r.result.value) && r.result.value.matchData == m
    ensures m.inProgress && m.gameState.ChessJson? ==>
      (r.result.value.MyTurn? <==>
         m.gameState.chess.currentTurn == r.myPlayer.value && !IsFinished(m.gameState.chess))
    ensures m.inProgress && m.gameState.ChessJson? && !r.result.value.MyTurn? ==>
      r.result.value == (if opponentDisconnected then WaitingForOpponentToReconnect(m) else OpponentTurn(m))
  {
    var colour := ColourOf(m, myPlayerId, myPlayer);
    if !m.inProgress then FoundStep(Ok(DetermineMatchEndState(m, colour)), colour)
    else if !m.gameState.ChessJson? then FoundStep(Err(DecodeError(m.gameState)), colour)
    else
      var gs := m.gameState.chess;
      var next :=
        if gs.currentTurn == colour.value && !IsFinished(gs) then MyTurn(m)
        else if opponentDisconnected then WaitingForOpponentToReconnect(m)
        else OpponentTurn(m);
      FoundStep(Ok(next), colour)
  }

  /** The colour is fixed by the first update and never changes afterwards. */
  lemma ColourAssignedOnce(m1: Match, m2: Match, myPlayerId: int, myPlayer: Option<Player>, flag: bool)
    ensures var first := HandleMatchFoundOrUpdate(m1, myPlayerId, myPlayer, flag);
      HandleMatchFoundOrUpdate(m2, myPlayerId, first.myPlayer, flag).myPlayer == first.myPlayer
  {
  }

  /** In a game still going on, exactly one colour is shown its turn. */
  lemma TurnGoesToOneColour(m: Match, myPlayerId: int, flag: bool)
    requires m.inProgress && m.gameState.ChessJson? && !IsFinished(m.gameState.chess)
    ensures var white := HandleMatchFoundOrUpdate(m, myPlayerId, Some(White), flag).result;
      var black := HandleMatchFoundOrUpdate(m, myPlayerId, Some(Black), flag).result;
      white.Ok? && black.Ok? && (white.value.MyTurn? <==> !black.value.MyTurn?)
  {
  }

  /** The game loop clears the flag after an update unless the new screen is the reconnect wait. */
  function FlagAfterUpdate(opponentDisconnected: bool, next: UiState): (flag: bool)
    ensures flag <==> opponentDisconnected && next.WaitingForOpponentToReconnect?
  {
    if opponentDisconnected && !next.WaitingForOpponentToReconnect? then false else opponentDisconnected
  }

  /** A flagged opponent stays flagged exactly while the update shows the reconnect wait. */
  lemma FlagTracksReconnectWait(m: Match, myPlayerId: int, myPlayer: Option<Player>)
    requires m.inProgress && m.gameState.ChessJson?
    ensures var r := HandleMatchFoundOrUpdate(m, myPlayerId, myPlayer, true);
      FlagAfterUpdate(true, r.result.value) <==> !r.result.value.MyTurn?
  {
  }

  datatype InputStep = InputStep(sent: Option<ChessMove>, next: Option<UiState>, notice: Option<string>)

  const BadFormat: string := "Invalid input format. Use 'from to' (e.g., 'e2 e4')"
  const BadSquare: string := "Invalid position format. Use algebraic notation (e.g., 'e2', 'e4')"
  const BadPieceMove: string := "Invalid move for that piece."

  /** The move named by exactly two whitespace-separated squares. */
  function ParseMoveInput(input: string): (r: Option<ChessMove>)
    ensures r.Some? ==> OnBoard(r.value.from) && OnBoard(r.value.to)
    ensures r.Some? <==> var parts := Strings.Words(input);
      |parts| == 2 && FromAlgebraic(parts[0]).Some? && FromAlgebraic(parts[1]).Some?
  {
    var parts := Strings.Words(input);
    if |parts| != 2 then None
    else match (FromAlgebraic(parts[0]), FromAlgebraic(parts[1]))
      case (Some(from), Some(to)) => Some(ChessMove(from, to))
      case _ => None
  }

  /**
   * A line typed on the viewer's turn. The text must be two squares; on the
   * viewer's turn with a readable state the move must also pass the local
   * rules check, and is then sent, after which the screen is the
   * opponent's turn (or the reconnect wait). An unreadable state sends the
   * move unchecked. Outside the viewer's turn nothing is sent.
   */
  function HandleUserInput(input: string, ui: UiState, opponentDisconnected: bool, myPlayer: Player): (r: InputStep)
    ensures Strings.Words(input) != [] && |Strings.Words(input)| != 2 ==> r == InputStep(None, None, Some(BadFormat))
    ensures r.sent.Some? <==>
      && ui.MyTurn? && ParseMoveInput(input).Some?
      && (ui.matchData.gameState.ChessJson? ==>
            ValidMove(ui.matchData.gameState.chess.board, ParseMoveInput(input).value, myPlayer) == Ok(true))
    ensures r.sent.Some? ==> r.sent == ParseMoveInput(input)
    ensures r.sent.Some? ==>
      r.next == Some(if opponentDisconnected then WaitingForOpponentToReconnect(ui.matchData) else OpponentTurn(ui.matchData))
    ensures r.sent.None? ==> r.next.None?
  {
    var parts := Strings.Words(input);
    if |parts| != 2 then InputStep(None, None, Some(BadFormat))
    else match ParseMoveInput(input)
      case None => InputStep(None, None, Some(BadSquare))
      case Some(mv) =>
        if !ui.MyTurn? then InputStep(None, None, None)
        else
          var checked :=
            if ui.matchData.gameState.ChessJson? then ValidMove(ui.matchData.gameState.chess.board, mv, myPlayer)
            else Ok(true);
          match checked
          case Ok(true) =>
            var next := if opponentDisconnected then WaitingForOpponentToReconnect(ui.matchData)
                        else OpponentTurn(ui.matchData);
            InputStep(Some(mv), Some(next), None)
          case Ok(false) => InputStep(None, None, Some(BadPieceMove))
          case Err(msg) => InputStep(None, None, Some("Invalid move: " + msg))
  }

  /** A move sent from a readable state keeps the mover's king out of check. */
  lemma SentMoveKeepsKingSafe(input: string, m: Match, flag: bool, myPlayer: Player)
    requires m.gameState.ChessJson?
    requires HandleUserInput(input, MyTurn(m), flag, myPlayer).sent.Some?
    ensures var mv := HandleUserInput(input, MyTurn(m), flag, myPlayer).sent.value;
      !InCheck(Apply(m.gameState.chess.board, mv), myPlayer)
  {
    var mv := HandleUserInput(input, MyTurn(m), flag, myPlayer).sent.value;
    ValidMoveKeepsKingSafe(m.gameState.chess.board, mv, myPlayer);
  }

  /** "e2 e4" names the king's-pawn opening move. */
  lemma KingsPawnInput()
    ensures ParseMoveInput("e2 e4") == Some(ChessMove(Position(1, 4), Position(3, 4)))
  {
    assert "e2 e4" == "e2" + " " + "e4";
    assert !Strings.IsWhitespace('e') && !Strings.IsWhitespace('2') && !Strings.IsWhitespace('4');
    Strings.TwoWords("e2", "e4");
  }
}
