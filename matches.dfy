/**
 * The match record exchanged with clients, match outcomes and end
 * reasons, with the outcome's string codec ("p1_win", "p2_win", "draw")
 * used by the match table.
 */
module Matches {
  import opened Wrappers
  import opened GameTypes
  import TicTacToeEngine
  import RpsState
  import Briscola
  import ChessRules

  datatype MatchOutcome = Player1Win | Player2Win | Draw

  datatype MatchEndReason = Ended | Disconnection

  /**
   * A match's game state as a JSON value: the state of one of the games,
   * or any other value, which no game can decode; `detail` stands for the
   * decoder's error text.
   */
  datatype GameBlob =
    | TicTacToeJson(ticTacToe: TicTacToeEngine.State)
    | RpsJson(rps: RpsState.State)
    | BriscolaJson(briscola: Briscola.State)
    | ChessJson(chess: ChessRules.State)
    | OtherJson(detail: string)

  datatype Match = Match(
    id: int,
    player1Id: int,
    player2Id: int,
    inProgress: bool,
    outcome: Option<MatchOutcome>,
    gameType: GameType,
    gameState: GameBlob)

  /** The decoder's error text when a blob is not a state of the expected game. */
  function DecodeError(b: GameBlob): string
  {
    if b.OtherJson? then b.detail else ""
  }

  /** The `Display` text of an outcome, as stored in the table. */
  function OutcomeToString(o: MatchOutcome): (s: string)
    ensures |s| > 0
  {
    match o
    case Player1Win => "p1_win"
    case Player2Win => "p2_win"
    case Draw => "draw"
  }

  function OutcomeFromString(s: string): (r: Option<MatchOutcome>)
    ensures r.Some? ==> OutcomeToString(r.value) == s
  {
    if s == "p1_win" then Some(Player1Win)
    else if s == "p2_win" then Some(Player2Win)
    else if s == "draw" then Some(Draw)
    else None
  }

  lemma OutcomeRoundTrip(o: MatchOutcome)
    ensures OutcomeFromString(OutcomeToString(o)) == Some(o)
  {
    match o
    case Player1Win =>
    case Player2Win =>
      assert "p2_win" != "p1_win" by { assert "p2_win"[1] != "p1_win"[1]; }
    case Draw =>
      assert "draw" != "p1_win" by { assert "draw"[0] != "p1_win"[0]; }
      assert "draw" != "p2_win" by { assert "draw"[0] != "p2_win"[0]; }
  }

  /** Exactly the three printed forms are accepted. */
  lemma OutcomeFromStringExact(s: string, o: MatchOutcome)
    ensures OutcomeFromString(s) == Some(o) <==> s == OutcomeToString(o)
  {
    if s == OutcomeToString(o) { OutcomeRoundTrip(o); }
  }

  lemma OutcomeUnknownRejected(s: string)
    requires s != "p1_win" && s != "p2_win" && s != "draw"
    ensures OutcomeFromString(s) == None
  {
  }
}
