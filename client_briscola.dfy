/**
 * The Briscola client's screen-state transitions and card rendering text.
 * The `&mut` flags of the handlers are passed in and the updated values
 * returned; a move sent to the server is the returned `sent` index.
 */
module ClientBriscola {
  import opened Wrappers
  import opened Matches
  import Briscola
  import Decimal

  datatype UiState =
    | WaitingForOpponentToJoin
    | PlayingGame(matchData: Match, yourTurn: bool, opponentDisconnected: bool)
    | WaitingForOpponentToReconnect(matchData: Match)
    | MatchEndedYouWon(matchData: Match)
    | MatchEndedYouLost(matchData: Match)
    | MatchEndedDraw(matchData: Match)
    | MatchEndedOpponentDisconnected(matchData: Match)

  predicate IsEnded(u: UiState)
  {
    u.MatchEndedYouWon? || u.MatchEndedYouLost? || u.MatchEndedDraw? || u.MatchEndedOpponentDisconnected?
  }

  /** A state that still has a live match on screen. */
  predicate IsPlaying(u: UiState)
  {
    u.PlayingGame? || u.WaitingForOpponentToReconnect?
  }

  /** A new screen state (if any) with the updated opponent-disconnected flag. */
  datatype Flagged = Flagged(next: Option<UiState>, opponentDisconnected: bool)

  /**
   * A player left. The viewer's own id changes nothing; for the opponent the
   * flag is raised and a not-your-turn game screen turns into the
   * reconnect-wait screen for the same match.
   */
  function HandlePlayerDisconnected(playerId: int, myPlayerId: int, ui: UiState, opponentDisconnected: bool): (r: Flagged)
    ensures playerId == myPlayerId ==> r == Flagged(None, opponentDisconnected)
    ensures playerId != myPlayerId ==> r.opponentDisconnected
    ensures r.next.Some? <==> playerId != myPlayerId && ui.PlayingGame? && !ui.yourTurn
    ensures r.next.Some? ==> r.next.value == WaitingForOpponentToReconnect(ui.matchData)
  {
    if playerId == myPlayerId then Flagged(None, opponentDisconnected)
    else if ui.PlayingGame? && !ui.yourTurn then Flagged(Some(WaitingForOpponentToReconnect(ui.matchData)), true)
    else Flagged(None, true)
  }

  /** A second notice of the same disconnect, on the screen the first produced, changes nothing more. */
  lemma DisconnectSettles(playerId: int, myPlayerId: int, ui: UiState, flag: bool)
    requires playerId != myPlayerId
    ensures var first := HandlePlayerDisconnected(playerId, myPlayerId, ui, flag);
      var shown := if first.next.Some? then first.next.value else ui;
      var second := HandlePlayerDisconnected(playerId, myPlayerId, shown, first.opponentDisconnected);
      second.opponentDisconnected && (first.next.Some? ==> second.next.None?)
  {
  }

  /**
   * The final screen for a finished match: a win when the winning seat is
   * the viewer's, a loss for the other seat, and a draw for a drawn match or
   * one without an outcome.
   */
  function DetermineMatchEndState(m: Match, myNumber: Option<int>): (s: UiState)
    ensures IsEnded(s) && !s.MatchEndedOpponentDisconnected? && s.matchData == m
    ensures s.MatchEndedYouWon? <==>
      (m.outcome == Some(Player1Win) && myNumber == Some(1)) || (m.outcome == Some(Player2Win) && myNumber == Some(2))
    ensures s.MatchEndedDraw? <==> m.outcome.None? || m.outcome == Some(Draw)
  {
    match m.outcome
    case Some(Player1Win) => if myNumber == Some(1) then MatchEndedYouWon(m) else MatchEndedYouLost(m)
    case Some(Player2Win) => if myNumber == Some(2) then MatchEndedYouWon(m) else MatchEndedYouLost(m)
    case Some(Draw) => MatchEndedDraw(m)
    case None => MatchEndedDraw(m)
  }

  /** The two seats of a decided match see opposite results. */
  lemma SeatsSeeOppositeResults(m: Match)
    requires m.outcome == Some(Player1Win) || m.outcome == Some(Player2Win)
    ensures DetermineMatchEndState(m, Some(1)).MatchEndedYouWon? <==> DetermineMatchEndState(m, Some(2)).MatchEndedYouLost?
    ensures DetermineMatchEndState(m, Some(1)).MatchEndedYouWon? || DetermineMatchEndState(m, Some(2)).MatchEndedYouWon?
  {
  }

  /**
   * The match ended. Screens without a live match stay as they are; otherwise
   * a disconnection gives the opponent-disconnected screen and a normal end
   * the result screen for the match on display.
   */
  function HandleMatchEnded(reason: MatchEndReason, ui: UiState, myNumber: Option<int>): (s: UiState)
    ensures !IsPlaying(ui) ==> s == ui
    ensures IsPlaying(ui) && reason == Disconnection ==> s == MatchEndedOpponentDisconnected(ui.matchData)
    ensures IsPlaying(ui) && reason == Ended ==> s == DetermineMatchEndState(ui.matchData, myNumber)
  {
    if !IsPlaying(ui) then ui
    else match reason
      case Disconnection => MatchEndedOpponentDisconnected(ui.matchData)
      case Ended => DetermineMatchEndState(ui.matchData, myNumber)
  }

  /** After a match end every live screen is final and keeps its match. */
  lemma MatchEndIsFinal(reason: MatchEndReason, ui: UiState, myNumber: Option<int>)
    requires IsPlaying(ui)
    ensures IsEnded(HandleMatchEnded(reason, ui, myNumber))
    ensures HandleMatchEnded(reason, ui, myNumber).matchData == ui.matchData
  {
  }

  /** The result of a match update, with the updated seat number and flag. */
  datatype FoundStep = FoundStep(result: Result<UiState, string>, myNumber: Option<int>, opponentDisconnected: bool)

  /** The viewer's seat: kept once known, else 1 iff they are player 1. */
  function SeatOf(m: Match, myPlayerId: int, myNumber: Option<int>): (n: Option<int>)
    ensures myNumber.Some? ==> n == myNumber
    ensures myNumber.None? ==> n == Some(if m.player1Id == myPlayerId then 1 else 2)
  {
    if myNumber.Some? then myNumber else Some(if m.player1Id == myPlayerId then 1 else 2)
  }

  /**
   * A match was found or updated. A finished match gives its result screen;
   * an unreadable game state is an error; otherwise the game screen, with
   * the turn the viewer's iff the state's current player is their seat, and
   * the opponent-disconnected flag cleared.
   */
  function HandleMatchFoundOrUpdate(m: Match, myPlayerId: int, myNumber: Option<int>, opponentDisconnected: bool): (r: FoundStep)
    ensures r.myNumber == SeatOf(m, myPlayerId, myNumber) && r.myNumber.Some?
    ensures !m.inProgress ==>
      r.result == Ok(DetermineMatchEndState(m, r.myNumber)) && r.opponentDisconnected == opponentDisconnected
    ensures m.inProgress && !m.gameState.BriscolaJson? ==>
      r.result.Err? && r.opponentDisconnected == opponentDisconnected
    ensures m.inProgress && m.gameState.BriscolaJson? ==>
      && r.result == Ok(PlayingGame(m, m.gameState.briscola.currentPlayer == r.myNumber.value, false))
      && !r.opponentDisconnected
  {
    var seat := SeatOf(m, myPlayerId, myNumber);
    if !m.inProgress then FoundStep(Ok(DetermineMatchEndState(m, seat)), seat, opponentDisconnected)
    else if !m.gameState.BriscolaJson? then FoundStep(Err(DecodeError(m.gameState)), seat, opponentDisconnected)
    else
      var yourTurn := m.gameState.briscola.currentPlayer == seat.value;
      FoundStep(Ok(PlayingGame(m, yourTurn, false)), seat, false)
  }

  /** The seat is fixed by the first update and never changes afterwards. */
  lemma SeatAssignedOnce(m1: Match, m2: Match, myPlayerId: int, myNumber: Option<int>, flag: bool)
    ensures var first := HandleMatchFoundOrUpdate(m1, myPlayerId, myNumber, flag);
      HandleMatchFoundOrUpdate(m2, myPlayerId, first.myNumber, first.opponentDisconnected).myNumber == first.myNumber
  {
  }

  /** Of the two seats exactly one is told it is their turn, when the current player is 1 or 2. */
  lemma TurnGoesToOneSeat(m: Match, myPlayerId: int, flag: bool)
    requires m.inProgress && m.gameState.BriscolaJson?
    requires m.gameState.briscola.currentPlayer == 1 || m.gameState.briscola.currentPlayer == 2
    ensures var one := HandleMatchFoundOrUpdate(m, myPlayerId, Some(1), flag).result;
      var two := HandleMatchFoundOrUpdate(m, myPlayerId, Some(2), flag).result;
      one.Ok? && two.Ok? && (one.value.yourTurn <==> !two.value.yourTurn)
  {
  }

  /** The match's game state, or the empty state when it does not decode. */
  function ParseGameState(m: Match): (s: Briscola.State)
    ensures m.gameState.BriscolaJson? ==> s == m.gameState.briscola
    ensures !m.gameState.BriscolaJson? ==> s == Briscola.New()
  {
    if m.gameState.BriscolaJson? then m.gameState.briscola else Briscola.New()
  }

  function MyHand(s: Briscola.State, myNumber: int): seq<Briscola.Card>
  {
    if myNumber == 1 then s.player1Hand else s.player2Hand
  }

  /** What a line of input did: the card index sent, the next screen, and the notice printed. */
  datatype InputStep = InputStep(sent: Option<nat>, next: Option<UiState>, notice: Option<string>)

  const NotANumber: string := "Invalid input. Please enter a number."

  /**
   * A line typed while it is the viewer's turn. Text that is not a number,
   * or (on the game screen) an index outside the viewer's hand, sends
   * nothing and prints a notice; otherwise the index is sent and the game
   * screen moves to the opponent's turn (or to the reconnect wait). The
   * result is None when the index check would compute `len - 1` of an
   * empty hand: that unsigned subtraction overflows.
   */
  function HandleUserInput(input: string, ui: UiState, opponentDisconnected: bool, myNumber: int): (r: Option<InputStep>)
    ensures r.None? <==>
      Decimal.ParseU64(input).Some? && ui.PlayingGame? && |MyHand(ParseGameState(ui.matchData), myNumber)| == 0
    ensures Decimal.ParseU64(input).None? ==> r == Some(InputStep(None, None, Some(NotANumber)))
    ensures r.Some? && r.value.sent.Some? ==>
      && Decimal.ParseU64(input) == Some(r.value.sent.value)
      && (ui.PlayingGame? ==> r.value.sent.value < |MyHand(ParseGameState(ui.matchData), myNumber)|)
    ensures r.Some? && r.value.sent.None? ==> r.value.next.None? && r.value.notice.Some?
    ensures r.Some? && r.value.sent.Some? && ui.PlayingGame? ==>
      r.value.next == Some(if opponentDisconnected then WaitingForOpponentToReconnect(ui.matchData)
                           else PlayingGame(ui.matchData, false, false))
    ensures r.Some? && r.value.sent.Some? && !ui.PlayingGame? ==> r.value.next.None?
  {
    match Decimal.ParseU64(input)
    case None => Some(InputStep(None, None, Some(NotANumber)))
    case Some(cardIndex) =>
      if ui.PlayingGame? && cardIndex >= |MyHand(ParseGameState(ui.matchData), myNumber)| then
        var handSize := |MyHand(ParseGameState(ui.matchData), myNumber)|;
        if handSize == 0 then None
        else Some(InputStep(None, None, Some("Invalid card index. Please enter 0-" + Decimal.IntToString(handSize - 1) + ".")))
      else if ui.PlayingGame? then
        var next := if opponentDisconnected then WaitingForOpponentToReconnect(ui.matchData)
                    else PlayingGame(ui.matchData, false, false);
        Some(InputStep(Some(cardIndex), Some(next), None))
      else Some(InputStep(Some(cardIndex), None, None))
  }

  /** A sent move is never followed by a screen that waits for more input. */
  lemma NoSecondMoveQueued(input: string, ui: UiState, opponentDisconnected: bool, myNumber: int)
    requires HandleUserInput(input, ui, opponentDisconnected, myNumber).Some?
    requires HandleUserInput(input, ui, opponentDisconnected, myNumber).value.next.Some?
    ensures var next := HandleUserInput(input, ui, opponentDisconnected, myNumber).value.next.value;
      !(next.PlayingGame? && next.yourTurn)
  {
  }

  /** A resumed game state that fails to decode shows an empty hand, so a typed index overflows. */
  lemma UndecodableStateOverflows(m: Match, myNumber: int)
    requires !m.gameState.BriscolaJson?
    ensures HandleUserInput("0", PlayingGame(m, true, false), false, myNumber).None?
  {
    assert Decimal.ParseU64("0") == Some(0) by {
      assert Decimal.AllDigits("0");
    }
  }

  // ---------------------------------------------------------------- card text

  function RankText(r: Briscola.Rank): (t: string)
    ensures |t| == 1
  {
    match r
    case Ace => "A"
    case Two => "2"
    case Three => "3"
    case Four => "4"
    case Five => "5"
    case Six => "6"
    case Seven => "7"
    case Jack => "J"
    case Knight => "C"
    case King => "K"
  }

  function SuitName(s: Briscola.Suit): string
  {
    match s
    case Bastoni => "Bastoni"
    case Coppe => "Coppe"
    case Denari => "Denari"
    case Spade => "Spade"
  }

  /** A card as rank letter, a space and the suit's name, e.g. "C Spade". */
  function FormatCard(c: Briscola.Card): (t: string)
    ensures |t| == 2 + |SuitName(c.suit)|
    ensures t[..1] == RankText(c.rank) && t[1] == ' ' && t[2..] == SuitName(c.suit)
  {
    RankText(c.rank) + " " + SuitName(c.suit)
  }

  /** No two cards print the same. */
  lemma FormatCardInjective(a: Briscola.Card, b: Briscola.Card)
    requires FormatCard(a) == FormatCard(b)
    ensures a == b
  {
    assert RankText(a.rank) == RankText(b.rank);
    assert SuitName(a.suit) == SuitName(b.suit);
  }

  function SuitChar(s: Briscola.Suit): char
  {
    match s
    case Bastoni => 'B'
    case Coppe => 'C'
    case Denari => 'D'
    case Spade => 'S'
  }

  const CardTop: string := "╭───────╮"
  const CardBottom: string := "╰───────╯"

  /** The three middle rows of a card's picture: pips for number cards, a figure for court cards. */
  function MiddleRows(suit: Briscola.Suit, rank: Briscola.Rank): (rows: seq<string>)
    ensures |rows| == 3 && forall i :: 0 <= i < 3 ==> |rows[i]| == 9
  {
    var c := SuitChar(suit);
    var blank := "│       │";
    var one := "│   " + [c] + "   │";
    var two := "│  " + [c] + " " + [c] + "  │";
    match rank
    case Ace => [blank, one, blank]
    case Two => [blank, two, blank]
    case Three => [one, two, blank]
    case Four => [two, blank, two]
    case Five => [two, one, two]
    case Six => [two, two, two]
    case Seven => [two, "│ " + [c] + " " + [c] + " " + [c] + " │", two]
    case Jack => ["│     " + [c] + " │", "│ ╭┼╮╱  │", "│ ╭┴╮   │"]
    case Knight => ["│ ╰┼╯╭" + [c] + " │", "│╭─┼─┴╮ │", "││ ╵  │ │"]
    case King => ["│╰─┼─╮" + [c] + " │", "│ ╭┴╮   │", "│ │ │   │"]
  }

  /**
   * The picture of a card as six lines of nine characters each: the top
   * border, the rank line, three middle rows and the bottom border. The
   * side-by-side hand display indexes lines 0 to 5 of every card.
   */
  method CardView(suit: Briscola.Suit, rank: Briscola.Rank) returns (lines: seq<string>)
    ensures |lines| == 6 && forall i :: 0 <= i < 6 ==> |lines[i]| == 9
    ensures lines[0] == CardTop && lines[5] == CardBottom
    ensures lines[1][6..7] == RankText(rank)
    ensures lines[2..5] == MiddleRows(suit, rank)
  {
    lines := [CardTop, "│     " + RankText(rank) + " │"];
    lines := lines + MiddleRows(suit, rank);
    lines := lines + [CardBottom];
  }

  /** Every card picture shows its suit letter in one of its middle rows. */
  lemma MiddleRowsShowSuit(suit: Briscola.Suit, rank: Briscola.Rank)
    ensures exists i, j :: 0 <= i < 3 && 0 <= j < 9 && MiddleRows(suit, rank)[i][j] == SuitChar(suit)
  {
    var rows := MiddleRows(suit, rank);
    match rank
    case Ace => assert rows[1][4] == SuitChar(suit);
    case Two => assert rows[1][3] == SuitChar(suit);
    case Three => assert rows[0][4] == SuitChar(suit);
    case Four => assert rows[0][3] == SuitChar(suit);
    case Five => assert rows[0][3] == SuitChar(suit);
    case Six => assert rows[0][3] == SuitChar(suit);
    case Seven => assert rows[0][3] == SuitChar(suit);
    case Jack => assert rows[0][6] == SuitChar(suit);
    case Knight => assert rows[0][6] == SuitChar(suit);
    case King => assert rows[0][6] == SuitChar(suit);
  }
}
