# battld core, modelled in Dafny

battld is a turn-based game server with terminal clients. Players
authenticate with a signed token. They are paired by matchmaking and play
over a WebSocket. Each match is stored as a row of a SQLite `matches`
table, with its game state serialised as JSON. The server hosts four
game engines: tic-tac-toe, rock-paper-scissors (RPS, best of three round
wins), Briscola (the 40-card Italian trick game) and chess. Each engine
checks a move against the state and returns a new state or a game error.
A router dispatches moves to the engine of the match's game type. It also
hides each player's secrets from the other player ("redaction"). Around the
engines sit the match table, the handlers of the WebSocket protocol, the
send registry and its reconnect timers, the session and nonce caches, the
statistics and leaderboard queries, CSRF protection and the address setup
of the server. On the client side there are the Briscola and chess screens
and the leaderboard browser.

The project has one Dafny module per source component:

- Shared types: `Wrappers`, `GameTypes`, `GameErrors`, `Matches`, `Api`.
- Game rules and engines: `TicTacToeBoard`, `TicTacToeEngine`,
  `TicTacToeState`, `Tris`, `RpsState`, `RpsEngine`, `Briscola`,
  `BriscolaEngine`, `ChessRules`, `ChessEngine`.
- Server: `GameRouter`, `Repository`, `Database`, `GameLogic`,
  `WebSocket`, `SessionCache`, `NonceCache`, `Stats`, `Csrf`, `ServerMain`.
- Client: `ClientBriscola`, `ClientChess`, `Leaderboard`.
- Standard-library stand-ins: `Strings` and `Decimal`.

The model follows the source's own form:

- Engines that clone their input and return a new state are functions.
- Code that loops is a method proved equal to a specification function:
  the winner scan, the chess path, king and attack scans, the
  legal-move search, deck creation, score tallies and the leaderboard
  loop.
- Objects that mutate shared maps are classes whose methods state their
  whole new state: the match table, the connection registry and the
  two caches.
- Client handlers that return a new screen and update `&mut` flags are
  functions returning a record of the new screen and the new flag values.

Clocks, randomness, the terminal size and signature checking are
parameters of the operations that use them.

## Model

| member | source | states |
|---|---|---|
| GameTypes.ToString | common/src/games/game_type.rs:14-21 | every game type prints as a non-empty tag |
| GameTypes.FromString | common/src/games/game_type.rs:24-30 | an accepted string is exactly the printed tag of the type returned |
| GameTypes.RoundTrip | common/src/games/game_type.rs:14-30 | parsing the printed tag gives the game type back |
| GameTypes.FromStringExact | common/src/games/game_type.rs:24-30 | a string parses to a type if and only if it is that type's tag |
| GameTypes.UnknownRejected | common/src/games/game_type.rs:24-30 | every string other than "tris" and "rps" is rejected |
| GameTypes.ToStringInjective | common/src/games/game_type.rs:14-21 | distinct game types print distinct tags |
| Matches.OutcomeToString | common/src/games/matches.rs:34-42 | every outcome prints as a non-empty text |
| Matches.OutcomeFromString | common/src/tris.rs:157-164 | an accepted text is exactly the printed form of the outcome returned |
| Matches.OutcomeRoundTrip | common/src/tris.rs:146-164 | parsing a printed outcome gives the outcome back |
| Matches.OutcomeFromStringExact | common/src/tris.rs:157-164 | a text parses to an outcome if and only if it is that outcome's printed form |
| Matches.OutcomeUnknownRejected | common/src/tris.rs:157-164 | texts other than "p1_win", "p2_win" and "draw" are rejected |
| TicTacToeBoard.CoordsToIndex | common/src/games/tic_tac_toe.rs:36-43 | an index exists exactly for row and column below 3; it is row-major, so index / 3 is the row and index % 3 the column |
| TicTacToeBoard.WinnerSound | common/src/games/tic_tac_toe.rs:60-77 | a reported winner is a non-zero mark that owns three cells of a line |
| TicTacToeBoard.WinnerComplete | common/src/games/tic_tac_toe.rs:60-77 | no winner is reported exactly when no line holds three equal non-zero marks |
| TicTacToeBoard.WinnerUnique | common/src/games/tic_tac_toe.rs:60-77 | when every won line belongs to one player, that player is the reported winner |
| TicTacToeBoard.CheckWinner | server/src/games/tic_tac_toe.rs:59-77 | the loop over rows, columns and diagonals returns the mark of the first won line, as the scan specification defines it |
| TicTacToeBoard.WinnerFromSound | common/src/tris.rs:82-104 | the scan from any line on reports a won line, or none when no later line is won |
| TicTacToeEngine.ToIndex | server/src/games/tic_tac_toe.rs:14-20 | a move's cell index exists exactly for on-grid coordinates and addresses that row and column |
| TicTacToeEngine.New | server/src/games/tic_tac_toe.rs:38-47 | the initial state has an empty board, player 1 to move, no winner and is consistent |
| TicTacToeEngine.RedactForPlayer | server/src/games/tic_tac_toe.rs:49-51 | every viewer sees the whole state |
| TicTacToeEngine.Update | server/src/games/tic_tac_toe.rs:109-158 | rejections in source order (invalid player, finished game, wrong turn, off-grid cell, taken cell); a move is accepted exactly when none applies; it then marks the cell, passes the turn and sets the winner or the draw from the new board |
| TicTacToeEngine.UpdatePreservesConsistent | server/src/games/tic_tac_toe.rs:109-158 | an accepted move keeps the finished flag, the winner and the board in agreement |
| TicTacToeEngine.UpdateAddsOneMark | server/src/games/tic_tac_toe.rs:109-158 | an accepted move adds exactly one mark and erases none |
| TicTacToeState.GameState.constructor | common/src/games/tic_tac_toe.rs:26-34 | a new game has an empty board, player 1 to move and no winner |
| TicTacToeState.GameState.PlaceMove | common/src/games/tic_tac_toe.rs:45-58 | the cell index, then occupancy, then the player are checked, each with its message; it succeeds exactly when all pass; only the board changes, and only at that cell |
| Tris.GameState.constructor | common/src/tris.rs:53-55 | a new board has nine empty cells |
| Tris.GameState.FromCells | common/src/tris.rs:112-114 | a decoded board holds exactly the stored cells |
| Tris.GameState.PlaceMove | common/src/tris.rs:67-79 | same checks and messages as the tic-tac-toe board; on success only the chosen cell changes |
| RpsState.Beats | common/src/games/rock_paper_scissors.rs:18-28 | a winning move is one of the two moves, is never the redacted placeholder, and the two moves differ |
| RpsState.BeatsSymmetric | common/src/games/rock_paper_scissors.rs:18-28 | the winner does not depend on argument order |
| RpsState.BeatsMeansDefeats | common/src/games/rock_paper_scissors.rs:18-28 | the winning move is the one that defeats the other in the rock, paper, scissors cycle; equal or redacted moves give no winner |
| RpsState.ComputeRoundWinner | common/src/games/rock_paper_scissors.rs:140-151 | player 1 or 2 wins a round exactly when their move defeats the other's; otherwise the round is a draw |
| RpsState.TallyAppendComplete | common/src/games/rock_paper_scissors.rs:60-78 | a completed round adds one win to the player ComputeRoundWinner names, and nothing on a draw |
| RpsState.TallyAppendIncomplete | common/src/games/rock_paper_scissors.rs:60-78 | a round missing a move scores nothing |
| RpsState.TallyBounded | common/src/games/rock_paper_scissors.rs:60-78 | the two win counts together never exceed the number of rounds |
| RpsState.New | common/src/games/rock_paper_scissors.rs:47-51 | a new game has one empty round and a score of 0 to 0 |
| RpsState.GetScore | common/src/games/rock_paper_scissors.rs:60-78 | the loop over the rounds returns each player's round wins |
| RpsState.GetWinner | common/src/games/rock_paper_scissors.rs:81-100 | no winner before someone has two round wins; then player 1 if they have two, else player 2 |
| RpsState.RedactForPlayer | common/src/games/rock_paper_scissors.rs:104-136 | completed rounds are shown as they are; in a pending round the opponent's move is shown only as "made" (redacted), the viewer's own is kept; other viewers see everything |
| RpsState.RedactIdempotent | common/src/games/rock_paper_scissors.rs:104-136 | redacting twice for one viewer equals redacting once |
| RpsState.RedactKeepsTally | common/src/games/rock_paper_scissors.rs:104-136 | redaction never changes the round wins |
| RpsState.RedactKeepsScore | common/src/games/rock_paper_scissors.rs:81-136 | the viewer sees the true score and the true finished flag |
| RpsEngine.Update | server/src/games/rock_paper_scissors.rs:10-59 | rejections in source order (finished game, invalid player, slot already filled); accepted exactly otherwise; the mover's slot of the last round is set, and a new empty round opens when the round completes and the game goes on |
| RpsEngine.NewWellFormed | common/src/games/rock_paper_scissors.rs:47-51 | the initial state satisfies the engine's invariant: completed rounds followed by one open round, or a finished game |
| RpsEngine.UpdatePreservesWellFormed | server/src/games/rock_paper_scissors.rs:10-59 | accepted moves keep that invariant, and neither player ever passes two round wins |
| RpsEngine.MoveOrderIrrelevant | server/src/games/rock_paper_scissors.rs:10-59 | the two players' moves of a round give the same state in either order |
| RpsEngine.Draws | server/src/games/rock_paper_scissors.rs:46-56 | k rounds of rock against rock |
| RpsEngine.DrawsTally | common/src/games/rock_paper_scissors.rs:60-78 | drawn rounds score nothing |
| RpsEngine.DrawnRoundsStep | server/src/games/rock_paper_scissors.rs:46-56 | after any number of draws the game is still open and a further drawn round opens a new one, so the round list has no bound |
| Briscola.New | common/src/games/briscola.rs:88-101 | the fallback state has empty hands, table, deck and piles, no trump card, and player 1 to lead |
| Briscola.CardPoints | common/src/games/briscola.rs:155-164 | a card is worth at most 11 points, and points only for Jack, Knight, King, Three and Ace |
| Briscola.PointsAppend | common/src/games/briscola.rs:122-126 | the points of two piles joined are the sum of their points |
| Briscola.PointsBound | common/src/games/briscola.rs:155-164 | a pile is worth at most 11 points per card |
| Briscola.GetScore | common/src/games/briscola.rs:122-126 | each player's score is the points of their own pile |
| Briscola.GetWinner | common/src/games/briscola.rs:129-152 | no winner before the hands, the deck and the trump card are gone; then the strictly higher score wins and equal scores give none |
| Briscola.RedactForPlayer | common/src/games/briscola.rs:104-119 | the viewer keeps their own hand; the opponent's hand and the deck are emptied; the deck count and every other field are kept |
| Briscola.RedactIdempotent | common/src/games/briscola.rs:104-119 | redacting twice for one viewer equals redacting once |
| Briscola.RedactKeepsScore | common/src/games/briscola.rs:104-126 | redaction never changes the score |
| BriscolaEngine.FullDeck | server/src/games/briscola.rs:117-142 | the deck has 40 cards |
| BriscolaEngine.FullDeckComplete | server/src/games/briscola.rs:117-142 | every card of the four suits and ten ranks is in the deck |
| BriscolaEngine.FullDeckDistinct | server/src/games/briscola.rs:117-142 | no card is in the deck twice |
| BriscolaEngine.CreateDeck | server/src/games/briscola.rs:117-142 | the nested loop over suits and ranks builds exactly the full deck in that order; the shuffle is a parameter of `New` |
| BriscolaEngine.New | server/src/games/briscola.rs:15-49 | three cards to each player from the end of the shuffled deck, the next card becomes the trump card and fixes the trump suit, 33 cards remain; no card is lost or duplicated |
| BriscolaEngine.DealKeepsCards | server/src/games/briscola.rs:15-49 | the dealt state holds exactly the cards of the shuffled deck |
| BriscolaEngine.ReversedThree | server/src/games/briscola.rs:21-26 | three cards popped in reverse order are the same cards |
| BriscolaEngine.RankValue | server/src/games/briscola.rs:251-264 | rank strengths lie between 2 and 11 |
| BriscolaEngine.RankValueInjective | server/src/games/briscola.rs:251-264 | distinct ranks have distinct strengths |
| BriscolaEngine.DetermineRoundWinner | server/src/games/briscola.rs:197-248 | two trumps or two cards of one suit go by rank strength (a tie to the second player); a lone trump wins; otherwise the card led wins |
| BriscolaEngine.WinnerHoldsStrongerCard | server/src/games/briscola.rs:197-248 | for two different cards the trick goes to the player holding the stronger card, where trumps beat the suit led and the suit led beats the rest |
| BriscolaEngine.DrawCardToPlayer | server/src/games/briscola.rs:267-288 | the deck's last card while the deck lasts, then the trump card, then nothing; the counter equals the deck size after a draw; no card is lost |
| BriscolaEngine.GiveCardAdds | server/src/games/briscola.rs:267-288 | giving a card adds exactly that card to the game |
| BriscolaEngine.DrawnKeepsCards | server/src/games/briscola.rs:267-288 | a draw moves a card and never creates or loses one |
| BriscolaEngine.ResolveRound | server/src/games/briscola.rs:145-187 | the trick goes to its winner's pile, the result is recorded, the winner leads, and both players draw, winner first |
| BriscolaEngine.DrawAfterTrick | server/src/games/briscola.rs:171-181 | the replacement draws after a trick, the winner first |
| BriscolaEngine.Update | server/src/games/briscola.rs:52-114 | rejections in source order (finished game, invalid player, wrong turn, card index past the hand); accepted exactly otherwise; the first card passes the turn, the second resolves the trick; no card is lost and the table matches the round state |
| BriscolaEngine.PlayedKeepsCards | server/src/games/briscola.rs:52-114 | playing a card moves it from the hand to the table |
| BriscolaEngine.CollectedKeepsCards | server/src/games/briscola.rs:145-187 | collecting the trick moves the table cards to a pile |
| BriscolaEngine.ResolvedKeepsCards | server/src/games/briscola.rs:145-187 | resolving a trick keeps every card of the game and clears the table |
| BriscolaEngine.ResolvedPiles | server/src/games/briscola.rs:145-187 | both table cards go, in play order, to the trick winner's pile, the result is remembered, and the winner leads the next round |
| BriscolaEngine.DrawOrder | server/src/games/briscola.rs:171-181 | the winner takes the deck's last card and the other player the one before; the trump card is handed out only once the deck is empty; the counter equals the deck size |
| ChessRules.Opponent | common/src/games/chess.rs:20-25 | the opponent is the other colour |
| ChessRules.OpponentInvolution | common/src/games/chess.rs:20-25 | the opponent's opponent is the player |
| ChessRules.ToSymbol | common/src/games/chess.rs:27-32 | colours map to the seat symbols 1 and 2 |
| ChessRules.FromSymbol | common/src/games/chess.rs:34-40 | only 1 and 2 decode, each to the colour printing as it |
| ChessRules.SymbolRoundTrip | common/src/games/chess.rs:27-40 | decoding a colour's symbol gives the colour back |
| ChessRules.NewPosition | common/src/games/chess.rs:50-56 | a square exists exactly for row and column below 8 |
| ChessRules.AsciiLower | common/src/games/chess.rs:58-77 | only 'A'..'Z' are lower-cased |
| ChessRules.FromAlgebraic | common/src/games/chess.rs:58-77 | exactly two characters, a file a..h (either case) and a rank 1..8, name a square, whose column and row those characters give |
| ChessRules.ToAlgebraic | common/src/games/chess.rs:79-83 | a square's name is a lower-case file letter and a rank digit |
| ChessRules.AlgebraicRoundTrip | common/src/games/chess.rs:58-83 | parsing a square's name gives the square back |
| ChessRules.AlgebraicCanonical | common/src/games/chess.rs:58-83 | naming a parsed square gives the name back, lower-cased |
| ChessRules.AlgebraicExample | common/src/games/chess.rs:58-83 | "e4" is row 3, column 4 |
| ChessRules.SetSquare | common/src/games/chess.rs:114-154 | only the chosen square changes |
| ChessRules.Apply | server/src/games/chess.rs:64-72 | the source square is emptied and the target gets the source's piece; no other square changes |
| ChessRules.EmptyBoard | common/src/games/chess.rs:114-154 | an empty board has no piece |
| ChessRules.New | common/src/games/chess.rs:114-154 | a new game has the initial position, White to move, no check, no verdict and no history |
| ChessRules.InitialBoardMirrored | common/src/games/chess.rs:114-154 | the initial position is mirrored across the middle, with colours exchanged |
| ChessRules.InitialKings | common/src/games/chess.rs:114-154 | the kings start on e1 and e8 and a white rook on a1 |
| ChessRules.GetWinner | common/src/games/chess.rs:172-178 | a winner exists exactly after checkmate, and it is the mating colour's symbol |
| ChessRules.RedactForPlayer | common/src/games/chess.rs:156-158 | every viewer sees the whole state |
| ChessRules.PathGeometry | server/src/games/chess.rs:194-214 | every step of the scan between two aligned squares stays on the board |
| ChessRules.IsPathClear | server/src/games/chess.rs:194-214 | the stepping loop reports a clear path exactly when no piece stands strictly between the squares |
| ChessRules.PathClearSymmetric | common/src/games/chess.rs:285-305 | a path is clear in one direction exactly when it is clear in the other |
| ChessRules.IsValidPieceMove | server/src/games/chess.rs:104-150 | returns the movement rule of the piece, ignoring check |
| ChessRules.PawnRules | server/src/games/chess.rs:152-192 | a pawn moves one square forward onto an empty square, two from its start row over two empty squares, or one diagonally forward onto a piece, and nothing else |
| ChessRules.PawnAdvances | common/src/games/chess.rs:248-283 | a pawn never moves sideways or backwards |
| ChessRules.PieceRules | server/src/games/chess.rs:104-150 | knight (an L shape), king (one square), rook (a clear line), bishop (a clear diagonal) and queen (either): each rule stated both ways |
| ChessRules.PieceMoveReversible | common/src/games/chess.rs:205-246 | every piece but the pawn can retrace its move on the same board |
| ChessRules.KingFrom | server/src/games/chess.rs:251-263 | the first square from a row-major index on holding the king, or none when no later square does |
| ChessRules.FindKing | server/src/games/chess.rs:251-263 | the row-by-row loop returns the first square holding the player's king |
| ChessRules.IsSquareAttacked | server/src/games/chess.rs:234-249 | the loop over all squares reports an attack exactly when some attacker piece may move onto the square |
| ChessRules.IsInCheck | server/src/games/chess.rs:224-232 | check holds exactly when the king is found and attacked |
| ChessRules.NoKingNoCheck | common/src/games/chess.rs:320-328 | a player without a king is never in check |
| ChessRules.WouldMoveCauseCheck | server/src/games/chess.rs:216-222 | the move is tried on a copy and reports whether it leaves the mover's king attacked |
| ChessRules.ValidMove | common/src/games/chess.rs:180-203 | errors in source order (empty source, opponent's piece, capture of own piece); true exactly for a move that follows the piece rule and leaves the king safe |
| ChessRules.IsValidMove | server/src/games/chess.rs:74-102 | the server's check gives the same verdict as the shared rules |
| ChessRules.ValidMoveKeepsKingSafe | common/src/games/chess.rs:180-203 | an accepted move never leaves the mover in check and lands the moved piece on the target |
| ChessEngine.HasLegalMoves | server/src/games/chess.rs:281-301 | the four nested loops find a legal move exactly when the player has one; errors count as illegal |
| ChessEngine.IsCheckmate | server/src/games/chess.rs:265-271 | checkmate is check with no legal move |
| ChessEngine.IsStalemate | server/src/games/chess.rs:273-279 | stalemate is no check and no legal move |
| ChessEngine.ApplyMove | server/src/games/chess.rs:64-72 | fails only on an empty source square; otherwise only the board changes, by the move |
| ChessEngine.Update | server/src/games/chess.rs:19-62 | rejections in source order (invalid player, finished game, wrong turn, rule errors, an invalid move); accepted exactly otherwise; then the move is applied and recorded, the turn passes, the new check state is set, and checkmate or stalemate is declared |
| ChessEngine.CheckmateExactly | server/src/games/chess.rs:19-62 | checkmate is declared exactly when the side to move is in check without a legal move, stalemate exactly when it is not in check without one, and nothing while a legal move exists |
| GameRouter.PlayerSlot | server/src/game_router.rs:94-140 | slot 1 for player 1, slot 2 for player 2, none for anyone else |
| GameRouter.OutcomeOf | server/src/game_router.rs:124-135 | no outcome while the game runs; a finished game goes to winner 1 or 2, and is otherwise a draw |
| GameRouter.HandleTicTacToeMove | server/src/game_router.rs:94-140 | an undecodable state or move, or an outsider, is rejected; otherwise the engine's verdict is passed on, with the match outcome derived from the new state |
| GameRouter.HandleRpsMove | server/src/game_router.rs:142-193 | the same order of checks for an RPS move, passing on the RPS engine's verdict |
| GameRouter.HandleGameMove | server/src/game_router.rs:14-23 | moves go to the engine of the match's game type |
| GameRouter.TicTacToeOutcomeFromBoard | server/src/game_router.rs:94-140 | a routed tic-tac-toe outcome is the new board's winner, or a draw on a full board |
| GameRouter.RpsOutcomeNeverDraw | server/src/game_router.rs:142-193 | a finished RPS game always has a winner, so its routed outcome is never a draw |
| GameRouter.RedactMatchForPlayer | server/src/game_router.rs:26-70 | only the game state may change; outsiders and tic-tac-toe matches see everything; RPS opponents' pending moves are hidden |
| GameRouter.RedactMatchIdempotent | server/src/game_router.rs:26-70 | redacting a match twice for one viewer equals redacting once |
| GameRouter.RedactMatchKeepsScore | server/src/game_router.rs:26-70 | redaction never changes an RPS score |
| GameRouter.InitializeGameState | server/src/game_router.rs:74-92 | a new tic-tac-toe board with the chosen first player, or a new RPS game, each satisfying its engine's invariant |
| Repository.AsI32 | server/src/repository.rs:60 | the `as i32` cast keeps the low 32 bits read as signed, and is the identity on 32-bit values |
| Repository.StoredOutcome | server/src/repository.rs:51 | a missing or unknown outcome text reads as none; a known one is the text of the outcome read |
| Repository.ToMatch | server/src/repository.rs:48-64 | conversion fails exactly on an unparseable state; otherwise the columns are copied, the flag read as non-zero and the turn cast to 32 bits |
| Repository.StoreLoadRoundTrip | server/src/repository.rs:48-64 | storing a match and reading it back gives the match, for any 32-bit current player |
| Repository.UnknownOutcomeDropped | server/src/repository.rs:51 | an unknown outcome text gives a match with no outcome, not a failure |
| Repository.CurrentPlayerWraps | server/src/repository.rs:60 | a current player of 2^32 + 1 reads as 1, and 2^31 as -2^31 |
| Database.RecordOf | server/src/database.rs:18-27 | a row read back: a NULL player2 reads as 0; other columns are copied |
| Database.NewRow | server/src/database.rs:109-128 | new matches are in progress, without outcome, of game type "tris" |
| Database.WaitingRow | server/src/database.rs:130-140 | a waiting row is found by any other player, and by its creator as their own waiting match |
| Database.ScoreDelta | server/src/database.rs:235-272 | only the three known outcomes change scores, and each hands out two points in total |
| Database.Credit | server/src/database.rs:235-272 | the score update touches one existing player and adds no player |
| Database.ScoresAfterGain | server/src/database.rs:235-272 | one match changes each player's score by exactly their gain |
| Database.GainTable | server/src/database.rs:235-272 | a win is +3 and a loss -1, a draw +1 each, and no or an unknown outcome 0 |
| Database.ScoresAccumulate | server/src/database.rs:356-385 | after several matches a score has grown by the sum of the gains |
| Database.MatchTable.constructor | server/src/database.rs:38-56 | an empty table beside the given player scores |
| Database.MatchTable.Insert | server/src/database.rs:109-140 | a row is added under a fresh id |
| Database.MatchTable.CreateMatch | server/src/database.rs:109-128 | a full in-progress match is added under a fresh id; scores are untouched |
| Database.MatchTable.CreateWaitingMatch | server/src/database.rs:130-140 | a waiting match for player1 is added under a fresh id |
| Database.MatchTable.FindWaitingMatch | server/src/database.rs:142-151 | a returned row is another player's waiting match; none is returned exactly when no such row exists |
| Database.MatchTable.JoinWaitingMatch | server/src/database.rs:153-171 | only player2, the turn and the state of that row change |
| Database.MatchTable.GetActiveMatchForPlayer | server/src/database.rs:173-183 | a returned row is in progress with the player in a seat; none exactly when there is no such row |
| Database.MatchTable.UpdateMatch | server/src/database.rs:185-205 | exactly the turn, state, flag (as 1 or 0) and outcome of that row change |
| Database.MatchTable.GetWaitingMatchForPlayer | server/src/database.rs:207-216 | a returned row is the player's own waiting match; none exactly when there is none |
| Database.MatchTable.DeleteMatch | server/src/database.rs:218-224 | exactly that row is removed |
| Database.MatchTable.GetMatchById | server/src/database.rs:226-233 | a record exactly for an existing id, read back from its row |
| Database.MatchTable.UpdatePlayerScoresFromMatch | server/src/database.rs:235-272 | the scores become the scores after the match; rows are untouched |
| GameLogic.ResumeReplies | server/src/game_logic.rs:12-86 | no timer, a vanished match and an unparseable state each give one error to the player; otherwise a resume message to the player and a reconnect notice to the opponent |
| GameLogic.HandleResumeMatch | server/src/game_logic.rs:12-86 | the handler's replies are ResumeReplies over the table |
| GameLogic.HandleJoinMatchmaking | server/src/game_logic.rs:89-159 | a player already in a match gets an error; otherwise they join a waiting match of someone else with a fresh board and both are told, or a waiting match is created for them |
| GameLogic.PlayerNumber | server/src/game_logic.rs:203-215 | seat 1 for player1, else seat 2 for player2, else none |
| GameLogic.BoardOutcome | server/src/game_logic.rs:249-260 | a won line decides the match for its owner; a full board without one is a draw; otherwise there is no outcome yet |
| GameLogic.MoveResult | server/src/game_logic.rs:162-265 | rejections in source order (finished, not a player, wrong turn, off-grid, taken cell); on success the mark is placed, the turn passes, and the outcome and flag follow from the board |
| GameLogic.PlacedMarkWins | server/src/game_logic.rs:240-260 | on a board without a winner, the only possible new winner is the mark just placed |
| GameLogic.MoveWinsOnlyForMover | server/src/game_logic.rs:240-260 | an accepted move decides the match only for the mover, or as a draw |
| GameLogic.Broadcast | server/src/game_logic.rs:291-322 | the new state goes to both players, plus a match-ended message to both when it is over |
| GameLogic.HandleMakeMove | server/src/game_logic.rs:162-327 | no active match gives an error; otherwise the move's verdict is stored, scores updated on a finish, and the broadcast or the error returned |
| GameLogic.MoveOutcomeStep | server/src/game_logic.rs:240-265 | the handler's step-by-step board update agrees with MoveResult |
| GameLogic.HandleDisconnect | server/src/game_logic.rs:330-374 | the player's waiting match is deleted; otherwise an active match starts a reconnect timer and notifies the opponent, and nothing happens without one |
| GameLogic.HandleDisconnectTimeout | server/src/game_logic.rs:377-427 | a vanished match changes nothing; otherwise an in-progress match ends as a draw, scores are updated and the opponent is told |
| GameLogic.TimeoutScoresADraw | server/src/game_logic.rs:377-427 | a timed-out match is worth one point to each seat |
| WebSocket.Delivered | server/src/websocket.rs:85-89 | only messages to connected players are delivered, in order |
| WebSocket.ToEach | server/src/websocket.rs:78-82 | one copy of the message per listed player, in order |
| WebSocket.DeliveredAllConnected | server/src/websocket.rs:85-89 | when everybody is connected every message is delivered |
| WebSocket.DeliveredNoneConnected | server/src/websocket.rs:85-89 | when nobody is connected nothing is delivered |
| WebSocket.DeliveredAppend | server/src/websocket.rs:85-89 | delivering two batches equals delivering their join |
| WebSocket.ConnectionRegistry.constructor | server/src/websocket.rs:43-48 | no connections, timers or deliveries |
| WebSocket.ConnectionRegistry.Register | server/src/websocket.rs:51-55 | inserts or replaces the player's connection and nothing else |
| WebSocket.ConnectionRegistry.Unregister | server/src/websocket.rs:58-65 | drops the connection and aborts its send task |
| WebSocket.ConnectionRegistry.SendToPlayer | server/src/websocket.rs:68-75 | fails exactly when the player is not connected; otherwise the message is delivered |
| WebSocket.ConnectionRegistry.SendMessages | server/src/websocket.rs:85-89 | each message in turn, skipping unconnected players |
| WebSocket.ConnectionRegistry.SendToPlayers | server/src/websocket.rs:78-82 | the same message to each listed connected player |
| WebSocket.ConnectionRegistry.CancelDisconnectTimer | server/src/websocket.rs:117-123 | removes the player's timer only |
| WebSocket.ConnectionRegistry.StartDisconnectTimer | server/src/websocket.rs:92-114 | replaces any timer of the player with one for the match |
| WebSocket.ConnectionRegistry.GetResumableMatch | server/src/websocket.rs:126-129 | the match of the player's running timer, if any |
| WebSocket.Resumable | server/src/websocket.rs:126-129 | a match is resumable exactly while a timer runs |
| WebSocket.TimerResumable | server/src/websocket.rs:92-129 | starting a timer makes its match resumable; cancelling ends that for the player only |
| WebSocket.HandleResumeMatchRequest | server/src/websocket.rs:279-289 | the timer is cancelled and the resume replies are sent to connected players |
| WebSocket.HandleDisconnectEvent | server/src/websocket.rs:309-321 | a timer starts exactly when the game logic asks, with one disconnect notice |
| WebSocket.HandleDisconnectTimeoutEvent | server/src/websocket.rs:324-339 | the timer is removed and at most one message is sent |
| WebSocket.AuthenticateToken | server/src/websocket.rs:255-276 | errors in source order (not exactly two parts around ':', unparseable id, unknown player, bad signature); success exactly otherwise, with the parsed id |
| WebSocket.TokenAccepted | server/src/websocket.rs:255-276 | a known player's well-formed token with a valid signature authenticates as that player |
| WebSocket.TokenNeedsOneColon | server/src/websocket.rs:255-276 | a token without exactly one ':' is malformed |
| SessionCache.SessionDuration | server/src/session_cache.rs:37-41 | the configured u64 lifetime, or 24 hours when missing or unparseable |
| SessionCache.Verify | server/src/session_cache.rs:56-65 | an unknown token is invalid, an expired one expired; otherwise the token's player |
| SessionCache.WithoutPlayer | server/src/session_cache.rs:94-97 | exactly the sessions of other players, unchanged |
| SessionCache.Unexpired | server/src/session_cache.rs:99-104 | exactly the sessions that expire after now, unchanged |
| SessionCache.SessionCache.constructor | server/src/session_cache.rs:27-31 | an empty cache |
| SessionCache.SessionCache.CreateSession | server/src/session_cache.rs:33-54 | the token is filed for the player, valid from now for the duration |
| SessionCache.SessionCache.VerifySession | server/src/session_cache.rs:56-65 | returns Verify's verdict |
| SessionCache.SessionCache.RefreshSession | server/src/session_cache.rs:67-87 | fails exactly as Verify fails, changing nothing; otherwise only that session's expiry moves to now plus the duration |
| SessionCache.SessionCache.RevokeSession | server/src/session_cache.rs:89-92 | exactly that token is removed |
| SessionCache.SessionCache.RevokeAllForPlayer | server/src/session_cache.rs:94-97 | exactly the player's sessions are removed |
| SessionCache.SessionCache.CleanupExpired | server/src/session_cache.rs:99-104 | exactly the unexpired sessions remain |
| SessionCache.SessionCache.GetActiveSessionCount | server/src/session_cache.rs:106-109 | the number of sessions held |
| SessionCache.SessionCache.GetPlayerSessions | server/src/session_cache.rs:111-117 | every session of the player, each once, and no other |
| SessionCache.CreatedThenVerified | server/src/session_cache.rs:33-65 | a new session verifies at every instant up to its expiry and at none after |
| SessionCache.ExpiryBoundary | server/src/session_cache.rs:56-104 | at the expiry instant a session still verifies, yet cleanup at that instant removes it |
| SessionCache.RevokeAllKeepsOthers | server/src/session_cache.rs:94-97 | revoking one player's sessions leaves others verifying as before |
| SessionCache.RevokeAllRemovesPlayer | server/src/session_cache.rs:94-97 | after revoking, none of the player's sessions verifies |
| SessionCache.RefreshExtends | server/src/session_cache.rs:67-87 | a refresh keeps the session valid for another full duration from the refresh |
| NonceCache.Elapsed | server/src/nonce_cache.rs:53 | an age exists exactly when the clock has not gone backwards, and it is the time passed |
| NonceCache.Consume | server/src/nonce_cache.rs:38-62 | errors in source order (unknown, used, wrong player, expired); success exactly otherwise |
| NonceCache.NonceCache.constructor | server/src/nonce_cache.rs:21-25 | an empty cache |
| NonceCache.NonceCache.CreateNonce | server/src/nonce_cache.rs:27-36 | files an unused nonce for the player at now |
| NonceCache.NonceCache.VerifyAndConsume | server/src/nonce_cache.rs:38-62 | returns Consume's verdict; on success only that nonce becomes used, on failure nothing changes |
| NonceCache.NonceCache.CleanupExpired | server/src/nonce_cache.rs:64-69 | exactly the nonces younger than 300 s remain |
| NonceCache.CreatedThenConsumable | server/src/nonce_cache.rs:27-62 | a new nonce is consumable by its player for 60 s |
| NonceCache.SingleUse | server/src/nonce_cache.rs:38-62 | a consumed nonce is refused as used at any later instant |
| NonceCache.UnreadableClock | server/src/nonce_cache.rs:53-68 | a clock earlier than creation makes a nonce unusable yet kept by the sweep |
| NonceCache.ExpiredButKept | server/src/nonce_cache.rs:53-68 | between 60 s and 300 s a nonce is unusable yet kept |
| Stats.TallyOutcomes | server/src/stats.rs:57-84 | the loop's counts equal the fold over the rows; the score is 3 per win plus draws minus losses; the counts cover every decided row |
| Stats.ScoreAgreesWithTable | server/src/stats.rs:57-84 | a known outcome moves the stats score as the table's scoring does; an unknown one costs a point in the stats but nothing in the table |
| Stats.BothSeatsAgree | server/src/stats.rs:57-84 | a win for one seat is a loss for the other; a draw counts for both; an unknown text is a loss for both |
| Stats.ClampLimit | server/src/stats.rs:111 | the page size is 10 by default and clamped to 1..100 |
| Stats.ClampOffset | server/src/stats.rs:112 | the offset is 0 by default and never negative |
| Stats.Ranked | server/src/stats.rs:144-153 | entries are ranked offset + 1 on, in row order |
| Stats.PagesContinue | server/src/stats.rs:144-153 | ranking two consecutive pages equals ranking their join |
| Csrf.CsrfDecision | server/src/csrf_protection.rs:10-33 | a request passes exactly when its method is safe, its path is "/ws", or it carries the client header |
| Csrf.OnlyRequiredHeaderMatters | server/src/csrf_protection.rs:10-33 | headers other than the client header never change the decision |
| Csrf.UnsafeWithoutHeaderRefused | server/src/csrf_protection.rs:10-33 | a state-changing request outside "/ws" without the header is forbidden |
| ServerMain.PortAfterColon | server/src/main.rs:57-72 | the text after the first ':' when there is one, else the fallback port |
| ServerMain.ParseServerAddrs | server/src/main.rs:49-75 | after trimming, an https URL listens on port 80 and on its own port (443 by default); any other URL listens on its own port (80 by default) and on 443 |
| ServerMain.AddrsForUrl | server/src/main.rs:53-75 | both listen addresses bind all interfaces |
| ServerMain.DefaultAddrs | server/src/main.rs:49-75 | without a configured URL the server listens on 0.0.0.0:3000 and 0.0.0.0:443 |
| ServerMain.HttpUrlPort | server/src/main.rs:65-74 | an http URL host:port listens on that port and on 443 |
| ServerMain.HttpsUrlWithoutPort | server/src/main.rs:56-64 | an https URL without a port listens on 80 and 443 |
| ServerMain.RedirectToHttps | server/src/main.rs:41-47 | the redirect target is https://, then the host cut at its first ':' (the whole host when it has none), then the original path |
| ServerMain.RedirectDropsPort | server/src/main.rs:41-47 | a host given with a port is redirected to the same host name without the port |
| Strings.Split | server/src/websocket.rs:257 | the pieces contain no separator and, joined back with the separator, give the original text |
| Strings.SplitHead | server/src/main.rs:43 | the first piece of a split is the text before the first separator, or the whole text when there is none |
| Strings.Trim | server/src/main.rs:54 | leading and trailing whitespace removed |
| Strings.TrimStartMatches | server/src/main.rs:57 | the result is a suffix of the text that does not start with the prefix, and what was removed is whole copies of the prefix |
| Strings.Words | client/src/games/chess.rs:286 | each word is non-empty and free of whitespace |
| Strings.WordsAreMaximalRuns | client/src/games/chess.rs:286 | the text is the words in order with whitespace-only gaps between them, non-empty between neighbouring words, so the words are exactly its maximal non-whitespace runs |
| Strings.TwoWords | client/src/games/chess.rs:286 | two words joined by a space split back into them |
| Decimal.ParseI64 | server/src/websocket.rs:262-264 | an accepted number lies in the i64 range; the empty string is rejected |
| Decimal.ParseU64 | server/src/session_cache.rs:38-41 | an accepted number lies in the u64 range; the empty string is rejected |
| Decimal.ParseRoundTrip | server/src/websocket.rs:262-264 | printing an i64 and parsing it back gives it again |
| Decimal.ParseU64RoundTrip | server/src/session_cache.rs:38-41 | printing a u64 and parsing it back gives it again |
| Decimal.ParseU64RejectsSign | server/src/session_cache.rs:38-41 | a leading '-' is never accepted by the unsigned parser |
| ClientBriscola.HandlePlayerDisconnected | client/src/games/briscola.rs:252-277 | one's own disconnect changes nothing; an opponent's sets the flag, and switches to the reconnect wait only while the opponent is to play |
| ClientBriscola.DisconnectSettles | client/src/games/briscola.rs:252-277 | a repeated disconnect notice changes nothing more |
| ClientBriscola.DetermineMatchEndState | client/src/games/briscola.rs:298-323 | "you won" exactly when the winning seat is one's own; a draw with no outcome or a drawn one; "you lost" otherwise |
| ClientBriscola.SeatsSeeOppositeResults | client/src/games/briscola.rs:298-323 | of a decided match one seat sees a win and the other a loss |
| ClientBriscola.HandleMatchEnded | client/src/games/briscola.rs:279-296 | only a game in play ends: a disconnection gives the disconnected screen, a normal end the result screen |
| ClientBriscola.MatchEndIsFinal | client/src/games/briscola.rs:279-296 | ending a game in play always leads to an end screen for the same match |
| ClientBriscola.SeatOf | client/src/games/briscola.rs:332-339 | a known seat is kept, else seat 1 for player1 and 2 otherwise |
| ClientBriscola.HandleMatchFoundOrUpdate | client/src/games/briscola.rs:325-375 | a finished match shows its result; an undecodable state is an error; otherwise play goes on with one's turn read from the state |
| ClientBriscola.SeatAssignedOnce | client/src/games/briscola.rs:332-339 | the seat fixed by the first update stays for every later one |
| ClientBriscola.TurnGoesToOneSeat | client/src/games/briscola.rs:346-375 | in a running game exactly one seat is told it is their turn |
| ClientBriscola.ParseGameState | client/src/games/briscola.rs:247-250 | the match's Briscola state, or the empty state when it does not decode |
| ClientBriscola.HandleUserInput | client/src/games/briscola.rs:392-457 | a non-number gives a notice; an index within the hand is sent while one's turn is on, and the turn flips; an out-of-range index gives the range notice; an empty hand underflows |
| ClientBriscola.NoSecondMoveQueued | client/src/games/briscola.rs:392-457 | after a card is sent it is no longer one's turn |
| ClientBriscola.UndecodableStateOverflows | client/src/games/briscola.rs:392-457 | an undecodable state gives an empty hand, so any number input underflows the range computation |
| ClientBriscola.RankText | client/src/games/briscola.rs:207-227 | every rank shows as one character |
| ClientBriscola.FormatCard | client/src/games/briscola.rs:207-227 | a card shows as its rank, a space and its suit's name |
| ClientBriscola.FormatCardInjective | client/src/games/briscola.rs:207-227 | different cards show differently |
| ClientBriscola.MiddleRows | client/src/games/briscola.rs:640-724 | three rows of nine characters |
| ClientBriscola.CardView | client/src/games/briscola.rs:640-724 | six rows of nine characters: the borders, the rank in the corner and the suit pattern |
| ClientBriscola.MiddleRowsShowSuit | client/src/games/briscola.rs:640-724 | the pattern always shows the suit's symbol |
| ClientChess.HandlePlayerDisconnected | client/src/games/chess.rs:167-187 | one's own disconnect changes nothing; an opponent's sets the flag, and switches to the reconnect wait only on the opponent's turn when no input is pending |
| ClientChess.DisconnectKeepsMyTurn | client/src/games/chess.rs:167-187 | on one's own turn the screen never changes |
| ClientChess.DetermineMatchEndState | client/src/games/chess.rs:211-235 | "you won" exactly when the winning seat is one's colour; a draw with no outcome or a drawn one; "you lost" otherwise |
| ClientChess.ColoursSeeOppositeResults | client/src/games/chess.rs:211-235 | of a decided match one colour sees a win and the other a loss |
| ClientChess.HandleMatchEnded | client/src/games/chess.rs:189-209 | only a game in play ends, to the disconnected or the result screen |
| ClientChess.MatchEndIsFinal | client/src/games/chess.rs:189-209 | ending a game in play always leads to an end screen for the same match |
| ClientChess.ColourOf | client/src/games/chess.rs:244-250 | a known colour is kept, else White for player1 and Black otherwise |
| ClientChess.HandleMatchFoundOrUpdate | client/src/games/chess.rs:237-277 | a finished match shows its result; an undecodable state is an error; otherwise it is one's turn exactly when the state says so, or the reconnect wait while the opponent is away |
| ClientChess.ColourAssignedOnce | client/src/games/chess.rs:244-250 | the colour fixed by the first update stays for every later one |
| ClientChess.TurnGoesToOneColour | client/src/games/chess.rs:256-277 | in a running game exactly one colour is told it is their turn |
| ClientChess.FlagAfterUpdate | client/src/games/chess.rs:413-415 | the flag stays set only while the reconnect wait is shown |
| ClientChess.FlagTracksReconnectWait | client/src/games/chess.rs:237-277 | with the flag set an update shows the reconnect wait exactly when it is not one's turn |
| ClientChess.ParseMoveInput | client/src/games/chess.rs:286-305 | a move exactly for two words that both name squares |
| ClientChess.HandleUserInput | client/src/games/chess.rs:279-344 | a wrong word count or a bad square gives a notice; a move is sent exactly when it parses, it is one's turn and the shared rules accept it (or the state does not decode) |
| ClientChess.SentMoveKeepsKingSafe | client/src/games/chess.rs:279-344 | a move the client sends on a decodable state never leaves the sender's king attacked |
| ClientChess.KingsPawnInput | client/src/games/chess.rs:286-305 | "e2 e4" is row 1, column 4 to row 3, column 4 |
| Leaderboard.PageSize | client/src/leaderboard.rs:16-22 | the terminal height minus 10, at least 5; 10 when the size is unknown |
| Leaderboard.CurrentPage | client/src/leaderboard.rs:54 | the page number shown, from 1 |
| Leaderboard.TotalPages | client/src/leaderboard.rs:55 | enough pages to hold every entry, at least one |
| Leaderboard.Step | client/src/leaderboard.rs:90-101 | the offset moves only under an enabled "n" or "p", by one page, never below 0 |
| Leaderboard.Controls | client/src/leaderboard.rs:74-83 | "p" is offered exactly past the first page, "n" exactly when more entries follow, and "q" always |
| Leaderboard.ControlsMatchTransitions | client/src/leaderboard.rs:74-101 | the controls shown are exactly the moves that change the offset |
| Leaderboard.StepKeepsAligned | client/src/leaderboard.rs:92-101 | offsets stay whole multiples of the page size |
| Leaderboard.NextThenPrevious | client/src/leaderboard.rs:92-101 | "n" then "p" comes back to the same page |
| Leaderboard.PreviousThenNext | client/src/leaderboard.rs:92-101 | "p" then "n" comes back to the same page |
| Leaderboard.RequestsAligned | client/src/leaderboard.rs:24-102 | every page fetched starts at a multiple of the page size |
| Leaderboard.RequestsInRange | client/src/leaderboard.rs:24-102 | every page fetched after the first starts before the end of the list |
| Leaderboard.Browse | client/src/leaderboard.rs:24-102 | the loop fetches exactly the pages the inputs lead to, stopping at "q" |
| Leaderboard.PageShownInRange | client/src/leaderboard.rs:54-55 | the page number shown never exceeds the page count |

## Left out

- Rendering, terminal I/O and colours are not modelled: `render`, `display_hand_ascii`, `drain_stdin_buffer`, screen clearing and the printed text of notices. The card art `CardView` is modelled as text.
- Concurrency is not modelled: the tokio tasks, the `RwLock`s and the WebSocket read loop (`handle_socket`). Each handler is modelled as one atomic step over the table and the registry.
- Call sites in the WebSocket loop for join and move are not modelled; their handlers are.
- `sqlx` failures are not modelled; every query succeeds. A NULL player2 reads as 0, and a NULL game state reads as unparseable, which is the only reading under which the join test of the game logic holds.
- Database.MatchTable.FindWaitingMatch does not filter by game type; this follows the code.
- Overflow of i64 scores and ids in the database is not modelled.
- The `SystemTime` clock is a parameter in whole seconds. Overflow of `now + duration` is not modelled.
- Randomness is a parameter: session and nonce strings are given by the caller, and the Briscola shuffle is a permutation passed to `BriscolaEngine.New`.
- Signature checking is an oracle parameter of `WebSocket.AuthenticateToken`; the player lookup is a set of known ids.
- HTTP headers are taken already lower-cased, as the header map compares them.
- Client send errors from the WebSocket client are not modelled.
- Client input is taken as the read loops prepare it: the Briscola loop trims and lower-cases the line (client/src/games/briscola.rs:565), the chess loop only trims it (client/src/games/chess.rs:435); ChessRules.FromAlgebraic lower-cases the file letter itself, so nothing depends on the missing lower-casing. Unicode `to_lowercase` is not modelled.
- Leaderboard.Browse stops when the inputs run out; at end of input the source loop reads empty lines for ever.
- ClientBriscola.HandleMatchFoundOrUpdate and ClientChess.HandleMatchFoundOrUpdate return `Ok(Some(..))` in the source; the model returns a `Result` of the new screen.
- ClientBriscola.HandleUserInput models the `len - 1` underflow on an empty hand as a `None` result. The source panics in a debug build and wraps around in a release build.
- BriscolaEngine.Update requires at least one card on the table when the round awaits its second card: the source accepts such a stored state and panics when it reads the second table entry (server/src/games/briscola.rs:148); the model does not represent that panic.
- RpsEngine.Update requires a non-empty round list: the source computes `len() - 1` and panics on an empty list.
- ChessEngine.Update and ChessRules.ValidMove require both squares on the board: the source indexes the board array with the move's coordinates and panics otherwise.
- GameTypes has the two variants of the game-type enum, tic-tac-toe and RPS. The router dispatches only those two. The Briscola and chess engines are modelled but no stored game type reaches them. This follows the code.
- The `Api` messages rename the `reason` fields of `AuthFailed` and `MatchEnded` to `failure` and `endReason`. Dafny requires equal field names in one datatype to have one type.
- The match layers of the source do not agree with each other. The table layers (`Repository`, `Database`, `GameLogic`) use the cells-only tic-tac-toe match of `common/src/tris.rs`, as their code does; the router and the clients use the multi-game match record.
- The game-state JSON is a tagged value: the model does not parse JSON text. An undecodable blob is a separate constructor with the decoder's message.
- Stats.ScoreAgreesWithTable makes the asymmetry of an unknown outcome explicit: the stats query counts it as a loss (-1), the table scoring as nothing (0). Both follow the code.
