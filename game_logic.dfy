/**
 * The server's match orchestration on top of the match table: resuming a
 * match, matchmaking, applying a tic-tac-toe move, and handling a
 * disconnect and its timeout. Each handler returns the messages to send,
 * as (player id, message) pairs; the coin flip for the first player is a
 * parameter.
 */
module GameLogic {
  import opened Wrappers
  import opened Matches
  import opened TicTacToeBoard
  import opened Repository
  import opened Database
  import opened Api
  import Tris

  datatype OutgoingMessage = OutgoingMessage(playerId: int, message: ServerMessage<TrisMatch>)

  /** A single error message to one player. */
  function Reply(playerId: int, text: string): seq<OutgoingMessage>
  {
    [OutgoingMessage(playerId, Error(text))]
  }

  /** The other seat, taking player1 for anyone who is not player1. */
  function OpponentOf(m: TrisMatch, playerId: int): int
  {
    if m.player1Id == playerId then m.player2Id else m.player1Id
  }

  predicate HasActive(rows: map<int, MatchRow>, playerId: int)
  {
    exists id :: id in rows && ActiveFor(rows[id], playerId)
  }

  predicate HasWaitingFor(rows: map<int, MatchRow>, playerId: int)
  {
    exists id :: id in rows && WaitingFor(rows[id], playerId)
  }

  predicate HasOwnWaiting(rows: map<int, MatchRow>, playerId: int)
  {
    exists id :: id in rows && OwnWaiting(rows[id], playerId)
  }

  /** The match of a row, if its state parses. */
  function Load(rows: map<int, MatchRow>, id: int): Option<TrisMatch>
    requires id in rows
  {
    ToMatch(RecordOf(id, rows[id]))
  }

  // ----- Resume

  /**
   * The replies to a resume request: an error to the requester when there
   * is no resumable match, it is gone, its state does not parse or it is
   * over; otherwise the match to the requester and to the opponent.
   */
  function ResumeReplies(rows: map<int, MatchRow>, playerId: int, resumableMatchId: Option<int>)
    : (out: seq<OutgoingMessage>)
    ensures resumableMatchId.None? ==> out == Reply(playerId, "No resumable match found")
    ensures resumableMatchId.Some? && resumableMatchId.value !in rows ==>
      out == Reply(playerId, "Match not found")
    ensures resumableMatchId.Some? && resumableMatchId.value in rows ==>
      var m := Load(rows, resumableMatchId.value);
      && (m.None? ==> out == Reply(playerId, "Failed to load match data"))
      && (m.Some? && !m.value.inProgress ==> out == Reply(playerId, "Match is no longer active"))
      && (m.Some? && m.value.inProgress ==>
            out == [OutgoingMessage(playerId, GameStateUpdate(m.value)),
                    OutgoingMessage(OpponentOf(m.value, playerId), GameStateUpdate(m.value))])
    ensures |out| == 1 ==> out[0].playerId == playerId && out[0].message.Error?
  {
    if resumableMatchId.None? then Reply(playerId, "No resumable match found")
    else if resumableMatchId.value !in rows then Reply(playerId, "Match not found")
    else match Load(rows, resumableMatchId.value)
      case None => Reply(playerId, "Failed to load match data")
      case Some(m) =>
        if !m.inProgress then Reply(playerId, "Match is no longer active")
        else [OutgoingMessage(playerId, GameStateUpdate(m)), OutgoingMessage(OpponentOf(m, playerId), GameStateUpdate(m))]
  }

  /** The resume handler, querying the table as the server does. */
  method HandleResumeMatch(db: MatchTable, playerId: int, resumableMatchId: Option<int>)
    returns (out: seq<OutgoingMessage>)
    ensures out == ResumeReplies(db.rows, playerId, resumableMatchId)
  {
    if resumableMatchId.None? {
      return Reply(playerId, "No resumable match found");
    }
    var matchId := resumableMatchId.value;
    var rec := db.GetMatchById(matchId);
    if rec.None? {
      return Reply(playerId, "Match not found");
    }
    var info := ToMatch(rec.value);
    if info.None? {
      return Reply(playerId, "Failed to load match data");
    }
    var m := info.value;
    if !m.inProgress {
      return Reply(playerId, "Match is no longer active");
    }
    var opponentId := if m.player1Id == playerId then m.player2Id else m.player1Id;
    out := [OutgoingMessage(playerId, GameStateUpdate(m)), OutgoingMessage(opponentId, GameStateUpdate(m))];
  }

  // ----- Matchmaking

  /** A waiting row once the joiner is seated, with the first player and a fresh board. */
  function Joined(row: MatchRow, player2Id: int, firstPlayer: int): MatchRow
  {
    row.(player2Id := Some(player2Id), currentPlayer := firstPlayer, gameState := CellsJson(EmptyBoard))
  }

  /**
   * Matchmaking. A player with an active match gets that match back (when
   * it parses) and nothing changes. Otherwise another player's waiting
   * match, if any, is completed and both players get MatchFound; failing
   * that a waiting match is created and the joiner is told to wait.
   * `matchId` is the row acted on.
   */
  method HandleJoinMatchmaking(db: MatchTable, playerId: int, firstPlayer: int)
    returns (out: seq<OutgoingMessage>, ghost matchId: int)
    requires db.Valid()
    requires firstPlayer == 1 || firstPlayer == 2
    modifies db
    ensures db.Valid() && db.scores == old(db.scores)
    ensures HasActive(old(db.rows), playerId) ==>
      && db.rows == old(db.rows)
      && matchId in db.rows && ActiveFor(db.rows[matchId], playerId)
      && out == (if Load(db.rows, matchId).Some?
                 then [OutgoingMessage(playerId, GameStateUpdate(Load(db.rows, matchId).value))]
                 else [])
    ensures !HasActive(old(db.rows), playerId) && HasWaitingFor(old(db.rows), playerId) ==>
      && matchId in old(db.rows) && WaitingFor(old(db.rows)[matchId], playerId)
      && db.rows == old(db.rows)[matchId := Joined(old(db.rows)[matchId], playerId, firstPlayer)]
      && Load(db.rows, matchId).Some?
      && var m := Load(db.rows, matchId).value;
      && m.player1Id == old(db.rows)[matchId].player1Id && m.player2Id == playerId
      && m.inProgress && m.currentPlayer == firstPlayer && m.cells == EmptyBoard
      && out == [OutgoingMessage(m.player1Id, MatchFound(m)), OutgoingMessage(playerId, MatchFound(m))]
    ensures !HasActive(old(db.rows), playerId) && !HasWaitingFor(old(db.rows), playerId) ==>
      && matchId !in old(db.rows)
      && db.rows == old(db.rows)[matchId := WaitingRow(playerId)]
      && out == [OutgoingMessage(playerId, WaitingForOpponent)]
  {
    var active := db.GetActiveMatchForPlayer(playerId);
    if active.Some? {
      matchId := active.value.id;
      var info := ToMatch(active.value);
      if info.Some? {
        return [OutgoingMessage(playerId, GameStateUpdate(info.value))], matchId;
      }
      return [], matchId;
    }
    var waiting := db.FindWaitingMatch(playerId);
    if waiting.Some? {
      var id := waiting.value.id;
      matchId := id;
      var p1 := waiting.value.player1Id;
      db.JoinWaitingMatch(id, playerId, firstPlayer, CellsJson(EmptyBoard));
      var rec := db.GetMatchById(id);
      var info := ToMatch(rec.value);
      out := [OutgoingMessage(p1, MatchFound(info.value)), OutgoingMessage(playerId, MatchFound(info.value))];
    } else {
      var id := db.CreateWaitingMatch(playerId);
      matchId := id;
      out := [OutgoingMessage(playerId, WaitingForOpponent)];
    }
  }

  // ----- Moves

  /** The seat of a player: 1, 2, or none. */
  function PlayerNumber(m: TrisMatch, playerId: int): (r: Option<int>)
    ensures r == Some(1) <==> m.player1Id == playerId
    ensures r == Some(2) <==> m.player1Id != playerId && m.player2Id == playerId
    ensures r.None? <==> m.player1Id != playerId && m.player2Id != playerId
  {
    if m.player1Id == playerId then Some(1) else if m.player2Id == playerId then Some(2) else None
  }

  /** A line decides the match for its owner, a full board without one is a draw. */
  function BoardOutcome(cells: Board9): (o: Option<MatchOutcome>)
    ensures o == Some(Draw) <==> Winner(cells).None? && IsFull(cells)
    ensures o.None? <==> Winner(cells).None? && !IsFull(cells)
    ensures Winner(cells) == Some(1) ==> o == Some(Player1Win)
  {
    if Winner(cells).Some? then Some(if Winner(cells).value == 1 then Player1Win else Player2Win)
    else if IsFull(cells) then Some(Draw)
    else None
  }

  /**
   * What a move does to a loaded match: the error sent back, in the order
   * the handler checks, or the updated match. An accepted move writes the
   * mover's mark; a move that ends the match keeps the turn, any other
   * hands it to the other seat.
   */
  function MoveResult(m: TrisMatch, playerId: int, row: nat, col: nat): (r: Result<TrisMatch, string>)
    ensures !m.inProgress ==> r == Err("Match already finished")
    ensures m.inProgress && PlayerNumber(m, playerId).None? ==> r == Err("Player not in this match")
    ensures m.inProgress && PlayerNumber(m, playerId).Some? && PlayerNumber(m, playerId).value != m.currentPlayer ==>
      r == Err("Not your turn")
    ensures m.inProgress && PlayerNumber(m, playerId) == Some(m.currentPlayer) && !(row < 3 && col < 3) ==>
      r == Err("Invalid coordinates")
    ensures m.inProgress && PlayerNumber(m, playerId) == Some(m.currentPlayer) && row < 3 && col < 3
            && m.cells[row * 3 + col] != 0 ==>
      r == Err("Cell already occupied")
    ensures r.Ok? <==>
      m.inProgress && PlayerNumber(m, playerId) == Some(m.currentPlayer) && row < 3 && col < 3
      && m.cells[row * 3 + col] == 0
    ensures r.Ok? ==>
      && r.value == m.(cells := r.value.cells, currentPlayer := r.value.currentPlayer,
                       inProgress := r.value.inProgress, outcome := r.value.outcome)
      && r.value.cells == m.cells[row * 3 + col := m.currentPlayer]
      && r.value.outcome == BoardOutcome(r.value.cells)
      && (r.value.inProgress <==> r.value.outcome.None?)
      && r.value.currentPlayer == (if r.value.inProgress then 3 - m.currentPlayer else m.currentPlayer)
  {
    if !m.inProgress then Err("Match already finished")
    else if PlayerNumber(m, playerId).None? then Err("Player not in this match")
    else if PlayerNumber(m, playerId).value != m.currentPlayer then Err("Not your turn")
    else if !(row < 3 && col < 3) then Err("Invalid coordinates")
    else
      var index := row * 3 + col;
      if m.cells[index] != 0 then Err("Cell already occupied")
      else
        var cells := m.cells[index := m.currentPlayer];
        var outcome := BoardOutcome(cells);
        var next := if outcome.Some? then m.currentPlayer else if m.currentPlayer == 1 then 2 else 1;
        Ok(m.(cells := cells, currentPlayer := next, inProgress := outcome.None?, outcome := outcome))
  }

  /**
   * A mark placed on a board without a line can only complete a line of
   * that mark: a move never wins the match for the other player.
   */
  lemma PlacedMarkWins(b: Board9, index: nat, v: int)
    requires index < 9 && b[index] == 0 && v != 0
    requires Winner(b).None?
    ensures Winner(b[index := v]).Some? ==> Winner(b[index := v]).value == v
  {
    var b' := b[index := v];
    WinnerComplete(b);
    WinnerSound(b');
    if Winner(b').Some? {
      var k :| 0 <= k < |Lines| && LineWon(b', k) && LineMark(b', k) == Winner(b').value;
      assert !LineWon(b, k);
      assert index == Lines[k].0 || index == Lines[k].1 || index == Lines[k].2;
    }
  }

  /** An accepted move on a board without a winner decides the match only for the mover. */
  lemma MoveWinsOnlyForMover(m: TrisMatch, playerId: int, row: nat, col: nat)
    requires MoveResult(m, playerId, row, col).Ok?
    requires Winner(m.cells).None?
    ensures var o := MoveResult(m, playerId, row, col).value.outcome;
      o.Some? && o.value != Draw ==> o.value == (if m.currentPlayer == 1 then Player1Win else Player2Win)
  {
    PlacedMarkWins(m.cells, row * 3 + col, m.currentPlayer);
  }

  /** The row once a move's result is stored. */
  function Stored(row: MatchRow, m: TrisMatch): MatchRow
  {
    row.(currentPlayer := m.currentPlayer, gameState := CellsJson(m.cells),
         inProgress := if m.inProgress then 1 else 0,
         outcome := if m.outcome.Some? then Some(OutcomeToString(m.outcome.value)) else None)
  }

  /** The updated match to both players, and MatchEnded(Ended) to both when it is over. */
  function Broadcast(m: TrisMatch): (out: seq<OutgoingMessage>)
    ensures |out| == (if m.inProgress then 2 else 4)
  {
    [OutgoingMessage(m.player1Id, GameStateUpdate(m)), OutgoingMessage(m.player2Id, GameStateUpdate(m))]
    + (if m.inProgress then []
       else [OutgoingMessage(m.player1Id, MatchEnded(Ended)), OutgoingMessage(m.player2Id, MatchEnded(Ended))])
  }

  /**
   * A move by `playerId` in their active match. A rejected move sends one
   * error to the mover and changes nothing; an accepted one stores the
   * result, accounts the scores when the match is over and sends
   * `Broadcast`. `matchId` is the active row chosen.
   */
  method HandleMakeMove(db: MatchTable, playerId: int, row: nat, col: nat)
    returns (out: seq<OutgoingMessage>, ghost matchId: Option<int>)
    requires db.Valid()
    modifies db
    ensures db.Valid()
    ensures matchId.None? <==> !HasActive(old(db.rows), playerId)
    ensures matchId.None? ==>
      out == Reply(playerId, "No active match found") && db.rows == old(db.rows) && db.scores == old(db.scores)
    ensures matchId.Some? ==>
      && matchId.value in old(db.rows) && ActiveFor(old(db.rows)[matchId.value], playerId)
      && var id := matchId.value;
      && var m := Load(old(db.rows), id);
      && (m.None? ==>
            out == Reply(playerId, "Failed to load match data") && db.rows == old(db.rows) && db.scores == old(db.scores))
      && (m.Some? && MoveResult(m.value, playerId, row, col).Err? ==>
            && out == Reply(playerId, MoveResult(m.value, playerId, row, col).error)
            && db.rows == old(db.rows) && db.scores == old(db.scores))
      && (m.Some? && MoveResult(m.value, playerId, row, col).Ok? ==>
            var m1 := MoveResult(m.value, playerId, row, col).value;
            && db.rows == old(db.rows)[id := Stored(old(db.rows)[id], m1)]
            && db.scores == (if m1.inProgress then old(db.scores)
                             else ScoresAfter(old(db.scores), RecordOf(id, db.rows[id])))
            && out == Broadcast(m1))
  {
    var active := db.GetActiveMatchForPlayer(playerId);
    if active.None? {
      return Reply(playerId, "No active match found"), None;
    }
    matchId := Some(active.value.id);
    var info := ToMatch(active.value);
    if info.None? {
      return Reply(playerId, "Failed to load match data"), matchId;
    }
    var m := info.value;
    if !m.inProgress {
      return Reply(playerId, "Match already finished"), matchId;
    }
    var playerNumber;
    if m.player1Id == playerId {
      playerNumber := 1;
    } else if m.player2Id == playerId {
      playerNumber := 2;
    } else {
      return Reply(playerId, "Player not in this match"), matchId;
    }
    if m.currentPlayer != playerNumber {
      return Reply(playerId, "Not your turn"), matchId;
    }
    var index := CoordsToIndex(row, col);
    if index.None? {
      return Reply(playerId, "Invalid coordinates"), matchId;
    }
    var state := new Tris.GameState.FromCells(m.cells);
    var placed := state.PlaceMove(index.value, playerNumber);
    if placed.Err? {
      return Reply(playerId, placed.error), matchId;
    }
    MoveOutcomeStep(m, playerId, row, col, state.cells);
    var winner := CheckWinner(state.cells);
    var outcome: Option<MatchOutcome>;
    if winner.Some? {
      outcome := Some(if winner.value == 1 then Player1Win else Player2Win);
    } else if IsFull(state.cells) {
      outcome := Some(Draw);
    } else {
      outcome := None;
    }
    var nextPlayer := if outcome.Some? then m.currentPlayer else if m.currentPlayer == 1 then 2 else 1;
    var inProgress := outcome.None?;
    var outcomeText := if outcome.Some? then Some(OutcomeToString(outcome.value)) else None;
    db.UpdateMatch(m.id, nextPlayer, CellsJson(state.cells), inProgress, outcomeText);
    var m1 := m.(currentPlayer := nextPlayer, inProgress := inProgress, outcome := outcome, cells := state.cells);
    if !inProgress {
      var rec := db.GetMatchById(m.id);
      if rec.Some? {
        db.UpdatePlayerScoresFromMatch(rec.value);
      }
    }
    out := [OutgoingMessage(m1.player1Id, GameStateUpdate(m1)), OutgoingMessage(m1.player2Id, GameStateUpdate(m1))];
    if !inProgress {
      out := out + [OutgoingMessage(m1.player1Id, MatchEnded(Ended)), OutgoingMessage(m1.player2Id, MatchEnded(Ended))];
    }
  }

  /** The accepted-move case of `MoveResult`, for the board the handler has just written. */
  lemma MoveOutcomeStep(m: TrisMatch, playerId: int, row: nat, col: nat, cells: Board9)
    requires m.inProgress && PlayerNumber(m, playerId) == Some(m.currentPlayer) && row < 3 && col < 3
    requires m.cells[row * 3 + col] == 0
    requires cells == m.cells[row * 3 + col := m.currentPlayer]
    ensures MoveResult(m, playerId, row, col) ==
      Ok(m.(cells := cells,
            currentPlayer := if BoardOutcome(cells).Some? then m.currentPlayer
                             else if m.currentPlayer == 1 then 2 else 1,
            inProgress := BoardOutcome(cells).None?, outcome := BoardOutcome(cells)))
  {
  }

  // ----- Disconnects

  /**
   * A disconnect. A player waiting for an opponent loses the waiting
   * match, with no messages and no timer. A player in an in-progress match
   * whose state parses has the opponent told, and the match id is returned
   * to start the reconnect timer; anything else does nothing. `matchId` is
   * the row looked at.
   */
  method HandleDisconnect(db: MatchTable, playerId: int)
    returns (out: seq<OutgoingMessage>, timer: Option<int>, ghost matchId: int)
    requires db.Valid()
    modifies db
    ensures db.Valid() && db.scores == old(db.scores)
    ensures HasOwnWaiting(old(db.rows), playerId) ==>
      && out == [] && timer.None?
      && matchId in old(db.rows) && OwnWaiting(old(db.rows)[matchId], playerId)
      && db.rows == old(db.rows) - {matchId}
    ensures !HasOwnWaiting(old(db.rows), playerId) ==> db.rows == old(db.rows)
    ensures !HasOwnWaiting(old(db.rows), playerId) && !HasActive(old(db.rows), playerId) ==>
      out == [] && timer.None?
    ensures !HasOwnWaiting(old(db.rows), playerId) && HasActive(old(db.rows), playerId) ==>
      && matchId in db.rows && ActiveFor(db.rows[matchId], playerId)
      && var m := Load(db.rows, matchId);
      && (m.None? || !m.value.inProgress ==> out == [] && timer.None?)
      && (m.Some? && m.value.inProgress ==>
            out == [OutgoingMessage(OpponentOf(m.value, playerId), PlayerDisconnected(playerId))]
            && timer == Some(matchId))
  {
    var waiting := db.GetWaitingMatchForPlayer(playerId);
    if waiting.Some? {
      matchId := waiting.value.id;
      db.DeleteMatch(waiting.value.id);
      return [], None, matchId;
    }
    var active := db.GetActiveMatchForPlayer(playerId);
    if active.None? {
      return [], None, 0;
    }
    matchId := active.value.id;
    var info := ToMatch(active.value);
    if info.None? {
      return [], None, matchId;
    }
    var m := info.value;
    if !m.inProgress {
      return [], None, matchId;
    }
    var opponentId := if m.player1Id == playerId then m.player2Id else m.player1Id;
    out := [OutgoingMessage(opponentId, PlayerDisconnected(playerId))];
    timer := Some(m.id);
  }

  /**
   * The reconnect timer ran out: a match still in progress whose state
   * parses is stored as a draw with its turn and board, the draw's scores
   * are accounted and the opponent gets MatchEnded(Disconnection).
   * Anything else does nothing.
   */
  method HandleDisconnectTimeout(db: MatchTable, playerId: int, matchId: int)
    returns (out: seq<OutgoingMessage>)
    requires db.Valid()
    modifies db
    ensures db.Valid()
    ensures matchId !in old(db.rows) ==> out == [] && db.rows == old(db.rows) && db.scores == old(db.scores)
    ensures matchId in old(db.rows) ==>
      var m := Load(old(db.rows), matchId);
      && (m.None? || !m.value.inProgress ==>
            out == [] && db.rows == old(db.rows) && db.scores == old(db.scores))
      && (m.Some? && m.value.inProgress ==>
            var drawn := m.value.(inProgress := false, outcome := Some(Draw));
            && db.rows == old(db.rows)[matchId := Stored(old(db.rows)[matchId], drawn)]
            && db.scores == ScoresAfter(old(db.scores), RecordOf(matchId, db.rows[matchId]))
            && out == [OutgoingMessage(OpponentOf(m.value, playerId), MatchEnded(Disconnection))])
  {
    var rec := db.GetMatchById(matchId);
    if rec.None? {
      return [];
    }
    var info := ToMatch(rec.value);
    if info.None? {
      return [];
    }
    var m := info.value;
    if !m.inProgress {
      return [];
    }
    var opponentId := if m.player1Id == playerId then m.player2Id else m.player1Id;
    db.UpdateMatch(m.id, m.currentPlayer, CellsJson(m.cells), false, Some(OutcomeToString(Draw)));
    var stored := db.GetMatchById(matchId);
    if stored.Some? {
      db.UpdatePlayerScoresFromMatch(stored.value);
    }
    out := [OutgoingMessage(opponentId, MatchEnded(Disconnection))];
  }

  /** A timed-out match is a draw worth one point to each seat. */
  lemma TimeoutScoresADraw(rec: MatchRecord)
    requires rec.outcome == Some(OutcomeToString(Draw)) && rec.player1Id != rec.player2Id
    ensures Gain(rec, rec.player1Id) == 1 && Gain(rec, rec.player2Id) == 1
  {
    GainTable(rec);
  }
}
