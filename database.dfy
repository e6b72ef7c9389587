/**
 * The matches and players tables as an in-memory store: match rows keyed by
 * id, and each player's score. Queries that return one of several matching
 * rows (a LIMIT 1 or an optional fetch without ORDER BY) may return any of
 * them.
 */
module Database {
  import opened Wrappers
  import opened Repository

  /**
   * A stored match row; `player2Id` is None while the column is NULL. The
   * waiting-match insert leaves the current player and the state unset,
   * which read back as 0 and as text that does not parse.
   */
  datatype MatchRow = MatchRow(
    player1Id: int,
    player2Id: Option<int>,
    inProgress: int,
    outcome: Option<string>,
    gameType: string,
    currentPlayer: int,
    gameState: StoredState)

  /** The record a query returns for row `id`. */
  function RecordOf(id: int, row: MatchRow): (rec: MatchRecord)
    ensures rec.id == id && rec.player1Id == row.player1Id
    ensures rec.player2Id == (if row.player2Id.Some? then row.player2Id.value else 0)
    ensures rec.inProgress == row.inProgress && rec.outcome == row.outcome
    ensures rec.currentPlayer == row.currentPlayer && rec.gameState == row.gameState
  {
    MatchRecord(id, row.player1Id, if row.player2Id.Some? then row.player2Id.value else 0,
                row.inProgress, row.outcome, row.gameType, row.currentPlayer, row.gameState)
  }

  /** Someone else's in-progress match that still lacks a second player. */
  predicate WaitingFor(row: MatchRow, playerId: int)
  {
    row.player2Id.None? && row.player1Id != playerId && row.inProgress == 1
  }

  /** An in-progress match with `playerId` in either seat. */
  predicate ActiveFor(row: MatchRow, playerId: int)
  {
    (row.player1Id == playerId || row.player2Id == Some(playerId)) && row.inProgress == 1
  }

  /** The player's own in-progress match that still lacks a second player. */
  predicate OwnWaiting(row: MatchRow, playerId: int)
  {
    row.player1Id == playerId && row.player2Id.None? && row.inProgress == 1
  }

  /** The rows any new match is inserted as: in progress, game type "tris". */
  function NewRow(player1Id: int, player2Id: Option<int>, currentPlayer: int, gameState: StoredState): (row: MatchRow)
    ensures row.inProgress == 1 && row.outcome.None? && row.gameType == "tris"
  {
    MatchRow(player1Id, player2Id, 1, None, "tris", currentPlayer, gameState)
  }

  /** The waiting row: only player1 is set. */
  function WaitingRow(player1Id: int): (row: MatchRow)
    ensures forall p :: p != player1Id ==> WaitingFor(row, p)
    ensures OwnWaiting(row, player1Id)
  {
    NewRow(player1Id, None, 0, Unparseable)
  }

  /**
   * The score deltas of an outcome text: (player1, player2). Any outcome
   * other than the three known texts, or none at all, gives no change.
   */
  function ScoreDelta(outcome: Option<string>): (d: Option<(int, int)>)
    ensures d.Some? <==> outcome.Some? && outcome.value in {"p1_win", "p2_win", "draw"}
    ensures d.Some? ==> d.value.0 + d.value.1 == 2
  {
    if outcome == Some("p1_win") then Some((3, -1))
    else if outcome == Some("p2_win") then Some((-1, 3))
    else if outcome == Some("draw") then Some((1, 1))
    else None
  }

  /** Adds `delta` to an existing player's score; an unknown player changes nothing. */
  function Credit(scores: map<int, int>, playerId: int, delta: int): (r: map<int, int>)
    ensures r.Keys == scores.Keys
    ensures forall p :: p in scores ==> r[p] == scores[p] + (if p == playerId then delta else 0)
  {
    if playerId in scores then scores[playerId := scores[playerId] + delta] else scores
  }

  /** The scores after a finished match record is accounted for. */
  function ScoresAfter(scores: map<int, int>, rec: MatchRecord): map<int, int>
  {
    match ScoreDelta(rec.outcome)
    case None => scores
    case Some((d1, d2)) => Credit(Credit(scores, rec.player1Id, d1), rec.player2Id, d2)
  }

  /** What one match record adds to a player's score. */
  function Gain(rec: MatchRecord, playerId: int): int
  {
    match ScoreDelta(rec.outcome)
    case None => 0
    case Some((d1, d2)) =>
      (if playerId == rec.player1Id then d1 else 0) + (if playerId == rec.player2Id then d2 else 0)
  }

  /** Scores after a sequence of matches, each accounted for in turn. */
  function ScoresAfterAll(scores: map<int, int>, recs: seq<MatchRecord>): map<int, int>
    decreases |recs|
  {
    if |recs| == 0 then scores else ScoresAfterAll(ScoresAfter(scores, recs[0]), recs[1..])
  }

  function TotalGain(recs: seq<MatchRecord>, playerId: int): int
    decreases |recs|
  {
    if |recs| == 0 then 0 else Gain(recs[0], playerId) + TotalGain(recs[1..], playerId)
  }

  /** One match changes each existing player's score by exactly its gain, and adds no player. */
  lemma ScoresAfterGain(scores: map<int, int>, rec: MatchRecord)
    ensures ScoresAfter(scores, rec).Keys == scores.Keys
    ensures forall p :: p in scores ==> ScoresAfter(scores, rec)[p] == scores[p] + Gain(rec, p)
  {
  }

  /** The deltas of the three outcomes, as the scoring table states them. */
  lemma GainTable(rec: MatchRecord)
    requires rec.player1Id != rec.player2Id
    ensures rec.outcome == Some("p1_win") ==> Gain(rec, rec.player1Id) == 3 && Gain(rec, rec.player2Id) == -1
    ensures rec.outcome == Some("p2_win") ==> Gain(rec, rec.player1Id) == -1 && Gain(rec, rec.player2Id) == 3
    ensures rec.outcome == Some("draw") ==> Gain(rec, rec.player1Id) == 1 && Gain(rec, rec.player2Id) == 1
    ensures (rec.outcome.None? || rec.outcome.value !in {"p1_win", "p2_win", "draw"}) ==>
      forall p :: Gain(rec, p) == 0
  {
  }

  /** Score updates accumulate: after several matches a score has grown by the sum of their gains. */
  lemma {:induction false} ScoresAccumulate(scores: map<int, int>, recs: seq<MatchRecord>, playerId: int)
    requires playerId in scores
    ensures playerId in ScoresAfterAll(scores, recs)
    ensures ScoresAfterAll(scores, recs)[playerId] == scores[playerId] + TotalGain(recs, playerId)
    decreases |recs|
  {
    if |recs| > 0 {
      ScoresAfterGain(scores, recs[0]);
      ScoresAccumulate(ScoresAfter(scores, recs[0]), recs[1..], playerId);
    }
  }

  class MatchTable {
    var rows: map<int, MatchRow>
    var scores: map<int, int>
    /** The next row id the table hands out. */
    var nextId: int

    ghost predicate Valid()
      reads this
    {
      0 < nextId && forall id :: id in rows ==> 0 < id < nextId
    }

    /** An empty match table beside the given players' scores. */
    constructor (playerScores: map<int, int>)
      ensures Valid() && rows == map[] && scores == playerScores
    {
      rows := map[];
      scores := playerScores;
      nextId := 1;
    }

    /** Inserts a row under a fresh id. */
    method Insert(row: MatchRow) returns (id: int)
      requires Valid()
      modifies this
      ensures Valid()
      ensures id !in old(rows) && rows == old(rows)[id := row]
      ensures scores == old(scores)
    {
      id := nextId;
      rows := rows[id := row];
      nextId := nextId + 1;
    }

    /** A full match between two players, in progress, with the given turn and state. */
    method CreateMatch(player1Id: int, player2Id: int, currentPlayer: int, gameState: StoredState) returns (id: int)
      requires Valid()
      modifies this
      ensures Valid()
      ensures id !in old(rows)
      ensures rows == old(rows)[id := NewRow(player1Id, Some(player2Id), currentPlayer, gameState)]
      ensures scores == old(scores)
    {
      id := Insert(NewRow(player1Id, Some(player2Id), currentPlayer, gameState));
    }

    /** A match with only player1 set, waiting for an opponent. */
    method CreateWaitingMatch(player1Id: int) returns (id: int)
      requires Valid()
      modifies this
      ensures Valid()
      ensures id !in old(rows) && rows == old(rows)[id := WaitingRow(player1Id)]
      ensures scores == old(scores)
    {
      id := Insert(WaitingRow(player1Id));
    }

    /** Some other player's waiting match, if there is one. */
    method FindWaitingMatch(playerId: int) returns (r: Option<MatchRecord>)
      ensures r.Some? ==> r.value.id in rows && WaitingFor(rows[r.value.id], playerId)
                          && r.value == RecordOf(r.value.id, rows[r.value.id])
      ensures r.None? <==> forall id :: id in rows ==> !WaitingFor(rows[id], playerId)
    {
      if id :| id in rows && WaitingFor(rows[id], playerId) {
        r := Some(RecordOf(id, rows[id]));
      } else {
        r := None;
      }
    }

    /** Seats player2 in row `matchId` and sets its turn and state; no other column changes. */
    method JoinWaitingMatch(matchId: int, player2Id: int, currentPlayer: int, gameState: StoredState)
      requires Valid()
      modifies this
      ensures Valid()
      ensures rows == if matchId in old(rows)
        then old(rows)[matchId := old(rows)[matchId].(player2Id := Some(player2Id), currentPlayer := currentPlayer, gameState := gameState)]
        else old(rows)
      ensures scores == old(scores)
    {
      if matchId in rows {
        rows := rows[matchId := rows[matchId].(player2Id := Some(player2Id), currentPlayer := currentPlayer, gameState := gameState)];
      }
    }

    /** An in-progress match with the player in either seat, if there is one. */
    method GetActiveMatchForPlayer(playerId: int) returns (r: Option<MatchRecord>)
      ensures r.Some? ==> r.value.id in rows && ActiveFor(rows[r.value.id], playerId)
                          && r.value == RecordOf(r.value.id, rows[r.value.id])
      ensures r.None? <==> forall id :: id in rows ==> !ActiveFor(rows[id], playerId)
    {
      if id :| id in rows && ActiveFor(rows[id], playerId) {
        r := Some(RecordOf(id, rows[id]));
      } else {
        r := None;
      }
    }

    /** Sets exactly the turn, state, in-progress flag (as 1/0) and outcome of row `matchId`. */
    method UpdateMatch(matchId: int, currentPlayer: int, gameState: StoredState, inProgress: bool, outcome: Option<string>)
      requires Valid()
      modifies this
      ensures Valid()
      ensures rows == if matchId in old(rows)
        then old(rows)[matchId := old(rows)[matchId].(currentPlayer := currentPlayer, gameState := gameState,
                                                      inProgress := if inProgress then 1 else 0, outcome := outcome)]
        else old(rows)
      ensures scores == old(scores)
    {
      if matchId in rows {
        rows := rows[matchId := rows[matchId].(currentPlayer := currentPlayer, gameState := gameState,
                                               inProgress := if inProgress then 1 else 0, outcome := outcome)];
      }
    }

    /** The player's own waiting match, if there is one. */
    method GetWaitingMatchForPlayer(playerId: int) returns (r: Option<MatchRecord>)
      ensures r.Some? ==> r.value.id in rows && OwnWaiting(rows[r.value.id], playerId)
                          && r.value == RecordOf(r.value.id, rows[r.value.id])
      ensures r.None? <==> forall id :: id in rows ==> !OwnWaiting(rows[id], playerId)
    {
      if id :| id in rows && OwnWaiting(rows[id], playerId) {
        r := Some(RecordOf(id, rows[id]));
      } else {
        r := None;
      }
    }

    /** Removes the row with that id, and only it. */
    method DeleteMatch(matchId: int)
      requires Valid()
      modifies this
      ensures Valid()
      ensures rows == old(rows) - {matchId} && scores == old(scores)
    {
      rows := rows - {matchId};
    }

    method GetMatchById(matchId: int) returns (r: Option<MatchRecord>)
      ensures r.Some? <==> matchId in rows
      ensures r.Some? ==> r.value == RecordOf(matchId, rows[matchId])
    {
      if matchId in rows {
        r := Some(RecordOf(matchId, rows[matchId]));
      } else {
        r := None;
      }
    }

    /**
     * Applies a finished match's score deltas: player1's first, then
     * player2's, each only to a player row that exists.
     */
    method UpdatePlayerScoresFromMatch(rec: MatchRecord)
      requires Valid()
      modifies this
      ensures Valid()
      ensures scores == ScoresAfter(old(scores), rec) && rows == old(rows)
    {
      if rec.outcome.Some? {
        var d1, d2;
        if rec.outcome.value == "p1_win" {
          d1, d2 := 3, -1;
        } else if rec.outcome.value == "p2_win" {
          d1, d2 := -1, 3;
        } else if rec.outcome.value == "draw" {
          d1, d2 := 1, 1;
        } else {
          return;
        }
        if rec.player1Id in scores {
          scores := scores[rec.player1Id := scores[rec.player1Id] + d1];
        }
        if rec.player2Id in scores {
          scores := scores[rec.player2Id := scores[rec.player2Id] + d2];
        }
      }
    }
  }
}
