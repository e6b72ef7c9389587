/**
 * Player statistics and the leaderboard page: the tally of a player's
 * finished matches into won / lost / draw and a score, the clamping of the
 * page parameters and the numbering of a page's entries. The two queries
 * that feed them are inputs here.
 */
module Stats {
  import opened Wrappers
  import Repository
  import Database

  /** One finished match as the stats query returns it: outcome text, player1, player2. */
  datatype OutcomeRow = OutcomeRow(outcome: Option<string>, player1Id: int, player2Id: int)

  datatype Tally = Tally(won: int, lost: int, draw: int, score: int)

  /** The target won this match: "p1_win" seated as player1, or "p2_win" seated elsewhere. */
  predicate IsWin(row: OutcomeRow, target: int)
  {
    row.outcome.Some?
    && ((row.outcome.value == "p1_win" && row.player1Id == target)
        || (row.outcome.value == "p2_win" && row.player1Id != target))
  }

  predicate IsDraw(row: OutcomeRow, target: int)
  {
    row.outcome.Some? && !IsWin(row, target) && row.outcome.value == "draw"
  }

  /** Anything else with an outcome, unknown texts included, is a loss. */
  predicate IsLoss(row: OutcomeRow, target: int)
  {
    row.outcome.Some? && !IsWin(row, target) && !IsDraw(row, target)
  }

  /** How one row moves the tally: win +1 won +3, draw +1 draw +1, loss +1 lost -1. */
  function Count(t: Tally, row: OutcomeRow, target: int): Tally
  {
    if IsWin(row, target) then t.(won := t.won + 1, score := t.score + 3)
    else if IsDraw(row, target) then t.(draw := t.draw + 1, score := t.score + 1)
    else if IsLoss(row, target) then t.(lost := t.lost + 1, score := t.score - 1)
    else t
  }

  /** The tally over the rows, taken in order. */
  function TallyOf(rows: seq<OutcomeRow>, target: int): Tally
    decreases |rows|
  {
    if |rows| == 0 then Tally(0, 0, 0, 0) else Count(TallyOf(rows[..|rows| - 1], target), rows[|rows| - 1], target)
  }

  function Decided(rows: seq<OutcomeRow>): nat
    decreases |rows|
  {
    if |rows| == 0 then 0 else Decided(rows[..|rows| - 1]) + (if rows[|rows| - 1].outcome.Some? then 1 else 0)
  }

  /**
   * The tally loop: each row with an outcome counts once, as a win, a draw
   * or a loss, and the score is 3 per win plus 1 per draw minus 1 per loss.
   */
  method TallyOutcomes(rows: seq<OutcomeRow>, target: int) returns (won: int, lost: int, draw: int, score: int)
    ensures Tally(won, lost, draw, score) == TallyOf(rows, target)
    ensures score == 3 * won + draw - lost
    ensures won + lost + draw == Decided(rows)
    ensures won >= 0 && lost >= 0 && draw >= 0
  {
    won, lost, draw, score := 0, 0, 0, 0;
    var i := 0;
    while i < |rows|
      invariant 0 <= i <= |rows|
      invariant Tally(won, lost, draw, score) == TallyOf(rows[..i], target)
      invariant score == 3 * won + draw - lost
      invariant won + lost + draw == Decided(rows[..i])
      invariant won >= 0 && lost >= 0 && draw >= 0
    {
      var row := rows[i];
      assert rows[..i + 1][..i] == rows[..i];
      if row.outcome.Some? {
        var isPlayer1 := row.player1Id == target;
        if row.outcome.value == "p1_win" && isPlayer1 {
          won, score := won + 1, score + 3;
        } else if row.outcome.value == "p2_win" && !isPlayer1 {
          won, score := won + 1, score + 3;
        } else if row.outcome.value == "draw" {
          draw, score := draw + 1, score + 1;
        } else {
          lost, score := lost + 1, score - 1;
        }
      }
      i := i + 1;
    }
    assert rows[..i] == rows;
  }

  /**
   * For the three known outcomes a match moves the stats score exactly as
   * it moved the player's stored score; an unknown outcome costs a point
   * here but nothing in the table.
   */
  lemma ScoreAgreesWithTable(t: Tally, row: OutcomeRow, target: int, rec: Repository.MatchRecord)
    requires rec.outcome == row.outcome && rec.player1Id == row.player1Id && rec.player2Id == row.player2Id
    requires row.player1Id != row.player2Id && (target == row.player1Id || target == row.player2Id)
    requires row.outcome.Some?
    ensures row.outcome.value in {"p1_win", "p2_win", "draw"} ==>
      Count(t, row, target).score == t.score + Database.Gain(rec, target)
    ensures row.outcome.value !in {"p1_win", "p2_win", "draw"} ==>
      Count(t, row, target).score == t.score - 1 && Database.Gain(rec, target) == 0
  {
  }

  /** A draw counts as a draw for both seats, and an unrecognised outcome as a loss for both. */
  lemma BothSeatsAgree(row: OutcomeRow)
    requires row.player1Id != row.player2Id && row.outcome.Some?
    ensures row.outcome.value == "draw" ==> IsDraw(row, row.player1Id) && IsDraw(row, row.player2Id)
    ensures row.outcome.value !in {"p1_win", "p2_win", "draw"} ==>
      IsLoss(row, row.player1Id) && IsLoss(row, row.player2Id)
    ensures row.outcome.value == "p1_win" ==> IsWin(row, row.player1Id) && IsLoss(row, row.player2Id)
    ensures row.outcome.value == "p2_win" ==> IsWin(row, row.player2Id) && IsLoss(row, row.player1Id)
  {
  }

  /** The page size asked for, 10 by default, kept within 1..100. */
  function ClampLimit(limit: Option<int>): (r: int)
    ensures 1 <= r <= 100
    ensures limit.None? ==> r == 10
    ensures limit.Some? && 1 <= limit.value <= 100 ==> r == limit.value
    ensures limit.Some? && limit.value < 1 ==> r == 1
    ensures limit.Some? && limit.value > 100 ==> r == 100
  {
    var l := if limit.Some? then limit.value else 10;
    if l < 1 then 1 else if l > 100 then 100 else l
  }

  /** The page offset asked for, 0 by default, never negative. */
  function ClampOffset(offset: Option<int>): (r: int)
    ensures r >= 0
    ensures offset.Some? && offset.value >= 0 ==> r == offset.value
    ensures offset.None? || offset.value < 0 ==> r == 0
  {
    var o := if offset.Some? then offset.value else 0;
    if o < 0 then 0 else o
  }

  datatype LeaderboardRow = LeaderboardRow(id: int, name: string, score: int)

  datatype LeaderboardEntry = LeaderboardEntry(playerId: int, playerName: string, rank: int, score: int)

  /** The entries of a page starting at `offset`: ranked offset+1, offset+2, ... in row order. */
  function Ranked(rows: seq<LeaderboardRow>, offset: int): (entries: seq<LeaderboardEntry>)
    ensures |entries| == |rows|
    ensures forall k :: 0 <= k < |rows| ==>
      entries[k] == LeaderboardEntry(rows[k].id, rows[k].name, offset + k + 1, rows[k].score)
    decreases |rows|
  {
    if |rows| == 0 then []
    else [LeaderboardEntry(rows[0].id, rows[0].name, offset + 1, rows[0].score)] + Ranked(rows[1..], offset + 1)
  }

  /** Consecutive pages number on from each other: ranking two pages equals ranking their join. */
  lemma PagesContinue(first: seq<LeaderboardRow>, second: seq<LeaderboardRow>, offset: int)
    ensures Ranked(first, offset) + Ranked(second, offset + |first|) == Ranked(first + second, offset)
  {
    var joined := Ranked(first, offset) + Ranked(second, offset + |first|);
    var whole := Ranked(first + second, offset);
    assert |joined| == |whole|;
    forall k | 0 <= k < |whole|
      ensures joined[k] == whole[k]
    {
      if k >= |first| {
        assert joined[k] == Ranked(second, offset + |first|)[k - |first|];
      }
    }
  }
}
