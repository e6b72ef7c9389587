/**
 * A row of the matches table as the server reads it, and its conversion to
 * the cells-only match the server's handlers work on.
 */
module Repository {
  import opened Wrappers
  import opened Matches
  import opened TicTacToeBoard

  /**
   * The text of a row's game_state column: the JSON of a nine-cell board,
   * or text that does not parse as one (a column left unset included).
   */
  datatype StoredState = CellsJson(cells: Board9) | Unparseable

  /** One match row, with the column types of the table. */
  datatype MatchRecord = MatchRecord(
    id: int,
    player1Id: int,
    player2Id: int,
    inProgress: int,
    outcome: Option<string>,
    gameType: string,
    currentPlayer: int,
    gameState: StoredState)

  /** The match with a current player and a decoded board. */
  datatype TrisMatch = TrisMatch(
    id: int,
    player1Id: int,
    player2Id: int,
    inProgress: bool,
    outcome: Option<MatchOutcome>,
    gameType: string,
    currentPlayer: int,
    cells: Board9)

  const TwoTo31: int := 0x8000_0000
  const TwoTo32: int := 0x1_0000_0000

  /** The `as i32` cast of a 64-bit column: keeps the low 32 bits, read as signed. */
  function AsI32(x: int): (r: int)
    ensures -TwoTo31 <= r < TwoTo31
    ensures (x - r) % TwoTo32 == 0
    ensures -TwoTo31 <= x < TwoTo31 ==> r == x
  {
    (x + TwoTo31) % TwoTo32 - TwoTo31
  }

  /** Reads a stored outcome: a missing one, or one no outcome prints as, gives None. */
  function StoredOutcome(s: Option<string>): (r: Option<MatchOutcome>)
    ensures s.None? ==> r.None?
    ensures r.Some? ==> s == Some(OutcomeToString(r.value))
  {
    if s.Some? then OutcomeFromString(s.value) else None
  }

  /**
   * The record-to-match conversion: fails exactly when the stored state
   * does not parse; any other field is carried over, the in-progress flag
   * being "non-zero", the outcome decoded leniently and the current player
   * cast to 32 bits.
   */
  function ToMatch(rec: MatchRecord): (r: Option<TrisMatch>)
    ensures r.None? <==> rec.gameState.Unparseable?
    ensures r.Some? ==>
      && r.value.id == rec.id
      && r.value.player1Id == rec.player1Id
      && r.value.player2Id == rec.player2Id
      && (r.value.inProgress <==> rec.inProgress != 0)
      && r.value.outcome == StoredOutcome(rec.outcome)
      && r.value.gameType == rec.gameType
      && r.value.currentPlayer == AsI32(rec.currentPlayer)
      && r.value.cells == rec.gameState.cells
  {
    match rec.gameState
    case Unparseable => None
    case CellsJson(cells) =>
      Some(TrisMatch(rec.id, rec.player1Id, rec.player2Id, rec.inProgress != 0,
                     StoredOutcome(rec.outcome), rec.gameType, AsI32(rec.currentPlayer), cells))
  }

  /** The record that storing a match writes (in-progress as 1/0, the outcome's text). */
  function FromMatch(m: TrisMatch): MatchRecord
  {
    MatchRecord(m.id, m.player1Id, m.player2Id, if m.inProgress then 1 else 0,
                if m.outcome.Some? then Some(OutcomeToString(m.outcome.value)) else None,
                m.gameType, m.currentPlayer, CellsJson(m.cells))
  }

  /** Storing a match and reading it back gives the same match, for any 32-bit current player. */
  lemma StoreLoadRoundTrip(m: TrisMatch)
    requires -TwoTo31 <= m.currentPlayer < TwoTo31
    ensures ToMatch(FromMatch(m)) == Some(m)
  {
    if m.outcome.Some? {
      OutcomeRoundTrip(m.outcome.value);
    }
  }

  /** An outcome text no outcome prints as is dropped instead of failing the conversion. */
  lemma UnknownOutcomeDropped(rec: MatchRecord)
    requires rec.gameState.CellsJson?
    requires rec.outcome.Some? && rec.outcome.value !in {"p1_win", "p2_win", "draw"}
    ensures ToMatch(rec).Some? && ToMatch(rec).value.outcome.None?
  {
  }

  /** A current player outside 32 bits wraps: 2^32 + 1 reads as 1. */
  lemma CurrentPlayerWraps()
    ensures AsI32(TwoTo32 + 1) == 1
    ensures AsI32(TwoTo31) == -TwoTo31
  {
  }
}
