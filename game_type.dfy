/**
 * The game-type tag stored with every match and its string codec
 * ("tris" for tic-tac-toe, "rps" for rock-paper-scissors).
 */
module GameTypes {
  import opened Wrappers

  datatype GameType = TicTacToe | RockPaperScissors

  /** The `Display` text of a game type. */
  function ToString(g: GameType): (s: string)
    ensures |s| > 0
  {
    match g
    case TicTacToe => "tris"
    case RockPaperScissors => "rps"
  }

  /** Parses a stored tag; anything but the two known strings is rejected. */
  function FromString(s: string): (r: Option<GameType>)
    ensures r.Some? ==> ToString(r.value) == s
  {
    if s == "tris" then Some(TicTacToe)
    else if s == "rps" then Some(RockPaperScissors)
    else None
  }

  /** Parsing the printed form gives back the game type. */
  lemma RoundTrip(g: GameType)
    ensures FromString(ToString(g)) == Some(g)
  {
    match g
    case TicTacToe =>
    case RockPaperScissors =>
      assert ToString(g) != "tris" by { assert ToString(g)[0] != "tris"[0]; }
  }

  /** Exactly the printed forms are accepted. */
  lemma FromStringExact(s: string, g: GameType)
    ensures FromString(s) == Some(g) <==> s == ToString(g)
  {
    if s == ToString(g) { RoundTrip(g); }
  }

  /** Strings that are neither tag are rejected. */
  lemma UnknownRejected(s: string)
    requires s != "tris" && s != "rps"
    ensures FromString(s) == None
  {
  }

  /** The two variants print differently. */
  lemma ToStringInjective(g: GameType, h: GameType)
    requires ToString(g) == ToString(h)
    ensures g == h
  {
    RoundTrip(g);
    RoundTrip(h);
  }
}
