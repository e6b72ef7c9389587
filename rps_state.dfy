/**
 * Best-of rock-paper-scissors, first to two round wins. The state is the
 * list of rounds, each a pair of optional moves (player 1's, player 2's);
 * `Redacted` stands for a move the viewer may not see.
 */
module RpsState {
  import opened Wrappers

  datatype RpsMove = Rock | Paper | Scissors | Redacted

  type Round = (Option<RpsMove>, Option<RpsMove>)

  datatype State = State(rounds: seq<Round>)

  /** The winning move of `a` against `b`, None for a draw or a redacted move. */
  function Beats(a: RpsMove, b: RpsMove): (r: Option<RpsMove>)
    ensures r.Some? ==> (r.value == a || r.value == b) && r.value != Redacted && a != b
  {
    match (a, b)
    case (Rock, Scissors) => Some(a)
    case (Paper, Rock) => Some(a)
    case (Scissors, Paper) => Some(a)
    case (Scissors, Rock) => Some(b)
    case (Rock, Paper) => Some(b)
    case (Paper, Scissors) => Some(b)
    case _ => None
  }

  /** The usual cycle: a move beats b exactly when (a, b) is one of the three winning pairs. */
  predicate Defeats(a: RpsMove, b: RpsMove)
  {
    (a == Rock && b == Scissors) || (a == Paper && b == Rock) || (a == Scissors && b == Paper)
  }

  lemma BeatsSymmetric(a: RpsMove, b: RpsMove)
    ensures Beats(a, b) == Beats(b, a)
  {
  }

  /** Beats names the move that defeats the other, and nothing otherwise. */
  lemma BeatsMeansDefeats(a: RpsMove, b: RpsMove)
    ensures Beats(a, b) == Some(a) <==> Defeats(a, b)
    ensures Beats(a, b) == Some(b) <==> Defeats(b, a)
    ensures Beats(a, b).None? <==> !Defeats(a, b) && !Defeats(b, a)
    ensures a == b || a == Redacted || b == Redacted ==> Beats(a, b).None?
  {
  }

  /** The player (1 or 2) whose move wins the round, None on a draw. */
  function ComputeRoundWinner(m1: RpsMove, m2: RpsMove): (r: Option<int>)
    ensures r == Some(1) <==> Defeats(m1, m2)
    ensures r == Some(2) <==> Defeats(m2, m1)
    ensures r.None? || r == Some(1) || r == Some(2)
  {
    match Beats(m1, m2)
    case Some(w) => if w == m1 then Some(1) else Some(2)
    case None => None
  }

  /** A round where both players have moved. */
  predicate Complete(r: Round)
  {
    r.0.Some? && r.1.Some?
  }

  /** The points one round gives (player 1's, player 2's). */
  function RoundPoints(r: Round): (nat, nat)
  {
    if Complete(r) then
      match Beats(r.0.value, r.1.value)
      case Some(w) => if w == r.0.value then (1, 0) else (0, 1)
      case None => (0, 0)
    else (0, 0)
  }

  /** The round wins of each player over a list of rounds. */
  function Tally(rs: seq<Round>): (nat, nat)
    decreases |rs|
  {
    if |rs| == 0 then (0, 0)
    else
      var t := Tally(rs[..|rs| - 1]);
      var p := RoundPoints(rs[|rs| - 1]);
      (t.0 + p.0, t.1 + p.1)
  }

  /** A completed round scores for the player ComputeRoundWinner names. */
  lemma TallyAppendComplete(rs: seq<Round>, a: RpsMove, b: RpsMove)
    ensures var t := Tally(rs + [(Some(a), Some(b))]);
      && (ComputeRoundWinner(a, b) == Some(1) ==> t == (Tally(rs).0 + 1, Tally(rs).1))
      && (ComputeRoundWinner(a, b) == Some(2) ==> t == (Tally(rs).0, Tally(rs).1 + 1))
      && (ComputeRoundWinner(a, b).None? ==> t == Tally(rs))
  {
    TallySnoc(rs, (Some(a), Some(b)));
  }

  /** The tally of one more round adds that round's points. */
  lemma TallySnoc(rs: seq<Round>, r: Round)
    ensures Tally(rs + [r]) == (Tally(rs).0 + RoundPoints(r).0, Tally(rs).1 + RoundPoints(r).1)
  {
    assert (rs + [r])[..|rs|] == rs;
  }

  /** An incomplete round scores nothing. */
  lemma TallyAppendIncomplete(rs: seq<Round>, r: Round)
    requires !Complete(r)
    ensures Tally(rs + [r]) == Tally(rs)
  {
    TallySnoc(rs, r);
  }

  /** Each round adds at most one point, so neither count exceeds the number of rounds. */
  lemma {:induction false} TallyBounded(rs: seq<Round>)
    ensures Tally(rs).0 + Tally(rs).1 <= |rs|
    decreases |rs|
  {
    if |rs| > 0 {
      TallyBounded(rs[..|rs| - 1]);
    }
  }

  /** The initial state: a single round with no moves. */
  function New(): (s: State)
    ensures |s.rounds| == 1 && s.rounds[0] == (None, None)
    ensures Tally(s.rounds) == (0, 0)
  {
    State([(None, None)])
  }

  /**
   * The score loop: walks the rounds, skipping incomplete ones and draws,
   * and counts a point for the owner of the winning move.
   */
  method GetScore(s: State) returns (p1Wins: nat, p2Wins: nat)
    ensures (p1Wins, p2Wins) == Tally(s.rounds)
  {
    p1Wins, p2Wins := 0, 0;
    var i := 0;
    while i < |s.rounds|
      invariant 0 <= i <= |s.rounds|
      invariant (p1Wins, p2Wins) == Tally(s.rounds[..i])
    {
      var round := s.rounds[i];
      assert s.rounds[..i + 1][..i] == s.rounds[..i];
      if round.0.Some? && round.1.Some? {
        var w := Beats(round.0.value, round.1.value);
        if w.Some? {
          if w.value == round.0.value {
            p1Wins := p1Wins + 1;
          } else {
            p2Wins := p2Wins + 1;
          }
        }
      }
      i := i + 1;
    }
    assert s.rounds[..i] == s.rounds;
  }

  /** Some player has two round wins. */
  predicate IsFinished(s: State)
  {
    Tally(s.rounds).0 >= 2 || Tally(s.rounds).1 >= 2
  }

  function GetWinner(s: State): (r: Option<int>)
    ensures !IsFinished(s) ==> r.None?
    ensures IsFinished(s) && Tally(s.rounds).0 >= 2 ==> r == Some(1)
    ensures IsFinished(s) && Tally(s.rounds).0 < 2 ==> r == Some(2)
  {
    if !IsFinished(s) then None
    else if Tally(s.rounds).0 >= 2 then Some(1)
    else if Tally(s.rounds).1 >= 2 then Some(2)
    else None
  }

  /** What `viewer` may see of one round. */
  function RedactRound(r: Round, viewer: int): Round
  {
    if viewer == 1 then
      (r.0, if r.0.Some? && r.1.Some? then r.1 else if r.1.Some? then Some(Redacted) else None)
    else if viewer == 2 then
      (if r.0.Some? && r.1.Some? then r.0 else if r.0.Some? then Some(Redacted) else None, r.1)
    else r
  }

  /**
   * Hides the opponent's move in a round where only the opponent has moved;
   * complete rounds, empty slots and the viewer's own moves are shown as
   * they are. A viewer who is neither player sees everything.
   */
  function RedactForPlayer(s: State, viewer: int): (r: State)
    ensures |r.rounds| == |s.rounds|
    ensures forall i :: 0 <= i < |s.rounds| && Complete(s.rounds[i]) ==> r.rounds[i] == s.rounds[i]
    ensures viewer == 1 ==> forall i :: 0 <= i < |s.rounds| ==>
      r.rounds[i].0 == s.rounds[i].0
      && (s.rounds[i].0.None? && s.rounds[i].1.Some? ==> r.rounds[i].1 == Some(Redacted))
      && (s.rounds[i].1.None? ==> r.rounds[i].1.None?)
    ensures viewer == 2 ==> forall i :: 0 <= i < |s.rounds| ==>
      r.rounds[i].1 == s.rounds[i].1
      && (s.rounds[i].1.None? && s.rounds[i].0.Some? ==> r.rounds[i].0 == Some(Redacted))
      && (s.rounds[i].0.None? ==> r.rounds[i].0.None?)
    ensures viewer != 1 && viewer != 2 ==> r == s
  {
    State(RedactRounds(s.rounds, viewer))
  }

  function RedactRounds(rs: seq<Round>, viewer: int): (r: seq<Round>)
    ensures |r| == |rs| && forall i :: 0 <= i < |rs| ==> r[i] == RedactRound(rs[i], viewer)
  {
    seq(|rs|, i requires 0 <= i < |rs| => RedactRound(rs[i], viewer))
  }

  /** Redacting twice for the same viewer is redacting once. */
  lemma RedactIdempotent(s: State, viewer: int)
    ensures RedactForPlayer(RedactForPlayer(s, viewer), viewer) == RedactForPlayer(s, viewer)
  {
    var r := RedactForPlayer(s, viewer);
    var rr := RedactForPlayer(r, viewer);
    assert rr.rounds == r.rounds by {
      forall i | 0 <= i < |r.rounds| ensures rr.rounds[i] == r.rounds[i] {
        assert r.rounds[i] == RedactRound(s.rounds[i], viewer);
      }
    }
  }

  /** Redaction never changes the score a viewer sees. */
  lemma {:induction false} RedactKeepsTally(rs: seq<Round>, viewer: int)
    ensures Tally(RedactRounds(rs, viewer)) == Tally(rs)
    decreases |rs|
  {
    if |rs| > 0 {
      var front := rs[..|rs| - 1];
      RedactKeepsTally(front, viewer);
      assert RedactRounds(rs, viewer)[..|rs| - 1] == RedactRounds(front, viewer);
    }
  }

  lemma RedactKeepsScore(s: State, viewer: int)
    ensures Tally(RedactForPlayer(s, viewer).rounds) == Tally(s.rounds)
    ensures IsFinished(RedactForPlayer(s, viewer)) == IsFinished(s)
  {
    RedactKeepsTally(s.rounds, viewer);
  }
}
