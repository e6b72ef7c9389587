/**
 * The server's rock-paper-scissors engine: records a player's move in the
 * current (last) round and opens a new round once both have moved, unless
 * that round decided the game.
 */
module RpsEngine {
  import opened Wrappers
  import opened GameErrors
  import opened RpsState

  /** The round a move fills: the mover's slot set, the other slot kept. */
  function Filled(r: Round, player: int, m: RpsMove): Round
    requires player == 1 || player == 2
  {
    if player == 1 then (Some(m), r.1) else (r.0, Some(m))
  }

  /**
   * Applies `player`'s move. A finished game is rejected before the player
   * number is even looked at; then a player other than 1 and 2, then a
   * player who already moved this round. An accepted move fills only the
   * mover's slot of the last round and appends a fresh empty round exactly
   * when that round is now complete and the game goes on.
   */
  function Update(s: State, player: int, m: RpsMove): (r: Result<State, GameError>)
    requires |s.rounds| > 0
    ensures IsFinished(s) ==> r == Err(GameNotInProgress)
    ensures !IsFinished(s) && player != 1 && player != 2 ==> r == Err(InvalidPlayer)
    ensures !IsFinished(s) && (player == 1 || player == 2) && SlotTaken(s, player) ==>
      r == Err(IllegalMove("You have already submitted a move for this round"))
    ensures r.Ok? <==> !IsFinished(s) && (player == 1 || player == 2) && !SlotTaken(s, player)
    ensures r.Ok? ==>
      var idx := |s.rounds| - 1;
      var nr := Filled(s.rounds[idx], player, m);
      (if Complete(nr) && !IsFinished(State(s.rounds[..idx] + [nr]))
          then r.value.rounds == s.rounds[..idx] + [nr, (None, None)]
          else r.value.rounds == s.rounds[..idx] + [nr])
  {
    if IsFinished(s) then Err(GameNotInProgress)
    else
      var idx := |s.rounds| - 1;
      var current := s.rounds[idx];
      if player != 1 && player != 2 then Err(InvalidPlayer)
      else if (if player == 1 then current.0.Some? else current.1.Some?) then
        Err(IllegalMove("You have already submitted a move for this round"))
      else
        var newRound := if player == 1 then (Some(m), current.1) else (current.0, Some(m));
        var placed := State(s.rounds[idx := newRound]);
        assert placed.rounds == s.rounds[..idx] + [newRound];
        if newRound.0.Some? && newRound.1.Some? && !IsFinished(placed) then
          Ok(State(placed.rounds + [(None, None)]))
        else
          Ok(placed)
  }

  /** The mover's slot of the current round is already filled. */
  predicate SlotTaken(s: State, player: int)
    requires |s.rounds| > 0
  {
    if player == 1 then s.rounds[|s.rounds| - 1].0.Some? else s.rounds[|s.rounds| - 1].1.Some?
  }

  /**
   * The shape every reachable state has: at least one round, every round
   * but the last complete, the game decided (if at all) by the last round
   * only, and the last round complete exactly when the game is over.
   */
  predicate WellFormed(s: State)
  {
    && |s.rounds| > 0
    && (forall i :: 0 <= i < |s.rounds| - 1 ==> Complete(s.rounds[i]))
    && !IsFinished(State(s.rounds[..|s.rounds| - 1]))
    && (IsFinished(s) <==> Complete(s.rounds[|s.rounds| - 1]))
  }

  lemma NewWellFormed()
    ensures WellFormed(New())
  {
    assert New().rounds[..0] == [];
  }

  /** An accepted move keeps the state well formed and the scores at most 2. */
  lemma UpdatePreservesWellFormed(s: State, player: int, m: RpsMove)
    requires WellFormed(s)
    requires Update(s, player, m).Ok?
    ensures WellFormed(Update(s, player, m).value)
    ensures Tally(Update(s, player, m).value.rounds).0 <= 2
    ensures Tally(Update(s, player, m).value.rounds).1 <= 2
  {
    var idx := |s.rounds| - 1;
    var front := s.rounds[..idx];
    var nr := Filled(s.rounds[idx], player, m);
    assert s.rounds == front + [s.rounds[idx]];
    TallyAppendIncomplete(front, s.rounds[idx]);
    TallySnoc(front, nr);
    if Complete(nr) && !IsFinished(State(front + [nr])) {
      OpenRoundWellFormed(front, nr);
    } else {
      if !Complete(nr) {
        TallyAppendIncomplete(front, nr);
      }
      LastRoundWellFormed(front, nr);
    }
  }

  /** A completed round that does not decide the game, followed by a fresh round. */
  lemma OpenRoundWellFormed(front: seq<Round>, nr: Round)
    requires forall i :: 0 <= i < |front| ==> Complete(front[i])
    requires Complete(nr) && !IsFinished(State(front + [nr]))
    ensures WellFormed(State(front + [nr, (None, None)]))
    ensures Tally(front + [nr, (None, None)]).0 < 2 && Tally(front + [nr, (None, None)]).1 < 2
  {
    var rs := front + [nr, (None, None)];
    assert rs == (front + [nr]) + [(None, None)];
    TallyAppendIncomplete(front + [nr], (None, None));
    assert rs[..|rs| - 1] == front + [nr];
  }

  /** The filled round is the last one, and it is complete exactly when the game is over. */
  lemma LastRoundWellFormed(front: seq<Round>, nr: Round)
    requires forall i :: 0 <= i < |front| ==> Complete(front[i])
    requires !IsFinished(State(front))
    requires IsFinished(State(front + [nr])) <==> Complete(nr)
    requires Tally(front + [nr]).0 <= Tally(front).0 + 1 && Tally(front + [nr]).1 <= Tally(front).1 + 1
    ensures WellFormed(State(front + [nr]))
    ensures Tally(front + [nr]).0 <= 2 && Tally(front + [nr]).1 <= 2
  {
    assert (front + [nr])[..|front|] == front;
  }

  /** Both players' moves give the same state whichever of them moves first. */
  lemma MoveOrderIrrelevant(s: State, m1: RpsMove, m2: RpsMove)
    requires |s.rounds| > 0
    requires Update(s, 1, m1).Ok? && Update(s, 2, m2).Ok?
    requires Update(Update(s, 1, m1).value, 2, m2).Ok?
    requires Update(Update(s, 2, m2).value, 1, m1).Ok?
    ensures Update(Update(s, 1, m1).value, 2, m2) == Update(Update(s, 2, m2).value, 1, m1)
  {
    var idx := |s.rounds| - 1;
    var front := s.rounds[..idx];
    assert !Complete(s.rounds[idx]);
    var a := Update(s, 1, m1).value;
    var b := Update(s, 2, m2).value;
    assert a.rounds == front + [(Some(m1), None)];
    assert b.rounds == front + [(None, Some(m2))];
    assert a.rounds[..idx] == front && b.rounds[..idx] == front;
  }

  /** k complete rounds in which both players showed rock. */
  function Draws(k: nat): (r: seq<Round>)
    ensures |r| == k
  {
    seq(k, i => (Some(Rock), Some(Rock)))
  }

  lemma {:induction false} DrawsTally(k: nat)
    ensures Tally(Draws(k)) == (0, 0)
  {
    if k > 0 {
      assert Draws(k)[..k - 1] == Draws(k - 1);
      DrawsTally(k - 1);
    }
  }

  /**
   * After k rounds in which both players showed rock the state has k + 1
   * rounds, nobody has scored and the game goes on; one more such round
   * gives the state for k + 1.
   */
  lemma DrawnRoundsStep(k: nat)
    ensures var s := State(Draws(k) + [(None, None)]);
      && |s.rounds| == k + 1 && Tally(s.rounds) == (0, 0) && !IsFinished(s)
      && Update(s, 1, Rock).Ok?
      && Update(Update(s, 1, Rock).value, 2, Rock) == Ok(State(Draws(k + 1) + [(None, None)]))
  {
    var s := State(Draws(k) + [(None, None)]);
    DrawsTally(k);
    DrawsTally(k + 1);
    TallyAppendIncomplete(Draws(k), (None, None));
    assert s.rounds[..k] == Draws(k);
    var a := Update(s, 1, Rock);
    assert a.Ok?;
    assert a.value.rounds == Draws(k) + [(Some(Rock), None)];
    TallyAppendIncomplete(Draws(k), (Some(Rock), None));
    assert !IsFinished(a.value);
    assert a.value.rounds[..k] == Draws(k);
    assert Draws(k) + [(Some(Rock), Some(Rock))] == Draws(k + 1);
    TallyAppendIncomplete(Draws(k + 1), (None, None));
    assert |a.value.rounds| - 1 == k;
    assert Filled(a.value.rounds[k], 2, Rock) == (Some(Rock), Some(Rock));
    assert !IsFinished(State(Draws(k + 1)));
    var nr := (Some(Rock), Some(Rock));
    assert a.value.rounds[..k] + [nr] == Draws(k + 1);
    assert a.value.rounds[..k] + [nr, (None, None)] == Draws(k + 1) + [(None, None)];
    var b := Update(a.value, 2, Rock);
    assert b == Ok(State(Draws(k + 1) + [(None, None)]));
  }
}
