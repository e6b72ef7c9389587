/**
 * The server's Briscola engine: dealing from a shuffled deck, playing a
 * card, resolving a trick and drawing replacement cards. Each operation
 * works on its own copy of the state, as the engine does.
 */
module BriscolaEngine {
  import opened Wrappers
  import opened GameErrors
  import opened Briscola

  /** The order in which the deck is built, before shuffling. */
  const SuitOrder: seq<Suit> := [Bastoni, Coppe, Denari, Spade]
  const RankOrder: seq<Rank> := [Ace, Two, Three, Four, Five, Six, Seven, Jack, Knight, King]

  /** The 40 cards, suit by suit, in the order the deck is built. */
  function FullDeck(): (d: seq<Card>)
    ensures |d| == 40
  {
    seq(40, i requires 0 <= i < 40 => Card(SuitOrder[i / 10], RankOrder[i % 10]))
  }

  /** Every card is in the deck. */
  lemma FullDeckComplete(c: Card)
    ensures c in FullDeck()
  {
    var si := match c.suit case Bastoni => 0 case Coppe => 1 case Denari => 2 case Spade => 3;
    var ri := match c.rank
      case Ace => 0 case Two => 1 case Three => 2 case Four => 3 case Five => 4
      case Six => 5 case Seven => 6 case Jack => 7 case Knight => 8 case King => 9;
    assert FullDeck()[10 * si + ri] == c;
  }

  /** No card is in the deck twice. */
  lemma FullDeckDistinct(i: nat, j: nat)
    requires i < j < 40
    ensures FullDeck()[i] != FullDeck()[j]
  {
    assert i / 10 != j / 10 || i % 10 != j % 10;
  }

  /**
   * Builds the unshuffled deck: for each suit in turn, one card of every
   * rank.
   */
  method CreateDeck() returns (deck: seq<Card>)
    ensures deck == FullDeck()
  {
    deck := [];
    for si := 0 to 4
      invariant deck == FullDeck()[..10 * si]
    {
      for ri := 0 to 10
        invariant deck == FullDeck()[..10 * si + ri]
      {
        deck := deck + [Card(SuitOrder[si], RankOrder[ri])];
        assert FullDeck()[10 * si + ri] == Card(SuitOrder[si], RankOrder[ri]);
        assert FullDeck()[..10 * si + ri + 1] == FullDeck()[..10 * si + ri] + [FullDeck()[10 * si + ri]];
      }
    }
  }

  /** The cards lying on the table. */
  function TableCards(t: seq<(Card, int)>): (r: seq<Card>)
    ensures |r| == |t| && forall i :: 0 <= i < |t| ==> r[i] == t[i].0
  {
    seq(|t|, i requires 0 <= i < |t| => t[i].0)
  }

  function TrumpBag(t: Option<Card>): multiset<Card>
  {
    if t.Some? then multiset{t.value} else multiset{}
  }

  /** Every card of the game, wherever it lies: both hands, the table, the deck, the trump card, both piles. */
  function AllCards(s: State): multiset<Card>
  {
    multiset(s.player1Hand) + multiset(s.player2Hand) + multiset(TableCards(s.table))
      + multiset(s.deck) + TrumpBag(s.trumpCard) + multiset(s.player1Pile) + multiset(s.player2Pile)
  }

  /** The table holds as many cards as the round state says have been played. */
  predicate TableMatchesRound(s: State)
  {
    (s.roundState == AwaitingFirstCard ==> |s.table| == 0)
    && (s.roundState == AwaitingSecondCard ==> |s.table| == 1)
  }

  /**
   * Deals a new game from a shuffled deck: three cards to player 1, then
   * three to player 2, each taken from the end of the deck, then the next
   * card becomes the trump card and fixes the trump suit. 33 cards remain.
   */
  method New(shuffled: seq<Card>) returns (s: State)
    requires |shuffled| == 40 && multiset(shuffled) == multiset(FullDeck())
    ensures s.player1Hand == [shuffled[39], shuffled[38], shuffled[37]]
    ensures s.player2Hand == [shuffled[36], shuffled[35], shuffled[34]]
    ensures s.trumpCard == Some(shuffled[33]) && s.briscolaSuit == shuffled[33].suit
    ensures s.deck == shuffled[..33] && s.cardsRemainingInDeck == 33
    ensures s.table == [] && s.player1Pile == [] && s.player2Pile == []
    ensures s.currentPlayer == 1 && s.roundState == AwaitingFirstCard && s.previousRound.None?
    ensures AllCards(s) == multiset(FullDeck())
    ensures TableMatchesRound(s) && !IsFinished(s)
  {
    var deck := shuffled;
    var hand1: seq<Card> := [];
    var hand2: seq<Card> := [];
    for k := 0 to 3
      invariant deck == shuffled[..40 - k]
      invariant |hand1| == k && forall i :: 0 <= i < k ==> hand1[i] == shuffled[39 - i]
    {
      hand1 := hand1 + [deck[|deck| - 1]];
      deck := deck[..|deck| - 1];
    }
    for k := 0 to 3
      invariant deck == shuffled[..37 - k]
      invariant |hand2| == k && forall i :: 0 <= i < k ==> hand2[i] == shuffled[36 - i]
    {
      hand2 := hand2 + [deck[|deck| - 1]];
      deck := deck[..|deck| - 1];
    }
    var trump := deck[|deck| - 1];
    deck := deck[..|deck| - 1];
    assert hand1 == [shuffled[39], shuffled[38], shuffled[37]];
    assert hand2 == [shuffled[36], shuffled[35], shuffled[34]];
    s := State(hand1, hand2, [], deck, |deck|, Some(trump), trump.suit, [], [], 1, AwaitingFirstCard, None);
    DealKeepsCards(shuffled, s);
  }

  lemma DealKeepsCards(shuffled: seq<Card>, s: State)
    requires |shuffled| == 40
    requires s.player1Hand == [shuffled[39], shuffled[38], shuffled[37]]
    requires s.player2Hand == [shuffled[36], shuffled[35], shuffled[34]]
    requires s.trumpCard == Some(shuffled[33]) && s.deck == shuffled[..33]
    requires s.table == [] && s.player1Pile == [] && s.player2Pile == []
    ensures AllCards(s) == multiset(shuffled)
  {
    var tail := shuffled[33..];
    assert shuffled == shuffled[..33] + tail;
    assert tail == [shuffled[33]] + [shuffled[34], shuffled[35], shuffled[36]] + [shuffled[37], shuffled[38], shuffled[39]];
    assert multiset(tail) == multiset([shuffled[33]]) + multiset([shuffled[34], shuffled[35], shuffled[36]])
      + multiset([shuffled[37], shuffled[38], shuffled[39]]);
    ReversedThree(shuffled[34], shuffled[35], shuffled[36]);
    ReversedThree(shuffled[37], shuffled[38], shuffled[39]);
    assert TableCards([]) == [];
  }

  lemma ReversedThree(a: Card, b: Card, c: Card)
    ensures multiset([a, b, c]) == multiset([c, b, a])
  {
    calc {
      multiset([a, b, c]);
      multiset{a} + multiset{b} + multiset{c};
      multiset([c, b, a]);
    }
  }

  /** The strength order of ranks used to compare two cards. */
  function RankValue(r: Rank): (v: nat)
    ensures 2 <= v <= 11
  {
    match r
    case Ace => 11
    case Three => 10
    case King => 9
    case Knight => 8
    case Jack => 7
    case Seven => 6
    case Six => 5
    case Five => 4
    case Four => 3
    case Two => 2
  }

  /** Distinct ranks have distinct strengths, so two cards of one suit never tie. */
  lemma RankValueInjective(a: Rank, b: Rank)
    requires RankValue(a) == RankValue(b)
    ensures a == b
  {
  }

  /** The other player; any symbol but 1 counts as player 2. */
  function Other(p: int): int
  {
    if p == 1 then 2 else 1
  }

  /**
   * The player who takes the trick. Two trumps, or two cards of one
   * non-trump suit, go by rank strength, a tie going to the second player;
   * a lone trump wins; otherwise the card led wins.
   */
  function DetermineRoundWinner(first: Card, second: Card, trump: Suit, firstPlayer: int): (w: int)
    ensures first.suit == trump && second.suit == trump ==>
      w == (if RankValue(first.rank) > RankValue(second.rank) then firstPlayer else Other(firstPlayer))
    ensures first.suit == trump && second.suit != trump ==> w == firstPlayer
    ensures first.suit != trump && second.suit == trump ==> w == Other(firstPlayer)
    ensures first.suit != trump && second.suit != trump && first.suit == second.suit ==>
      w == (if RankValue(first.rank) > RankValue(second.rank) then firstPlayer else Other(firstPlayer))
    ensures first.suit != trump && second.suit != trump && first.suit != second.suit ==> w == firstPlayer
  {
    var firstIsTrump := first.suit == trump;
    var secondIsTrump := second.suit == trump;
    if firstIsTrump && secondIsTrump then
      (if RankValue(first.rank) > RankValue(second.rank) then firstPlayer
       else if firstPlayer == 1 then 2 else 1)
    else if firstIsTrump then firstPlayer
    else if secondIsTrump then (if firstPlayer == 1 then 2 else 1)
    else if first.suit == second.suit then
      (if RankValue(first.rank) > RankValue(second.rank) then firstPlayer
       else if firstPlayer == 1 then 2 else 1)
    else firstPlayer
  }

  /**
   * How strongly a card holds a trick led in suit `lead`: any trump beats
   * any card of the suit led, which beats any other card; within a class
   * the rank strength decides.
   */
  function TrickStrength(c: Card, lead: Suit, trump: Suit): nat
  {
    (if c.suit == trump then 20 else if c.suit == lead then 10 else 0) + RankValue(c.rank)
  }

  /** For two different cards the trick goes to the holder of the stronger one. */
  lemma WinnerHoldsStrongerCard(first: Card, second: Card, trump: Suit, firstPlayer: int)
    requires first != second
    ensures DetermineRoundWinner(first, second, trump, firstPlayer)
      == if TrickStrength(first, first.suit, trump) > TrickStrength(second, first.suit, trump)
         then firstPlayer else Other(firstPlayer)
  {
    if first.suit == second.suit && RankValue(first.rank) == RankValue(second.rank) {
      RankValueInjective(first.rank, second.rank);
    }
  }

  /** `c` added to the end of `player`'s hand (player 1, or else player 2). */
  function GiveCard(s: State, player: int, c: Card): State
  {
    if player == 1 then s.(player1Hand := s.player1Hand + [c])
    else s.(player2Hand := s.player2Hand + [c])
  }

  /** Some card can still be drawn. */
  predicate CanDraw(s: State)
  {
    s.deck != [] || s.trumpCard.Some?
  }

  /**
   * One draw: the deck's last card while the deck lasts, then the trump
   * card, then nothing. The counter is reset to the deck size after a draw.
   */
  function Drawn(s: State, player: int): State
  {
    if s.deck != [] then
      GiveCard(s.(deck := s.deck[..|s.deck| - 1], cardsRemainingInDeck := |s.deck| - 1), player, s.deck[|s.deck| - 1])
    else if s.trumpCard.Some? then
      GiveCard(s.(trumpCard := None, cardsRemainingInDeck := 0), player, s.trumpCard.value)
    else s
  }

  method DrawCardToPlayer(s: State, player: int) returns (t: State)
    ensures t == Drawn(s, player)
    ensures AllCards(t) == AllCards(s)
    ensures CanDraw(s) ==> t.cardsRemainingInDeck == |t.deck|
  {
    t := s;
    var cardToDraw: Option<Card>;
    if t.deck != [] {
      cardToDraw := Some(t.deck[|t.deck| - 1]);
      t := t.(deck := t.deck[..|t.deck| - 1]);
    } else if t.trumpCard.Some? {
      cardToDraw := t.trumpCard;
      t := t.(trumpCard := None);
    } else {
      cardToDraw := None;
    }
    if cardToDraw.Some? {
      if player == 1 {
        t := t.(player1Hand := t.player1Hand + [cardToDraw.value]);
      } else {
        t := t.(player2Hand := t.player2Hand + [cardToDraw.value]);
      }
      t := t.(cardsRemainingInDeck := |t.deck|);
    }
    DrawnKeepsCards(s, player);
  }

  lemma GiveCardAdds(s: State, player: int, c: Card)
    ensures AllCards(GiveCard(s, player, c)) == AllCards(s) + multiset{c}
  {
  }

  /** A draw leaves the table alone. */
  lemma DrawnKeepsTable(s: State, player: int)
    ensures Drawn(s, player).table == s.table
  {
  }

  lemma DrawnKeepsCards(s: State, player: int)
    ensures AllCards(Drawn(s, player)) == AllCards(s)
  {
    if s.deck != [] {
      var rest := s.deck[..|s.deck| - 1];
      var c := s.deck[|s.deck| - 1];
      assert s.deck == rest + [c];
      var s1 := s.(deck := rest, cardsRemainingInDeck := |rest|);
      assert AllCards(s1) + multiset{c} == AllCards(s);
      GiveCardAdds(s1, player, c);
    } else if s.trumpCard.Some? {
      var s1 := s.(trumpCard := None, cardsRemainingInDeck := 0);
      assert AllCards(s1) + multiset{s.trumpCard.value} == AllCards(s);
      GiveCardAdds(s1, player, s.trumpCard.value);
    }
  }

  /** The trick's two cards taken into the winner's pile and the table cleared. */
  function Collected(s: State): State
    requires |s.table| >= 2
  {
    var (c1, fp) := s.table[0];
    var c2 := s.table[1].0;
    var w := DetermineRoundWinner(c1, c2, s.briscolaSuit, fp);
    var awarded :=
      if w == 1 then s.(player1Pile := s.player1Pile + [c1, c2])
      else s.(player2Pile := s.player2Pile + [c1, c2]);
    awarded.(previousRound := Some((c1, c2, w)), table := [])
  }

  /** The replacement draws after a trick: the winner first, then the other player. */
  function AfterDraws(s: State, winner: int): State
  {
    if CanDraw(s) then
      var once := Drawn(s, winner);
      if CanDraw(once) then Drawn(once, Other(winner)) else once
    else s
  }

  /** The whole effect of resolving the trick on the table. */
  function Resolved(s: State): State
    requires |s.table| >= 2
  {
    var w := DetermineRoundWinner(s.table[0].0, s.table[1].0, s.briscolaSuit, s.table[0].1);
    AfterDraws(Collected(s), w).(currentPlayer := w, roundState := AwaitingFirstCard)
  }

  method ResolveRound(s: State) returns (t: State)
    requires |s.table| >= 2
    ensures t == Resolved(s)
  {
    t := s;
    var (firstCard, firstPlayer) := t.table[0];
    var (secondCard, _) := t.table[1];
    var trumpSuit := t.briscolaSuit;
    var roundWinner := DetermineRoundWinner(firstCard, secondCard, trumpSuit, firstPlayer);
    t := t.(previousRound := Some((firstCard, secondCard, roundWinner)));
    if roundWinner == 1 {
      t := t.(player1Pile := t.player1Pile + [firstCard]);
      t := t.(player1Pile := t.player1Pile + [secondCard]);
    } else {
      t := t.(player2Pile := t.player2Pile + [firstCard]);
      t := t.(player2Pile := t.player2Pile + [secondCard]);
    }
    t := t.(table := []);
    assert t == Collected(s);
    t := DrawAfterTrick(t, roundWinner);
    t := t.(currentPlayer := roundWinner, roundState := AwaitingFirstCard);
  }

  /** The replacement draws of a trick, while cards remain: the winner first, then the other player. */
  method DrawAfterTrick(s: State, winner: int) returns (t: State)
    ensures t == AfterDraws(s, winner)
  {
    t := s;
    if t.deck != [] || t.trumpCard.Some? {
      t := DrawCardToPlayer(t, winner);
      if t.deck != [] || t.trumpCard.Some? {
        var otherPlayer := if winner == 1 then 2 else 1;
        t := DrawCardToPlayer(t, otherPlayer);
      }
    }
  }

  /** `player`'s hand (player 1, or else player 2). */
  function HandOf(s: State, player: int): seq<Card>
  {
    if player == 1 then s.player1Hand else s.player2Hand
  }

  /** The card at `index` moved from the mover's hand to the end of the table. */
  function Played(s: State, player: int, index: nat): State
    requires index < |HandOf(s, player)|
  {
    var hand := HandOf(s, player);
    var rest := hand[..index] + hand[index + 1..];
    var removed := if player == 1 then s.(player1Hand := rest) else s.(player2Hand := rest);
    removed.(table := s.table + [(hand[index], player)])
  }

  /**
   * Plays a card. Rejections, in order: a finished game, a player other
   * than 1 and 2, the wrong turn, an index past the end of the mover's
   * hand. The card leaves the hand and lands on the table; a first card
   * passes the turn, a second card resolves the trick.
   */
  method Update(s: State, player: int, m: BriscolaMove) returns (r: Result<State, GameError>)
    requires s.roundState == AwaitingSecondCard ==> |s.table| >= 1
    ensures IsFinished(s) ==> r == Err(GameNotInProgress)
    ensures !IsFinished(s) && player != 1 && player != 2 ==> r == Err(InvalidPlayer)
    ensures !IsFinished(s) && (player == 1 || player == 2) && s.currentPlayer != player ==>
      r == Err(WrongTurn)
    ensures MayPlay(s, player) && m.cardIndex >= |HandOf(s, player)| ==>
      r == Err(IllegalMove("Invalid card index"))
    ensures r.Ok? <==> (MayPlay(s, player) && m.cardIndex < |HandOf(s, player)|)
    ensures r.Ok? && s.roundState == AwaitingFirstCard ==>
      r.value == Played(s, player, m.cardIndex).(roundState := AwaitingSecondCard, currentPlayer := Other(player))
    ensures r.Ok? && s.roundState == AwaitingSecondCard ==>
      r.value == Resolved(Played(s, player, m.cardIndex))
    ensures r.Ok? && TableMatchesRound(s) ==> TableMatchesRound(r.value) && AllCards(r.value) == AllCards(s)
  {
    if IsFinished(s) {
      return Err(GameNotInProgress);
    }
    if player != 1 && player != 2 {
      return Err(InvalidPlayer);
    }
    if s.currentPlayer != player {
      return Err(WrongTurn);
    }
    var cardIndex := m.cardIndex;
    var hand := if player == 1 then s.player1Hand else s.player2Hand;
    if cardIndex >= |hand| {
      return Err(IllegalMove("Invalid card index"));
    }
    var card := hand[cardIndex];
    var newState := s;
    if player == 1 {
      newState := newState.(player1Hand := newState.player1Hand[..cardIndex] + newState.player1Hand[cardIndex + 1..]);
    } else {
      newState := newState.(player2Hand := newState.player2Hand[..cardIndex] + newState.player2Hand[cardIndex + 1..]);
    }
    newState := newState.(table := newState.table + [(card, player)]);
    assert newState == Played(s, player, cardIndex);
    PlayedKeepsCards(s, player, cardIndex);
    match s.roundState {
      case AwaitingFirstCard =>
        newState := newState.(roundState := AwaitingSecondCard, currentPlayer := if player == 1 then 2 else 1);
      case AwaitingSecondCard =>
        newState := ResolveRound(newState);
        if TableMatchesRound(s) {
          ResolvedKeepsCards(Played(s, player, cardIndex));
        }
    }
    return Ok(newState);
  }

  /** A valid player whose turn it is in a game still in progress. */
  predicate MayPlay(s: State, player: int)
  {
    !IsFinished(s) && (player == 1 || player == 2) && s.currentPlayer == player
  }

  lemma PlayedKeepsCards(s: State, player: int, index: nat)
    requires index < |HandOf(s, player)|
    ensures AllCards(Played(s, player, index)) == AllCards(s)
  {
    var hand := HandOf(s, player);
    assert hand == hand[..index] + [hand[index]] + hand[index + 1..];
    assert TableCards(s.table + [(hand[index], player)]) == TableCards(s.table) + [hand[index]];
  }

  lemma CollectedKeepsCards(s: State)
    requires |s.table| == 2
    ensures AllCards(Collected(s)) == AllCards(s)
  {
    assert TableCards(s.table) == [s.table[0].0, s.table[1].0];
    assert TableCards([]) == [];
  }

  lemma ResolvedKeepsCards(s: State)
    requires |s.table| == 2
    ensures AllCards(Resolved(s)) == AllCards(s)
    ensures |Resolved(s).table| == 0
  {
    CollectedKeepsCards(s);
    var w := DetermineRoundWinner(s.table[0].0, s.table[1].0, s.briscolaSuit, s.table[0].1);
    var c := Collected(s);
    AfterDrawsKeepsCards(c, w);
    var t := AfterDraws(c, w);
    assert Resolved(s) == t.(currentPlayer := w, roundState := AwaitingFirstCard);
  }

  /** The draws after a trick move cards from the deck to the hands and leave the table alone. */
  lemma AfterDrawsKeepsCards(s: State, w: int)
    ensures AllCards(AfterDraws(s, w)) == AllCards(s)
    ensures AfterDraws(s, w).table == s.table
  {
    if CanDraw(s) {
      DrawnKeepsCards(s, w);
      DrawnKeepsTable(s, w);
      var once := Drawn(s, w);
      if CanDraw(once) {
        DrawnKeepsCards(once, Other(w));
        DrawnKeepsTable(once, Other(w));
        assert AfterDraws(s, w) == Drawn(once, Other(w));
      } else {
        assert AfterDraws(s, w) == once;
      }
    }
  }

  /**
   * Resolving a trick: both table cards go, in play order, to the pile of
   * the player who took the trick, the table is cleared, the result is
   * remembered, and the trick winner leads the next round.
   */
  lemma ResolvedPiles(s: State)
    requires |s.table| >= 2
    ensures var w := DetermineRoundWinner(s.table[0].0, s.table[1].0, s.briscolaSuit, s.table[0].1);
      var t := Resolved(s);
      && (w == 1 ==> t.player1Pile == s.player1Pile + [s.table[0].0, s.table[1].0] && t.player2Pile == s.player2Pile)
      && (w != 1 ==> t.player2Pile == s.player2Pile + [s.table[0].0, s.table[1].0] && t.player1Pile == s.player1Pile)
      && t.table == [] && t.currentPlayer == w && t.roundState == AwaitingFirstCard
      && t.previousRound == Some((s.table[0].0, s.table[1].0, w))
  {
  }

  /**
   * The draws after a trick: the winner takes the deck's last card and the
   * other player the card before it; the trump card is handed out only
   * once the deck is empty; the counter always equals the deck size.
   */
  lemma DrawOrder(s: State, w: int)
    requires w == 1 || w == 2
    ensures var t := AfterDraws(s, w);
      && (|s.deck| >= 2 ==>
            HandOf(t, w) == HandOf(s, w) + [s.deck[|s.deck| - 1]]
            && HandOf(t, Other(w)) == HandOf(s, Other(w)) + [s.deck[|s.deck| - 2]]
            && t.deck == s.deck[..|s.deck| - 2] && t.trumpCard == s.trumpCard)
      && (|s.deck| == 1 && s.trumpCard.Some? ==>
            HandOf(t, w) == HandOf(s, w) + [s.deck[0]]
            && HandOf(t, Other(w)) == HandOf(s, Other(w)) + [s.trumpCard.value]
            && t.deck == [] && t.trumpCard.None?)
      && (|s.deck| == 0 && s.trumpCard.Some? ==>
            HandOf(t, w) == HandOf(s, w) + [s.trumpCard.value]
            && HandOf(t, Other(w)) == HandOf(s, Other(w)) && t.trumpCard.None?)
      && (CanDraw(s) ==> t.cardsRemainingInDeck == |t.deck|)
      && (!CanDraw(s) ==> t == s)
  {
    if |s.deck| >= 2 {
      assert s.deck[..|s.deck| - 1][..|s.deck| - 2] == s.deck[..|s.deck| - 2];
    }
  }
}
