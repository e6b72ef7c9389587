/**
 * Briscola, the 40-card Italian trick game: cards, the game state shared
 * by server and client, scoring, the end-of-game test and the per-viewer
 * redaction that hides the opponent's hand and the deck.
 */
module Briscola {
  import opened Wrappers

  datatype Suit = Bastoni | Coppe | Denari | Spade

  /** Declared from weakest to strongest in points. */
  datatype Rank = Two | Four | Five | Six | Seven | Jack | Knight | King | Three | Ace

  datatype Card = Card(suit: Suit, rank: Rank)

  datatype CardView = Visible(card: Card) | Hidden

  datatype BriscolaMove = PlayCard(cardIndex: nat)

  datatype RoundState = AwaitingFirstCard | AwaitingSecondCard

  /**
   * The game state. `briscolaSuit` and `previousRound` are the two fields
   * the server engine reads and writes beyond the common struct.
   */
  datatype State = State(
    player1Hand: seq<Card>,
    player2Hand: seq<Card>,
    table: seq<(Card, int)>,
    deck: seq<Card>,
    cardsRemainingInDeck: nat,
    trumpCard: Option<Card>,
    briscolaSuit: Suit,
    player1Pile: seq<Card>,
    player2Pile: seq<Card>,
    currentPlayer: int,
    roundState: RoundState,
    previousRound: Option<(Card, Card, int)>)

  /** The empty state used as a fallback and in tests. */
  function New(): (s: State)
    ensures s.player1Hand == [] && s.player2Hand == [] && s.table == [] && s.deck == []
    ensures s.cardsRemainingInDeck == 0 && s.trumpCard.None?
    ensures s.player1Pile == [] && s.player2Pile == []
    ensures s.currentPlayer == 1 && s.roundState == AwaitingFirstCard
  {
    State([], [], [], [], 0, None, Bastoni, [], [], 1, AwaitingFirstCard, None)
  }

  /** Points a card is worth at the end of the game. */
  function CardPoints(c: Card): (p: nat)
    ensures p <= 11
    ensures p > 0 <==> c.rank in {Jack, Knight, King, Three, Ace}
  {
    match c.rank
    case Ace => 11
    case Three => 10
    case King => 4
    case Knight => 3
    case Jack => 2
    case _ => 0
  }

  /** The point total of a pile. */
  function Points(pile: seq<Card>): nat
    decreases |pile|
  {
    if |pile| == 0 then 0 else Points(pile[..|pile| - 1]) + CardPoints(pile[|pile| - 1])
  }

  lemma {:induction false} PointsAppend(a: seq<Card>, b: seq<Card>)
    ensures Points(a + b) == Points(a) + Points(b)
    decreases |b|
  {
    if |b| == 0 {
      assert a + b == a;
    } else {
      assert (a + b)[..|a + b| - 1] == a + b[..|b| - 1];
      assert (a + b)[|a + b| - 1] == b[|b| - 1];
      PointsAppend(a, b[..|b| - 1]);
    }
  }

  lemma {:induction false} PointsBound(pile: seq<Card>)
    ensures Points(pile) <= 11 * |pile|
    decreases |pile|
  {
    if |pile| > 0 {
      PointsBound(pile[..|pile| - 1]);
    }
  }

  /** (player 1's points, player 2's points). */
  function GetScore(s: State): (r: (nat, nat))
    ensures r.0 == Points(s.player1Pile) && r.1 == Points(s.player2Pile)
  {
    (Points(s.player1Pile), Points(s.player2Pile))
  }

  /** Both hands, the deck and the trump card are exhausted; the table is not consulted. */
  predicate IsFinished(s: State)
  {
    s.player1Hand == [] && s.player2Hand == [] && s.deck == [] && s.trumpCard.None?
  }

  /** The strictly higher score wins a finished game; equal scores give no winner. */
  function GetWinner(s: State): (r: Option<int>)
    ensures !IsFinished(s) ==> r.None?
    ensures IsFinished(s) ==>
      (r == Some(1) <==> Points(s.player1Pile) > Points(s.player2Pile))
      && (r == Some(2) <==> Points(s.player2Pile) > Points(s.player1Pile))
      && (r.None? <==> Points(s.player1Pile) == Points(s.player2Pile))
  {
    if !IsFinished(s) then None
    else
      var (p1, p2) := GetScore(s);
      if p1 > p2 then Some(1) else if p2 > p1 then Some(2) else None
  }

  /**
   * What `viewer` may see: the opponent's hand and the deck are emptied,
   * everything else, including the deck count, is kept. Any viewer other
   * than 1 is treated as player 2.
   */
  function RedactForPlayer(s: State, viewer: int): (r: State)
    ensures r.deck == []
    ensures viewer == 1 ==> r.player1Hand == s.player1Hand && r.player2Hand == []
    ensures viewer != 1 ==> r.player2Hand == s.player2Hand && r.player1Hand == []
    ensures r.cardsRemainingInDeck == s.cardsRemainingInDeck && r.table == s.table
    ensures r.trumpCard == s.trumpCard && r.briscolaSuit == s.briscolaSuit
    ensures r.player1Pile == s.player1Pile && r.player2Pile == s.player2Pile
    ensures r.currentPlayer == s.currentPlayer && r.roundState == s.roundState
    ensures r.previousRound == s.previousRound
  {
    var hidden := if viewer == 1 then s.(player2Hand := []) else s.(player1Hand := []);
    hidden.(deck := [])
  }

  /** Redacting twice for the same viewer is redacting once. */
  lemma RedactIdempotent(s: State, viewer: int)
    ensures RedactForPlayer(RedactForPlayer(s, viewer), viewer) == RedactForPlayer(s, viewer)
  {
  }

  /** Redaction keeps the score a viewer sees. */
  lemma RedactKeepsScore(s: State, viewer: int)
    ensures GetScore(RedactForPlayer(s, viewer)) == GetScore(s)
  {
  }
}
