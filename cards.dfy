/**
 * Cards, the shared Deck and each player's Hand. A card is a plain tag; the
 * Deck draws at an index chosen by std::rand() and the Hand is a stack.
 * The functions on card sequences specify the Deck and Hand methods and are
 * also what the game engine applies to its deck and to the hands held in its
 * player records.
 */
module Cards {
  import opened Wrappers

  datatype CardType = Bomb | Reinforcement | Blockade | Airlift | Diplomacy

  /** The five cards, one of each type, that a new Deck holds. */
  function NewDeckCards(): (cards: seq<CardType>)
    ensures |cards| == 5
  {
    [Bomb, Reinforcement, Blockade, Airlift, Diplomacy]
  }

  /** The new deck holds exactly one card of each type. */
  lemma NewDeckOneOfEach(t: CardType)
    ensures multiset(NewDeckCards())[t] == 1
  {
    var d := NewDeckCards();
    assert d == [Bomb] + [Reinforcement] + [Blockade] + [Airlift] + [Diplomacy];
    assert multiset(d) == multiset{Bomb} + multiset{Reinforcement} + multiset{Blockade} + multiset{Airlift} + multiset{Diplomacy};
  }

  /**
   * Deck::draw with `rand` standing for the value of std::rand(): nothing on
   * an empty deck; otherwise the card at rand % size comes out and the other
   * cards close up in order.
   */
  function DeckDraw(cards: seq<CardType>, rand: nat): (r: (Option<CardType>, seq<CardType>))
    ensures |cards| == 0 ==> r.0 == None && r.1 == cards
    ensures |cards| > 0 ==> r.0 == Some(cards[rand % |cards|]) && |r.1| == |cards| - 1
    ensures |cards| > 0 ==> forall j :: 0 <= j < |r.1| ==>
      r.1[j] == (if j < rand % |cards| then cards[j] else cards[j + 1])
    ensures |cards| > 0 ==> multiset(r.1) + multiset{r.0.value} == multiset(cards)
  {
    if |cards| == 0 then (None, cards)
    else
      var i := rand % |cards|;
      assert cards == cards[..i] + [cards[i]] + cards[i + 1..];
      (Some(cards[i]), cards[..i] + cards[i + 1..])
  }

  /** How many values of std::rand() Deck::draw consumes: none on an empty deck. */
  function RandCalls(cards: seq<CardType>): nat {
    if cards == [] then 0 else 1
  }

  /**
   * Hand::draw: the most recently added entry, or nothing from an empty
   * hand. A hand entry is None where the hand was given a null card
   * (Hand::addCard does not refuse one), and drawing it gives nothing too.
   */
  function HandDraw(cards: seq<Option<CardType>>): (r: (Option<CardType>, seq<Option<CardType>>))
    ensures |cards| == 0 ==> r.0 == None && r.1 == cards
    ensures |cards| > 0 ==> r.0 == cards[|cards| - 1] && r.1 + [r.0] == cards
  {
    if |cards| == 0 then (None, cards) else (cards[|cards| - 1], cards[..|cards| - 1])
  }

  /** Drawing from a hand gives back the card that was added last, and the hand it was added to. */
  lemma HandIsStack(cards: seq<Option<CardType>>, c: Option<CardType>)
    ensures HandDraw(cards + [c]) == (c, cards)
  {
    assert (cards + [c])[..|cards|] == cards;
  }

  /** Drawing the last index of a deck gives back the card that was added last. */
  lemma DeckDrawAfterAdd(cards: seq<CardType>, c: CardType)
    ensures DeckDraw(cards + [c], |cards|) == (Some(c), cards)
  {
    var d := cards + [c];
    assert |cards| % |d| == |cards|;
    var r := DeckDraw(d, |cards|);
    assert r.0 == Some(c);
    assert forall j :: 0 <= j < |r.1| ==> r.1[j] == cards[j];
    assert r.1 == cards;
  }

  class Deck {
    var cards: seq<CardType>

    /** A new deck holds one card of each type. */
    constructor ()
      ensures cards == NewDeckCards()
    {
      cards := NewDeckCards();
    }

    /** Copy construction copies every card. */
    constructor Copy(other: Deck)
      ensures cards == other.cards
    {
      cards := other.cards;
    }

    /** Deck::operator=: appends the other deck's cards without clearing these. */
    method Assign(other: Deck)
      modifies this
      ensures other == this ==> cards == old(cards)
      ensures other != this ==> cards == old(cards) + other.cards
    {
      if other != this {
        cards := cards + other.cards;
      }
    }

    method Draw(rand: nat) returns (card: Option<CardType>)
      modifies this
      ensures (card, cards) == DeckDraw(old(cards), rand)
    {
      if |cards| == 0 {
        card := None;
        return;
      }
      var index := rand % |cards|;
      card := Some(cards[index]);
      cards := cards[..index] + cards[index + 1..];
    }

    method AddCard(card: CardType)
      modifies this
      ensures cards == old(cards) + [card]
    {
      cards := cards + [card];
    }

    /** Deck::deckSize converts the size to bool: true iff the deck is not empty. */
    function DeckSize(): (nonEmpty: bool)
      reads this
      ensures nonEmpty <==> cards != []
    {
      |cards| != 0
    }
  }

  class Hand {
    /** The cards, the top of the stack last; None stands for a null card pointer. */
    var cards: seq<Option<CardType>>

    constructor ()
      ensures cards == []
    {
      cards := [];
    }

    constructor Copy(other: Hand)
      ensures cards == other.cards
    {
      cards := other.cards;
    }

    /** Hand::operator=: appends the other hand's cards without clearing these. */
    method Assign(other: Hand)
      modifies this
      ensures other == this ==> cards == old(cards)
      ensures other != this ==> cards == old(cards) + other.cards
    {
      if other != this {
        cards := cards + other.cards;
      }
    }

    method Draw() returns (card: Option<CardType>)
      modifies this
      ensures (card, cards) == HandDraw(old(cards))
    {
      if |cards| == 0 {
        card := None;
        return;
      }
      card := cards[|cards| - 1];
      cards := cards[..|cards| - 1];
    }

    /** Hand::addCard pushes whatever it is given, a null card included. */
    method AddCard(card: Option<CardType>)
      modifies this
      ensures cards == old(cards) + [card]
    {
      cards := cards + [card];
    }

    /** Hand::handSize converts the size to bool: true iff the hand is not empty. */
    function HandSize(): (nonEmpty: bool)
      reads this
      ensures nonEmpty <==> cards != []
    {
      |cards| != 0
    }
  }
}
