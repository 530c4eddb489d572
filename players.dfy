/**
 * Player.cpp: a player's owned territories, reinforcement pool, friends,
 * hand and order queue. A player is identified by its index in the game's
 * roster, which is what a territory's owner names. The player's Hand and
 * OrdersList are held as the sequences `cards` and `orders`, changed the way
 * Cards.Hand and Orders.OrdersList change theirs.
 */
module Players {
  import opened Wrappers
  import opened Board
  import opened Cards
  import opened Orders

  /** The PlayerStrategy a player delegates to. */
  datatype Strategy = Human | Aggressive | Benevolent | Neutral | Cheater

  predicate NoDup(s: seq<nat>) {
    forall i, j :: 0 <= i < j < |s| ==> s[i] != s[j]
  }

  /** std::find then erase: the first occurrence of x taken out. */
  function EraseFirst(s: seq<nat>, x: nat): (r: seq<nat>)
    ensures x !in s ==> r == s
    ensures x in s ==> |r| == |s| - 1
  {
    if s == [] then []
    else if s[0] == x then s[1..]
    else [s[0]] + EraseFirst(s[1..], x)
  }

  /** Erasing from a list without duplicates leaves exactly the other entries, still without duplicates. */
  lemma {:induction false} EraseFirstNoDup(s: seq<nat>, x: nat)
    requires NoDup(s)
    ensures NoDup(EraseFirst(s, x))
    ensures forall y :: y in EraseFirst(s, x) <==> y in s && y != x
  {
    if s != [] {
      assert s == [s[0]] + s[1..];
      assert NoDup(s[1..]) && s[0] !in s[1..];
      if s[0] != x {
        EraseFirstNoDup(s[1..], x);
        var r := EraseFirst(s, x);
        assert r == [s[0]] + EraseFirst(s[1..], x);
        forall i, j | 0 <= i < j < |r|
          ensures r[i] != r[j]
        {
          if i == 0 {
            assert r[j] in EraseFirst(s[1..], x);
          } else {
            assert r[i] == EraseFirst(s[1..], x)[i - 1] && r[j] == EraseFirst(s[1..], x)[j - 1];
          }
        }
      }
    }
  }

  /** The roster: player i of the game has index i. */
  predicate Roster(roster: seq<Player>) {
    forall i :: 0 <= i < |roster| ==> roster[i].id == i
  }

  /** Every owner is a player of the roster and every owned-territory entry is a territory of the map. */
  predicate WellFormed(ts: seq<Territory>, roster: seq<Player>)
    reads roster`territories
  {
    && Roster(roster)
    && (forall t :: 0 <= t < |ts| && ts[t].owner.Some? ==> ts[t].owner.value < |roster|)
    && (forall i, k :: 0 <= i < |roster| && 0 <= k < |roster[i].territories| ==> roster[i].territories[k] < |ts|)
  }

  /**
   * The ownership invariant: a territory is in a player's list exactly when
   * its owner is that player, and no list names a territory twice.
   */
  predicate Consistent(ts: seq<Territory>, roster: seq<Player>)
    reads roster`territories
  {
    && WellFormed(ts, roster)
    && (forall i :: 0 <= i < |roster| ==> NoDup(roster[i].territories))
    && (forall i, t :: 0 <= i < |roster| && 0 <= t < |ts| ==> (t in roster[i].territories <==> ts[t].owner == Some(i)))
  }

  class Player {
    const id: PlayerId
    var name: string
    var territories: seq<nat>
    var pool: int
    var friends: seq<PlayerId>
    /** The Hand, top of the stack last; None for a null card the hand was given. */
    var cards: seq<Option<CardType>>
    /** The OrdersList, oldest first. */
    var orders: seq<Order>
    var strategy: Strategy

    constructor (id: PlayerId, name: string, strategy: Strategy)
      ensures this.id == id && this.name == name && this.strategy == strategy
      ensures territories == [] && pool == 0 && friends == [] && cards == [] && orders == []
    {
      this.id := id;
      this.name := name;
      this.strategy := strategy;
      territories := [];
      pool := 0;
      friends := [];
      cards := [];
      orders := [];
    }

    /** Everything the player holds besides its territory list. */
    function Rest(): (int, seq<PlayerId>, seq<Option<CardType>>, seq<Order>, Strategy)
      reads this
    {
      (pool, friends, cards, orders, strategy)
    }

    /**
     * Player::addTerritory: a territory not yet listed is appended and its
     * owner set to this player; a listed one changes nothing. Taking an
     * unowned territory keeps the ownership invariant.
     */
    method AddTerritory(m: Map, t: nat, ghost roster: seq<Player>)
      requires t < |m.territories|
      modifies this`territories, m
      ensures t in old(territories) ==> territories == old(territories) && m.territories == old(m.territories)
      ensures t !in old(territories) ==> (territories == old(territories) + [t]
        && m.territories == old(m.territories)[t := old(m.territories)[t].(owner := Some(id))])
      ensures m.continents == old(m.continents)
      ensures (old(Consistent(m.territories, roster)) && id < |roster| && roster[id] == this
        && (t in old(territories) || old(m.territories)[t].owner.None?)) ==> Consistent(m.territories, roster)
    {
      if t !in territories {
        ghost var before := m.territories;
        territories := territories + [t];
        m.SetTerritoryOwner(t, Some(id));
        if old(Consistent(m.territories, roster)) && id < |roster| && roster[id] == this && before[t].owner.None? {
          forall i | 0 <= i < |roster| && i != id
            ensures t !in roster[i].territories
          {
            assert roster[i] != this;
            assert before[t].owner != Some(i);
          }
          assert NoDup(territories);
        }
      }
    }

    /**
     * Player::removeTerritory: a listed territory is taken out of the list
     * and left without owner; an unlisted one changes nothing. It keeps the
     * ownership invariant.
     */
    method RemoveTerritory(m: Map, t: nat, ghost roster: seq<Player>)
      requires t < |m.territories|
      modifies this`territories, m
      ensures t !in old(territories) ==> territories == old(territories) && m.territories == old(m.territories)
      ensures t in old(territories) ==> (territories == EraseFirst(old(territories), t)
        && m.territories == old(m.territories)[t := old(m.territories)[t].(owner := None)])
      ensures m.continents == old(m.continents)
      ensures old(Consistent(m.territories, roster)) && id < |roster| && roster[id] == this ==> Consistent(m.territories, roster)
    {
      if t in territories {
        ghost var before := m.territories;
        territories := EraseFirst(territories, t);
        m.SetTerritoryOwner(t, None);
        if old(Consistent(m.territories, roster)) && id < |roster| && roster[id] == this {
          EraseFirstNoDup(old(territories), t);
          assert forall k :: 0 <= k < |territories| ==> territories[k] in old(territories);
          forall i | 0 <= i < |roster| && i != id
            ensures t !in roster[i].territories
          {
            assert roster[i] != this;
            assert before[t].owner == Some(id);
          }
        }
      }
    }

    /** Player::addReinforcementToPool. */
    method AddReinforcementToPool(i: int)
      modifies this`pool
      ensures pool == old(pool) + i
    {
      pool := pool + i;
    }

    /** Player::removeArmiesFromPool: subtracts, then throws when the pool went negative. */
    method RemoveArmiesFromPool(i: int) returns (r: Result<(), string>)
      modifies this`pool
      ensures pool == old(pool) - i
      ensures r.Err? <==> pool < 0
      ensures r.Err? ==> r.error == "ReinforcementPool became less than 1 somehow"
    {
      pool := pool - i;
      if pool < 0 {
        return Err("ReinforcementPool became less than 1 somehow");
      }
      r := Ok(());
    }

    /** Player::addCardToHand: a null card is ignored, any other goes on top of the hand. */
    method AddCardToHand(card: Option<CardType>)
      modifies this`cards
      ensures card.None? ==> cards == old(cards)
      ensures card.Some? ==> cards == old(cards) + [card]
    {
      if card.Some? {
        cards := cards + [card];
      }
    }

    /** Player::isFriendsWith: list membership; a null player is no one's friend. */
    function IsFriendsWith(p: Option<PlayerId>): (r: bool)
      reads this
      ensures r <==> exists k :: 0 <= k < |friends| && Some(friends[k]) == p
    {
      p.Some? && p.value in friends
    }

    /**
     * Player::addFriend as written: the early return tests the wrong way
     * round, so only a player who is already a friend is appended (again).
     */
    method AddFriendAsWritten(p: Option<PlayerId>)
      modifies this`friends
      ensures p.Some? && old(IsFriendsWith(p)) ==> friends == old(friends) + [p.value]
      ensures !old(IsFriendsWith(p)) ==> friends == old(friends)
    {
      if p.None? {
        return;
      }
      if !IsFriendsWith(p) {
        return;
      }
      friends := friends + [p.value];
    }

    /**
     * Player::addFriend as evidently intended: a player who is not yet a
     * friend is appended, so that afterwards it is one and the list has no
     * duplicates.
     */
    method AddFriend(p: Option<PlayerId>)
      modifies this`friends
      ensures p.Some? && !old(IsFriendsWith(p)) ==> friends == old(friends) + [p.value]
      ensures p.None? || old(IsFriendsWith(p)) ==> friends == old(friends)
      ensures p.Some? ==> IsFriendsWith(p)
      ensures NoDup(old(friends)) ==> NoDup(friends)
    {
      if p.None? {
        return;
      }
      if IsFriendsWith(p) {
        return;
      }
      friends := friends + [p.value];
    }

    /** Player::clearFriends. */
    method ClearFriends()
      modifies this`friends
      ensures friends == []
      ensures forall p :: !IsFriendsWith(p)
    {
      friends := [];
    }

    /** Player::getNextOrder: orders->remove(0), the oldest order or nothing. */
    method GetNextOrder() returns (order: Option<Order>)
      modifies this`orders
      ensures (order, orders) == RemoveAt(old(orders), 0)
    {
      if |orders| == 0 {
        return None;
      }
      assert orders[..0] + orders[1..] == orders[1..];
      order := Some(orders[0]);
      orders := orders[1..];
    }

    /** getOrders().add(new ...): the order queued last. */
    method QueueOrder(order: Order)
      modifies this`orders
      ensures orders == old(orders) + [order]
    {
      orders := orders + [order];
    }

    /** getHand()->draw(). */
    method DrawFromHand() returns (card: Option<CardType>)
      modifies this`cards
      ensures (card, cards) == HandDraw(old(cards))
    {
      if |cards| == 0 {
        return None;
      }
      card := cards[|cards| - 1];
      cards := cards[..|cards| - 1];
    }

    /** getHand()->addCard(card): a null card is pushed too. */
    method PushToHand(card: Option<CardType>)
      modifies this`cards
      ensures cards == old(cards) + [card]
    {
      cards := cards + [card];
    }

    /** Player::setStrategy. */
    method SetStrategy(s: Strategy)
      modifies this`strategy
      ensures strategy == s
    {
      strategy := s;
    }
  }

  /**
   * A Negotiate between players who are not friends, with addFriend as
   * written, leaves both friend lists as they were.
   */
  method NegotiateAsWritten(a: Player, b: Player)
    requires a != b
    requires !a.IsFriendsWith(Some(b.id)) && !b.IsFriendsWith(Some(a.id))
    modifies a`friends, b`friends
    ensures a.friends == old(a.friends) && b.friends == old(b.friends)
  {
    a.AddFriendAsWritten(Some(b.id));
    b.AddFriendAsWritten(Some(a.id));
  }
}
