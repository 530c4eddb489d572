/**
 * validate() and execute() of the six orders of Orders.cpp. Every execute
 * first validates and changes nothing when the order is invalid. Territory
 * owners and player lists change only through Player's addTerritory and
 * removeTerritory, so every execute keeps the ownership invariant
 * Players.Consistent.
 */
module OrderRules {
  import opened Wrappers
  import opened Board
  import opened Cards
  import opened Orders
  import opened Players
  import opened Random

  // ----- validate -----

  /** isFriendsWith(owner): the owner is a player on the friends list (a null owner never is). */
  predicate Befriended(friends: seq<PlayerId>, owner: Option<PlayerId>) {
    owner.Some? && owner.value in friends
  }

  /** DeployOrder::validate. */
  predicate DeployValid(ts: seq<Territory>, p: PlayerId, pool: int, target: nat, amount: int)
    requires target < |ts|
  {
    ts[target].owner == Some(p) && amount <= pool && amount >= 1
  }

  /** AdvanceOrder::validate: the target must be in the source's adjacency list. */
  predicate AdvanceValid(ts: seq<Territory>, p: PlayerId, friends: seq<PlayerId>, source: nat, target: nat, amount: int)
    requires source < |ts| && target < |ts|
  {
    && ts[source].owner == Some(p)
    && amount <= ts[source].armies
    && amount >= 1
    && target in ts[source].adjacent
    && !Befriended(friends, ts[target].owner)
  }

  /** BombOrder::validate: some territory on the player's list has the target in its adjacency. */
  predicate BombValid(ts: seq<Territory>, p: PlayerId, owned: seq<nat>, friends: seq<PlayerId>, target: nat)
    requires target < |ts|
  {
    && ts[target].owner != Some(p)
    && NextTo(ts, owned, target)
    && !Befriended(friends, ts[target].owner)
  }

  predicate NextTo(ts: seq<Territory>, owned: seq<nat>, target: nat) {
    exists k :: 0 <= k < |owned| && owned[k] < |ts| && target in ts[owned[k]].adjacent
  }

  /** BlockadeOrder::validate. */
  predicate BlockadeValid(ts: seq<Territory>, p: PlayerId, target: nat)
    requires target < |ts|
  {
    ts[target].owner == Some(p)
  }

  /** AirliftOrder::validate: no adjacency needed, both ends the player's. */
  predicate AirliftValid(ts: seq<Territory>, p: PlayerId, source: nat, target: nat, amount: int)
    requires source < |ts| && target < |ts|
  {
    ts[source].owner == Some(p) && ts[target].owner == Some(p) && amount <= ts[source].armies && amount >= 1
  }

  /** NegotiateOrder::validate. */
  predicate NegotiateValid(p: PlayerId, other: PlayerId) {
    p != other
  }

  // ----- moving armies and combat -----

  /** The territories with territory i holding a armies. */
  function WithArmies(ts: seq<Territory>, i: nat, a: int): (r: seq<Territory>)
    requires i < |ts|
    ensures |r| == |ts|
  {
    ts[i := ts[i].(armies := a)]
  }

  /** The territories with territory i owned by o. */
  function WithOwner(ts: seq<Territory>, i: nat, o: Option<PlayerId>): (r: seq<Territory>)
    requires i < |ts|
    ensures |r| == |ts|
  {
    ts[i := ts[i].(owner := o)]
  }

  /** `amount` armies taken from the source and then added to the target. */
  function Moved(ts: seq<Territory>, source: nat, target: nat, amount: int): (r: seq<Territory>)
    requires source < |ts| && target < |ts|
    ensures |r| == |ts|
  {
    var taken := WithArmies(ts, source, ts[source].armies - amount);
    WithArmies(taken, target, taken[target].armies + amount)
  }

  /** The armies on the first n territories. */
  function ArmiesBelow(ts: seq<Territory>, n: nat): int
    requires n <= |ts|
  {
    if n == 0 then 0 else ArmiesBelow(ts, n - 1) + ts[n - 1].armies
  }

  /** All armies on the map. */
  function TotalArmies(ts: seq<Territory>): int {
    ArmiesBelow(ts, |ts|)
  }

  lemma {:induction false} ArmiesBelowWithArmies(ts: seq<Territory>, i: nat, a: int, n: nat)
    requires i < |ts| && n <= |ts|
    ensures ArmiesBelow(WithArmies(ts, i, a), n) == ArmiesBelow(ts, n) + (if i < n then a - ts[i].armies else 0)
  {
    if n > 0 {
      ArmiesBelowWithArmies(ts, i, a, n - 1);
    }
  }

  lemma {:induction false} ArmiesBelowWithOwner(ts: seq<Territory>, i: nat, o: Option<PlayerId>, n: nat)
    requires i < |ts| && n <= |ts|
    ensures ArmiesBelow(WithOwner(ts, i, o), n) == ArmiesBelow(ts, n)
  {
    if n > 0 {
      ArmiesBelowWithOwner(ts, i, o, n - 1);
    }
  }

  /** Setting one territory's armies to a changes the total by the difference. */
  lemma TotalWithArmies(ts: seq<Territory>, i: nat, a: int)
    requires i < |ts|
    ensures TotalArmies(WithArmies(ts, i, a)) == TotalArmies(ts) - ts[i].armies + a
  {
    ArmiesBelowWithArmies(ts, i, a, |ts|);
  }

  /** The total counts armies only: changing an owner leaves it alone. */
  lemma TotalWithOwner(ts: seq<Territory>, i: nat, o: Option<PlayerId>)
    requires i < |ts|
    ensures TotalArmies(WithOwner(ts, i, o)) == TotalArmies(ts)
  {
    ArmiesBelowWithOwner(ts, i, o, |ts|);
  }

  /** Moving armies between territories (Advance to one's own territory, Airlift) keeps the total. */
  lemma MovedKeepsTotal(ts: seq<Territory>, source: nat, target: nat, amount: int)
    requires source < |ts| && target < |ts|
    ensures TotalArmies(Moved(ts, source, target, amount)) == TotalArmies(ts)
  {
    var taken := WithArmies(ts, source, ts[source].armies - amount);
    TotalWithArmies(ts, source, ts[source].armies - amount);
    TotalWithArmies(taken, target, taken[target].armies + amount);
  }

  /** What is left of both sides once the hits are counted. */
  datatype Battle = Battle(attackers: int, defenders: int)

  /** simulateAttack: each side loses one army per hit of the other side, down to zero. */
  function Combat(amount: int, defenders: int, attackHits: nat, defendHits: nat): (b: Battle)
    ensures 0 <= b.attackers && 0 <= b.defenders
    ensures b.attackers <= amount || amount < 0
    ensures b.defenders <= defenders || defenders < 0
    ensures b.attackers == 0 <==> defendHits >= amount
    ensures b.defenders == 0 <==> attackHits >= defenders
  {
    Battle(if amount - defendHits > 0 then amount - defendHits else 0,
           if defenders - attackHits > 0 then defenders - attackHits else 0)
  }

  /** The territory is conquered when attackers survive and no defender does. */
  predicate Conquers(b: Battle) {
    b.attackers > 0 && b.defenders == 0
  }

  /** The dice of one attack: attackers roll first, then defenders, one draw per army. */
  function BattleAt(stream: nat -> nat, start: nat, amount: int, defenders: int): (b: Battle)
    requires amount >= 1
  {
    var attackHits := Hits(stream, start, amount, 60);
    var defendHits := if defenders > 0 then Hits(stream, start + amount, defenders, 70) else 0;
    Combat(amount, defenders, attackHits, defendHits)
  }

  /** An attack on a territory without armies always conquers it, whatever the dice. */
  lemma UndefendedFalls(stream: nat -> nat, start: nat, amount: int, defenders: int)
    requires amount >= 1 && defenders <= 0
    ensures Conquers(BattleAt(stream, start, amount, defenders))
    ensures BattleAt(stream, start, amount, defenders).attackers == amount
  {
  }

  /** More defenders than attackers can never all fall, whatever the dice. */
  lemma OutnumberedCannotConquer(stream: nat -> nat, start: nat, amount: int, defenders: int)
    requires 1 <= amount < defenders
    ensures !Conquers(BattleAt(stream, start, amount, defenders))
  {
  }

  /** How many values of the random stream one attack reads: a roll per attacker, then per defender. */
  function BattleDraws(amount: int, defenders: int): (n: nat)
    requires amount >= 1
    ensures n >= amount
  {
    amount + (if defenders > 0 then defenders else 0)
  }

  /** Territory t without owner if it holds no armies. */
  function Abandoned(ts: seq<Territory>, t: nat): (r: seq<Territory>)
    requires t < |ts|
    ensures |r| == |ts|
  {
    if ts[t].armies == 0 then WithOwner(ts, t, None) else ts
  }

  /**
   * The territories after simulateAttack: the attackers leave the source;
   * a conquered target passes to the attacker with the surviving attackers,
   * otherwise the survivors return and the defenders' survivors stay; then
   * a source or target left with no armies has no owner.
   */
  function AttackOutcome(ts: seq<Territory>, p: PlayerId, source: nat, target: nat, amount: int, b: Battle): (r: seq<Territory>)
    requires source < |ts| && target < |ts|
    ensures |r| == |ts|
  {
    var left := WithArmies(ts, source, ts[source].armies - amount);
    Abandoned(Abandoned(Fought(left, p, source, target, b), source), target)
  }

  /** The battle's result once the attackers have left the source. */
  function Fought(left: seq<Territory>, p: PlayerId, source: nat, target: nat, b: Battle): (r: seq<Territory>)
    requires source < |left| && target < |left|
    ensures |r| == |left|
  {
    if Conquers(b) then WithOwner(WithArmies(left, target, b.attackers), target, Some(p))
    else WithArmies(WithArmies(left, source, left[source].armies + b.attackers), target, b.defenders)
  }

  /** A conquered territory belongs to the attacker and holds exactly the surviving attackers. */
  lemma ConquestTakesTarget(ts: seq<Territory>, p: PlayerId, source: nat, target: nat, amount: int, b: Battle)
    requires source < |ts| && target < |ts| && source != target && Conquers(b)
    ensures AttackOutcome(ts, p, source, target, amount, b)[target].owner == Some(p)
    ensures AttackOutcome(ts, p, source, target, amount, b)[target].armies == b.attackers
    ensures AttackOutcome(ts, p, source, target, amount, b)[source].armies == ts[source].armies - amount
  {
  }

  /** After a lost attack the target keeps its owner unless no defender is left. */
  lemma RepelledKeepsOwner(ts: seq<Territory>, p: PlayerId, source: nat, target: nat, amount: int, b: Battle)
    requires source < |ts| && target < |ts| && source != target && !Conquers(b)
    ensures AttackOutcome(ts, p, source, target, amount, b)[target].armies == b.defenders
    ensures b.defenders != 0 ==> AttackOutcome(ts, p, source, target, amount, b)[target].owner == ts[target].owner
    ensures b.defenders == 0 ==> AttackOutcome(ts, p, source, target, amount, b)[target].owner.None?
  {
  }

  lemma AbandonedKeepsTotal(ts: seq<Territory>, t: nat)
    requires t < |ts|
    ensures TotalArmies(Abandoned(ts, t)) == TotalArmies(ts)
  {
    TotalWithOwner(ts, t, None);
  }

  /** An attack never creates armies: the total after is at most the total before. */
  lemma AttackNeverCreatesArmies(ts: seq<Territory>, p: PlayerId, source: nat, target: nat, amount: int, attackHits: nat, defendHits: nat)
    requires source < |ts| && target < |ts| && source != target
    requires amount >= 1 && ts[target].armies >= 0
    ensures TotalArmies(AttackOutcome(ts, p, source, target, amount, Combat(amount, ts[target].armies, attackHits, defendHits))) <= TotalArmies(ts)
  {
    var b := Combat(amount, ts[target].armies, attackHits, defendHits);
    var left := WithArmies(ts, source, ts[source].armies - amount);
    TotalWithArmies(ts, source, ts[source].armies - amount);
    var fought;
    if Conquers(b) {
      var taken := WithArmies(left, target, b.attackers);
      TotalWithArmies(left, target, b.attackers);
      fought := WithOwner(taken, target, Some(p));
      TotalWithOwner(taken, target, Some(p));
    } else {
      var back := WithArmies(left, source, left[source].armies + b.attackers);
      TotalWithArmies(left, source, left[source].armies + b.attackers);
      fought := WithArmies(back, target, b.defenders);
      TotalWithArmies(back, target, b.defenders);
    }
    AbandonedKeepsTotal(fought, source);
    AbandonedKeepsTotal(Abandoned(fought, source), target);
  }

  /**
   * Line 245 of simulateAttack prints the name of the target's owner when the
   * target is left empty, before testing whether there is an owner: an
   * attack that wipes out both sides on an unowned territory dereferences a
   * null owner.
   */
  predicate AttackCrashesAsWritten(ts: seq<Territory>, target: nat, b: Battle)
    requires target < |ts|
  {
    !Conquers(b) && b.defenders == 0 && ts[target].owner.None?
  }

  /** A blockaded (ownerless) territory of 2 armies attacked by 2, every roll a 1: both sides fall and line 245 crashes. */
  lemma StalemateOnNeutralCrashes(ts: seq<Territory>, target: nat)
    requires target < |ts| && ts[target].owner.None? && ts[target].armies == 2
    ensures AttackCrashesAsWritten(ts, target, BattleAt(n => 0, 0, 2, 2))
  {
    var stream: nat -> nat := n => 0;
    assert Hits(stream, 0, 1, 60) == 1;
    assert Hits(stream, 2, 1, 70) == 1;
  }

  /**
   * simulateAttack gives the conqueror deck->draw(); AdvanceOrder objects
   * built without a deck (the Cheater's) hold a null pointer there, so their
   * every conquest dereferences it.
   */
  predicate DrawsFromNullDeckAsWritten(o: Order, b: Battle) {
    o.Advance? && !o.hasDeck && Conquers(b)
  }

  /** The Cheater's advance of 999 armies onto an empty territory conquers it whatever the dice, and so reaches the null deck. */
  lemma CheaterConquestDrawsFromNullDeck(stream: nat -> nat, start: nat, p: PlayerId, source: nat, target: nat)
    ensures DrawsFromNullDeckAsWritten(Advance(p, source, target, 999, false), BattleAt(stream, start, 999, 0))
  {
    UndefendedFalls(stream, start, 999, 0);
  }

  // ----- execute -----

  /** Armies play no part in the ownership invariant. */
  lemma ArmiesKeepConsistent(ts: seq<Territory>, roster: seq<Player>, t: nat, a: int)
    requires Consistent(ts, roster) && t < |ts|
    ensures Consistent(WithArmies(ts, t, a), roster)
  {
    var us := WithArmies(ts, t, a);
    assert forall k :: 0 <= k < |ts| ==> us[k].owner == ts[k].owner;
  }

  /** The roster player that owns territory t, as the one-element set execute may change. */
  function OwnerSet(ts: seq<Territory>, roster: seq<Player>, t: nat): set<Player> {
    if t < |ts| && ts[t].owner.Some? && ts[t].owner.value < |roster| then {roster[ts[t].owner.value]} else {}
  }

  /** DeployOrder::execute: the pool pays for the armies, and never goes below zero. */
  method ExecuteDeploy(m: Map, roster: seq<Player>, p: PlayerId, target: nat, amount: int) returns (valid: bool)
    requires Consistent(m.territories, roster) && p < |roster| && target < |m.territories|
    modifies m, roster[p]
    ensures valid == old(DeployValid(m.territories, p, roster[p].pool, target, amount))
    ensures valid ==> m.territories == WithArmies(old(m.territories), target, old(m.territories)[target].armies + amount)
    ensures valid ==> roster[p].pool == old(roster[p].pool) - amount >= 0
    ensures !valid ==> m.territories == old(m.territories) && roster[p].pool == old(roster[p].pool)
    ensures m.continents == old(m.continents)
    ensures roster[p].territories == old(roster[p].territories) && roster[p].friends == old(roster[p].friends)
    ensures roster[p].cards == old(roster[p].cards) && roster[p].orders == old(roster[p].orders) && roster[p].strategy == old(roster[p].strategy)
    ensures forall i :: 0 <= i < |roster| && i != p ==> roster[i].Rest() == old(roster[i].Rest())
    ensures Consistent(m.territories, roster)
  {
    forall i | 0 <= i < |roster| && i != p
      ensures roster[i] != roster[p]
    {
      assert roster[i].id != roster[p].id;
    }
    var player := roster[p];
    valid := m.territories[target].owner == Some(p) && amount <= player.pool && amount >= 1;
    if valid {
      m.SetArmies(target, amount + m.territories[target].armies);
      var _ := player.RemoveArmiesFromPool(amount);
    }
  }

  /** A territory left with no armies goes with its owner: owner->removeTerritory when there is one. */
  method DropIfEmpty(m: Map, roster: seq<Player>, t: nat)
    requires Consistent(m.territories, roster) && t < |m.territories|
    modifies m, OwnerSet(m.territories, roster, t)
    ensures m.territories == Abandoned(old(m.territories), t)
    ensures m.continents == old(m.continents)
    ensures forall i :: 0 <= i < |roster| ==> roster[i].Rest() == old(roster[i].Rest())
    ensures Consistent(m.territories, roster)
  {
    if m.territories[t].armies == 0 {
      var owner := m.territories[t].owner;
      if owner.Some? {
        roster[owner.value].RemoveTerritory(m, t, roster);
      } else {
        assert WithOwner(old(m.territories), t, None) == old(m.territories);
      }
    }
  }

  /** The end of simulateAttack: source, then target, let go when left without armies. */
  method DropBoth(m: Map, roster: seq<Player>, source: nat, target: nat)
    requires Consistent(m.territories, roster) && source < |m.territories| && target < |m.territories|
    modifies m, OwnerSet(m.territories, roster, source), OwnerSet(m.territories, roster, target)
    ensures m.territories == Abandoned(Abandoned(old(m.territories), source), target)
    ensures m.continents == old(m.continents)
    ensures forall i :: 0 <= i < |roster| ==> roster[i].Rest() == old(roster[i].Rest())
    ensures Consistent(m.territories, roster)
  {
    DropIfEmpty(m, roster, source);
    DropIfEmpty(m, roster, target);
  }

  /** The two setArmies calls of a move between territories of one owner. */
  method MoveArmies(m: Map, roster: seq<Player>, source: nat, target: nat, amount: int)
    requires Consistent(m.territories, roster) && source < |m.territories| && target < |m.territories|
    modifies m
    ensures m.territories == Moved(old(m.territories), source, target, amount)
    ensures m.continents == old(m.continents)
    ensures Consistent(m.territories, roster)
  {
    ArmiesKeepConsistent(m.territories, roster, source, m.territories[source].armies - amount);
    m.SetArmies(source, m.territories[source].armies - amount);
    ArmiesKeepConsistent(m.territories, roster, target, m.territories[target].armies + amount);
    m.SetArmies(target, m.territories[target].armies + amount);
  }

  /** The dice of simulateAttack after the attackers leave the source. */
  method Fight(m: Map, dice: Dice, source: nat, target: nat, amount: int) returns (b: Battle)
    requires source < |m.territories| && target < |m.territories| && source != target && amount >= 1
    modifies m, dice
    ensures b == BattleAt(dice.stream, old(dice.drawn), amount, old(m.territories)[target].armies)
    ensures dice.drawn == old(dice.drawn) + BattleDraws(amount, old(m.territories)[target].armies)
    ensures m.territories == WithArmies(old(m.territories), source, old(m.territories)[source].armies - amount)
    ensures m.continents == old(m.continents)
  {
    m.SetArmies(source, m.territories[source].armies - amount);
    var attackHits := CountHits(dice, amount, 60);
    var defenders := m.territories[target].armies;
    var defendHits := CountHits(dice, defenders, 70);
    b := Combat(amount, defenders, attackHits, defendHits);
  }

  /** The conquest branch of simulateAttack: the old owner lets the target go and the attacker takes it with the survivors. */
  method TakeOver(m: Map, roster: seq<Player>, p: PlayerId, target: nat, survivors: int)
    requires Consistent(m.territories, roster) && p < |roster| && target < |m.territories|
    requires m.territories[target].owner != Some(p)
    modifies m, roster[p], OwnerSet(m.territories, roster, target)
    ensures m.territories == WithOwner(WithArmies(old(m.territories), target, survivors), target, Some(p))
    ensures m.continents == old(m.continents)
    ensures roster[p].territories == old(roster[p].territories) + [target]
    ensures forall i :: 0 <= i < |roster| ==> roster[i].Rest() == old(roster[i].Rest())
    ensures Consistent(m.territories, roster)
  {
    var prior := m.territories[target].owner;
    if prior.Some? {
      roster[prior.value].RemoveTerritory(m, target, roster);
    }
    assert target !in roster[p].territories;
    roster[p].AddTerritory(m, target, roster);
    ArmiesKeepConsistent(m.territories, roster, target, survivors);
    m.SetArmies(target, survivors);
    assert m.territories == WithOwner(WithArmies(old(m.territories), target, survivors), target, Some(p));
  }

  /**
   * The card drawn after a conquest, for an order that has a deck: the deck
   * is drawn at the stream's value at `at`, the card goes on top of the hand,
   * and one value is consumed unless the deck was empty. Otherwise hand,
   * deck and stream are untouched.
   */
  predicate Rewarded(conquest: bool, deck: seq<CardType>, hand: seq<Option<CardType>>, stream: nat -> nat, at: nat,
                     deck': seq<CardType>, hand': seq<Option<CardType>>, drawn': nat) {
    if conquest then
      var d := DeckDraw(deck, stream(at));
      drawn' == at + RandCalls(deck) && hand' == hand + [d.0] && deck' == d.1
    else drawn' == at && hand' == hand && deck' == deck
  }

  /**
   * The deck, hand and dice after `amount` armies attack territory `target`
   * of ts with the dice standing at `at`: the battle's draws are used, and
   * a card is won when the battle conquers the target and the order has a
   * deck (see Rewarded).
   */
  predicate CardOfBattle(ts: seq<Territory>, target: nat, amount: int, hasDeck: bool, stream: nat -> nat, at: nat,
                         deck: seq<CardType>, hand: seq<Option<CardType>>,
                         deck': seq<CardType>, hand': seq<Option<CardType>>, drawn': nat)
    requires target < |ts| && amount >= 1
  {
    Rewarded(Conquers(BattleAt(stream, at, amount, ts[target].armies)) && hasDeck, deck, hand, stream,
             at + BattleDraws(amount, ts[target].armies), deck', hand', drawn')
  }

  /** `player->getHand()->addCard(deck->draw())` after a conquest, for an order that has a deck. */
  method RewardCard(deck: Deck, dice: Dice, player: Player, hasDeck: bool)
    modifies deck, dice, player
    ensures Rewarded(hasDeck, old(deck.cards), old(player.cards), dice.stream, old(dice.drawn), deck.cards, player.cards, dice.drawn)
    ensures player.territories == old(player.territories) && player.pool == old(player.pool) && player.friends == old(player.friends)
    ensures player.orders == old(player.orders) && player.strategy == old(player.strategy)
  {
    if hasDeck {
      var card := None;
      if deck.cards != [] {
        var r := dice.Next();
        card := deck.Draw(r);
      }
      player.PushToHand(card);
    }
  }

  /** The branches of simulateAttack after the dice: conquest, or both sides keep their survivors. */
  method Resolve(m: Map, roster: seq<Player>, deck: Deck, dice: Dice, p: PlayerId, source: nat, target: nat, b: Battle, hasDeck: bool)
    requires Consistent(m.territories, roster) && p < |roster| && source < |m.territories| && target < |m.territories|
    requires m.territories[target].owner != Some(p)
    modifies m, deck, dice, roster[p], OwnerSet(m.territories, roster, target)
    ensures m.territories == Fought(old(m.territories), p, source, target, b)
    ensures m.continents == old(m.continents)
    ensures Rewarded(Conquers(b) && hasDeck, old(deck.cards), old(roster[p].cards), dice.stream, old(dice.drawn), deck.cards, roster[p].cards, dice.drawn)
    ensures forall i :: 0 <= i < |roster| && i != p ==> roster[i].Rest() == old(roster[i].Rest())
    ensures roster[p].pool == old(roster[p].pool) && roster[p].friends == old(roster[p].friends)
    ensures roster[p].orders == old(roster[p].orders) && roster[p].strategy == old(roster[p].strategy)
    ensures Consistent(m.territories, roster)
  {
    if Conquers(b) {
      TakeOver(m, roster, p, target, b.attackers);
      RewardCard(deck, dice, roster[p], hasDeck);
    } else {
      ArmiesKeepConsistent(m.territories, roster, source, m.territories[source].armies + b.attackers);
      m.SetArmies(source, m.territories[source].armies + b.attackers);
      ArmiesKeepConsistent(m.territories, roster, target, b.defenders);
      m.SetArmies(target, b.defenders);
    }
  }

  /**
   * simulateAttack as a whole: the dice decide the battle, the state becomes
   * AttackOutcome, and a conquest with a deck draws the conqueror a card.
   */
  method Attack(m: Map, roster: seq<Player>, deck: Deck, dice: Dice, p: PlayerId, source: nat, target: nat, amount: int, hasDeck: bool)
    returns (b: Battle)
    requires Consistent(m.territories, roster) && p < |roster| && source < |m.territories| && target < |m.territories|
    requires m.territories[source].owner == Some(p) && m.territories[target].owner != Some(p) && amount >= 1
    modifies m, deck, dice, roster[p], OwnerSet(m.territories, roster, target)
    ensures b == BattleAt(dice.stream, old(dice.drawn), amount, old(m.territories)[target].armies)
    ensures m.territories == AttackOutcome(old(m.territories), p, source, target, amount, b)
    ensures m.continents == old(m.continents)
    ensures Rewarded(Conquers(b) && hasDeck, old(deck.cards), old(roster[p].cards), dice.stream,
                     old(dice.drawn) + BattleDraws(amount, old(m.territories)[target].armies), deck.cards, roster[p].cards, dice.drawn)
    ensures forall i :: 0 <= i < |roster| && i != p ==> roster[i].Rest() == old(roster[i].Rest())
    ensures roster[p].pool == old(roster[p].pool) && roster[p].friends == old(roster[p].friends)
    ensures roster[p].orders == old(roster[p].orders) && roster[p].strategy == old(roster[p].strategy)
    ensures Consistent(m.territories, roster)
  {
    ArmiesKeepConsistent(m.territories, roster, source, m.territories[source].armies - amount);
    b := Fight(m, dice, source, target, amount);
    ghost var draws, cards, hand := dice.drawn, deck.cards, roster[p].cards;
    assert draws == old(dice.drawn) + BattleDraws(amount, old(m.territories)[target].armies);
    assert cards == old(deck.cards) && hand == old(roster[p].cards);
    Aftermath(m, roster, deck, dice, p, source, target, b, hasDeck);
  }

  /** simulateAttack once the dice are cast: resolve the battle, then drop emptied territories. */
  method Aftermath(m: Map, roster: seq<Player>, deck: Deck, dice: Dice, p: PlayerId, source: nat, target: nat, b: Battle, hasDeck: bool)
    requires Consistent(m.territories, roster) && p < |roster| && source < |m.territories| && target < |m.territories|
    requires m.territories[source].owner == Some(p) && m.territories[target].owner != Some(p)
    modifies m, deck, dice, roster[p], OwnerSet(m.territories, roster, target)
    ensures m.territories == Abandoned(Abandoned(Fought(old(m.territories), p, source, target, b), source), target)
    ensures m.continents == old(m.continents)
    ensures Rewarded(Conquers(b) && hasDeck, old(deck.cards), old(roster[p].cards), dice.stream, old(dice.drawn), deck.cards, roster[p].cards, dice.drawn)
    ensures forall i :: 0 <= i < |roster| && i != p ==> roster[i].Rest() == old(roster[i].Rest())
    ensures roster[p].pool == old(roster[p].pool) && roster[p].friends == old(roster[p].friends)
    ensures roster[p].orders == old(roster[p].orders) && roster[p].strategy == old(roster[p].strategy)
    ensures Consistent(m.territories, roster)
  {
    Resolve(m, roster, deck, dice, p, source, target, b, hasDeck);
    ghost var fought, cards, rest := m.territories, deck.cards, roster[p].Rest();
    assert m.territories[source].owner == Some(p);
    assert OwnerSet(m.territories, roster, target) <= {roster[p]} + OwnerSet(old(m.territories), roster, target);
    DropBoth(m, roster, source, target);
    assert deck.cards == cards;
    assert roster[p].Rest() == rest;
  }

  /** AdvanceOrder::execute: a move between the player's territories, or else an attack. */
  method ExecuteAdvance(m: Map, roster: seq<Player>, deck: Deck, dice: Dice, p: PlayerId, source: nat, target: nat, amount: int, hasDeck: bool)
    returns (valid: bool)
    requires Consistent(m.territories, roster) && p < |roster| && source < |m.territories| && target < |m.territories|
    modifies m, deck, dice, roster[p], OwnerSet(m.territories, roster, target)
    ensures valid == old(AdvanceValid(m.territories, p, roster[p].friends, source, target, amount))
    ensures !valid ==> m.territories == old(m.territories) && dice.drawn == old(dice.drawn)
    ensures valid && old(m.territories)[target].owner == Some(p) ==>
      m.territories == Moved(old(m.territories), source, target, amount) && dice.drawn == old(dice.drawn)
    ensures valid && old(m.territories)[target].owner != Some(p) ==>
      m.territories == AttackOutcome(old(m.territories), p, source, target, amount,
        BattleAt(dice.stream, old(dice.drawn), amount, old(m.territories)[target].armies))
    ensures valid && old(m.territories)[target].owner != Some(p) ==>
      CardOfBattle(old(m.territories), target, amount, hasDeck, dice.stream, old(dice.drawn),
                   old(deck.cards), old(roster[p].cards), deck.cards, roster[p].cards, dice.drawn)
    ensures !(valid && old(m.territories)[target].owner != Some(p) && hasDeck) ==>
      roster[p].cards == old(roster[p].cards) && deck.cards == old(deck.cards)
    ensures m.continents == old(m.continents)
    ensures forall i :: 0 <= i < |roster| && i != p ==> roster[i].Rest() == old(roster[i].Rest())
    ensures roster[p].pool == old(roster[p].pool) && roster[p].friends == old(roster[p].friends)
    ensures roster[p].orders == old(roster[p].orders) && roster[p].strategy == old(roster[p].strategy)
    ensures Consistent(m.territories, roster)
  {
    var ts := m.territories;
    valid := && ts[source].owner == Some(p) && amount <= ts[source].armies && amount >= 1
      && target in ts[source].adjacent && !roster[p].IsFriendsWith(ts[target].owner);
    if valid {
      if ts[source].owner == ts[target].owner {
        MoveArmies(m, roster, source, target, amount);
      } else {
        var _ := Attack(m, roster, deck, dice, p, source, target, amount, hasDeck);
      }
    }
  }

  /** The isAdjacent search of BombOrder::validate: stops at the first owned territory that borders the target. */
  method Borders(m: Map, owned: seq<nat>, target: nat) returns (adjacent: bool)
    ensures adjacent == NextTo(m.territories, owned, target)
  {
    adjacent := false;
    var i := 0;
    while i < |owned|
      invariant 0 <= i <= |owned|
      invariant !NextTo(m.territories, owned[..i], target)
    {
      assert owned[..i + 1] == owned[..i] + [owned[i]];
      if owned[i] < |m.territories| && target in m.territories[owned[i]].adjacent {
        assert owned[..i + 1][i] == owned[i];
        return true;
      }
      assert forall k :: 0 <= k < i + 1 ==> owned[..i + 1][k] == owned[k];
      i := i + 1;
    }
    assert owned[..i] == owned;
  }

  /** The territories after a bomb: half the armies (rounded down) stay, and an emptied territory has no owner. */
  function Bombed(ts: seq<Territory>, target: nat): (r: seq<Territory>)
    requires target < |ts|
    ensures |r| == |ts|
  {
    var halved := if ts[target].armies > 0 then WithArmies(ts, target, ts[target].armies / 2) else ts;
    Abandoned(halved, target)
  }

  /** BombOrder::execute. */
  method ExecuteBomb(m: Map, roster: seq<Player>, p: PlayerId, target: nat) returns (valid: bool)
    requires Consistent(m.territories, roster) && p < |roster| && target < |m.territories|
    modifies m, OwnerSet(m.territories, roster, target)
    ensures valid == old(BombValid(m.territories, p, roster[p].territories, roster[p].friends, target))
    ensures valid ==> m.territories == Bombed(old(m.territories), target)
    ensures !valid ==> m.territories == old(m.territories)
    ensures m.continents == old(m.continents)
    ensures forall i :: 0 <= i < |roster| ==> roster[i].Rest() == old(roster[i].Rest())
    ensures Consistent(m.territories, roster)
  {
    var ts := m.territories;
    valid := ts[target].owner != Some(p);
    if valid {
      valid := Borders(m, roster[p].territories, target);
    }
    valid := valid && !roster[p].IsFriendsWith(ts[target].owner);
    if valid {
      if ts[target].armies > 0 {
        ArmiesKeepConsistent(ts, roster, target, ts[target].armies / 2);
        m.SetArmies(target, ts[target].armies / 2);
      }
      DropIfEmpty(m, roster, target);
    }
  }

  /** A bomb takes away the upper half of a territory's armies and no other armies. */
  lemma BombHalvesTotal(ts: seq<Territory>, target: nat)
    requires target < |ts| && ts[target].armies > 0
    ensures TotalArmies(Bombed(ts, target)) == TotalArmies(ts) - (ts[target].armies - ts[target].armies / 2)
    ensures Bombed(ts, target)[target].owner.None? <==> ts[target].armies == 1 || ts[target].owner.None?
  {
    var halved := WithArmies(ts, target, ts[target].armies / 2);
    TotalWithArmies(ts, target, ts[target].armies / 2);
    AbandonedKeepsTotal(halved, target);
  }

  /** The territories after a blockade: armies doubled and no owner. */
  function Blockaded(ts: seq<Territory>, target: nat): (r: seq<Territory>)
    requires target < |ts|
    ensures |r| == |ts|
  {
    WithOwner(WithArmies(ts, target, ts[target].armies * 2), target, None)
  }

  /** BlockadeOrder::execute: the player gives up the territory, which keeps twice the armies as a neutral one. */
  method ExecuteBlockade(m: Map, roster: seq<Player>, p: PlayerId, target: nat) returns (valid: bool)
    requires Consistent(m.territories, roster) && p < |roster| && target < |m.territories|
    modifies m, roster[p]
    ensures valid == old(BlockadeValid(m.territories, p, target))
    ensures valid ==> m.territories == Blockaded(old(m.territories), target)
    ensures valid ==> roster[p].territories == EraseFirst(old(roster[p].territories), target)
    ensures !valid ==> m.territories == old(m.territories) && roster[p].territories == old(roster[p].territories)
    ensures m.continents == old(m.continents)
    ensures forall i :: 0 <= i < |roster| ==> roster[i].Rest() == old(roster[i].Rest())
    ensures Consistent(m.territories, roster)
  {
    var ts := m.territories;
    valid := ts[target].owner == Some(p);
    if valid {
      ArmiesKeepConsistent(ts, roster, target, ts[target].armies * 2);
      m.SetArmies(target, ts[target].armies * 2);
      roster[p].RemoveTerritory(m, target, roster);
    }
  }

  /** AirliftOrder::execute: the armies move without adjacency, then an emptied source is let go. */
  method ExecuteAirlift(m: Map, roster: seq<Player>, p: PlayerId, source: nat, target: nat, amount: int) returns (valid: bool)
    requires Consistent(m.territories, roster) && p < |roster| && source < |m.territories| && target < |m.territories|
    modifies m, roster[p]
    ensures valid == old(AirliftValid(m.territories, p, source, target, amount))
    ensures valid ==> m.territories == Abandoned(Moved(old(m.territories), source, target, amount), source)
    ensures !valid ==> m.territories == old(m.territories)
    ensures m.continents == old(m.continents)
    ensures forall i :: 0 <= i < |roster| ==> roster[i].Rest() == old(roster[i].Rest())
    ensures Consistent(m.territories, roster)
  {
    var ts := m.territories;
    valid := ts[source].owner == Some(p) && ts[target].owner == Some(p) && amount <= ts[source].armies && amount >= 1;
    if valid {
      if ts[source].owner == ts[target].owner {
        MoveArmies(m, roster, source, target, amount);
      }
      DropIfEmpty(m, roster, source);
    }
  }

  /** NegotiateOrder::execute with the corrected addFriend: the two players become each other's friends. */
  method ExecuteNegotiate(m: Map, roster: seq<Player>, p: PlayerId, other: PlayerId) returns (valid: bool)
    requires Consistent(m.territories, roster) && p < |roster| && other < |roster|
    modifies roster[p], roster[other]
    ensures valid == NegotiateValid(p, other)
    ensures valid ==> roster[p].IsFriendsWith(Some(other)) && roster[other].IsFriendsWith(Some(p))
    ensures valid ==> roster[p].friends == old(roster[p].friends) + (if other in old(roster[p].friends) then [] else [other])
    ensures valid ==> roster[other].friends == old(roster[other].friends) + (if p in old(roster[other].friends) then [] else [p])
    ensures !valid ==> roster[p].friends == old(roster[p].friends)
    ensures forall i :: 0 <= i < |roster| && i != p && i != other ==> roster[i].friends == old(roster[i].friends)
    ensures forall i :: 0 <= i < |roster| ==>
      (&& roster[i].territories == old(roster[i].territories)
      && roster[i].pool == old(roster[i].pool) && roster[i].cards == old(roster[i].cards)
      && roster[i].orders == old(roster[i].orders) && roster[i].strategy == old(roster[i].strategy))
    ensures Consistent(m.territories, roster)
  {
    forall i | 0 <= i < |roster| && i != p && i != other
      ensures roster[i] != roster[p] && roster[i] != roster[other]
    {
      assert roster[i].id != roster[p].id && roster[i].id != roster[other].id;
    }
    valid := p != other;
    if valid {
      assert roster[p].id != roster[other].id;
      roster[p].AddFriend(Some(other));
      roster[other].AddFriend(Some(p));
    }
  }

  /** The order's territories exist. */
  predicate OnMap(o: Order, territories: nat) {
    && (o.Advance? || o.Airlift? ==> o.source < territories)
    && (!o.Negotiate? ==> o.target < territories)
  }

  /** An Advance onto a territory its player does not own: if valid, it is fought out with the dice. */
  predicate Attacks(o: Order, ts: seq<Territory>) {
    o.Advance? && o.target < |ts| && ts[o.target].owner != Some(o.player)
  }

  /** The order's player and territories exist: orders hold pointers to them. */
  predicate Fits(o: Order, territories: nat, players: nat) {
    && o.player < players
    && OnMap(o, territories)
    && (o.Negotiate? ==> o.other < players)
  }

  /** Order::validate, by kind. */
  predicate Valid(o: Order, ts: seq<Territory>, roster: seq<Player>)
    requires Fits(o, |ts|, |roster|)
    reads roster
  {
    match o
    case Deploy(p, target, amount) => DeployValid(ts, p, roster[p].pool, target, amount)
    case Advance(p, source, target, amount, _) => AdvanceValid(ts, p, roster[p].friends, source, target, amount)
    case Bomb(p, target) => BombValid(ts, p, roster[p].territories, roster[p].friends, target)
    case Blockade(p, target) => BlockadeValid(ts, p, target)
    case Airlift(p, source, target, amount) => AirliftValid(ts, p, source, target, amount)
    case Negotiate(p, other) => NegotiateValid(p, other)
  }

  /**
   * The territories after a valid order, by kind: a deploy adds its armies,
   * an advance moves armies to an own territory or fights with the dice from
   * drawn on, a bomb halves, a blockade doubles and neutralises, an airlift
   * moves and leaves the source neutral when it empties, a negotiation
   * touches no territory.
   */
  function Outcome(o: Order, ts: seq<Territory>, stream: nat -> nat, drawn: nat): (r: seq<Territory>)
    requires OnMap(o, |ts|) && (o.Advance? ==> o.amount >= 1)
    ensures |r| == |ts|
  {
    match o
    case Deploy(_, target, amount) => WithArmies(ts, target, ts[target].armies + amount)
    case Advance(p, source, target, amount, _) =>
      if ts[target].owner == Some(p) then Moved(ts, source, target, amount)
      else AttackOutcome(ts, p, source, target, amount, BattleAt(stream, drawn, amount, ts[target].armies))
    case Bomb(_, target) => Bombed(ts, target)
    case Blockade(_, target) => Blockaded(ts, target)
    case Airlift(_, source, target, amount) => Abandoned(Moved(ts, source, target, amount), source)
    case Negotiate(_, _) => ts
  }

  /** Order::execute, by kind: an invalid order changes nothing, and no order touches a list of orders. */
  method ExecuteOrder(o: Order, m: Map, roster: seq<Player>, deck: Deck, dice: Dice) returns (valid: bool)
    requires Consistent(m.territories, roster) && Fits(o, |m.territories|, |roster|)
    modifies m, deck, dice, set q | q in roster
    ensures valid == old(Valid(o, m.territories, roster))
    ensures !valid ==> m.territories == old(m.territories)
    ensures valid ==> m.territories == Outcome(o, old(m.territories), dice.stream, old(dice.drawn))
    ensures valid && o.Deploy? ==> roster[o.player].pool == old(roster[o.player].pool) - o.amount
    ensures valid && o.Blockade? ==> roster[o.player].territories == EraseFirst(old(roster[o.player].territories), o.target)
    ensures valid && o.Negotiate? ==> roster[o.player].IsFriendsWith(Some(o.other)) && roster[o.other].IsFriendsWith(Some(o.player))
    ensures valid && Attacks(o, old(m.territories)) ==>
      CardOfBattle(old(m.territories), o.target, o.amount, o.hasDeck, dice.stream, old(dice.drawn),
                   old(deck.cards), old(roster[o.player].cards), deck.cards, roster[o.player].cards, dice.drawn)
    ensures !(valid && Attacks(o, old(m.territories))) ==> deck.cards == old(deck.cards) && dice.drawn == old(dice.drawn)
    ensures forall i :: 0 <= i < |roster| && !(valid && Attacks(o, old(m.territories)) && i == o.player) ==>
      roster[i].cards == old(roster[i].cards)
    ensures forall i :: 0 <= i < |roster| && !(valid && o.Deploy? && i == o.player) ==> roster[i].pool == old(roster[i].pool)
    ensures forall i :: 0 <= i < |roster| && !(valid && o.Negotiate? && (i == o.player || i == o.other)) ==>
      roster[i].friends == old(roster[i].friends)
    ensures |m.territories| == |old(m.territories)| && m.continents == old(m.continents)
    ensures forall i :: 0 <= i < |roster| ==> roster[i].orders == old(roster[i].orders) && roster[i].strategy == old(roster[i].strategy)
    ensures Consistent(m.territories, roster)
  {
    if o.Advance? {
      valid := ExecuteFought(o, m, roster, deck, dice);
    } else {
      valid := ExecuteUnfought(o, m, roster, dice);
    }
  }

  /** Order::execute for an Advance: a move onto an own territory, or a battle that may win a card. */
  method ExecuteFought(o: Order, m: Map, roster: seq<Player>, deck: Deck, dice: Dice) returns (valid: bool)
    requires Consistent(m.territories, roster) && Fits(o, |m.territories|, |roster|) && o.Advance?
    modifies m, deck, dice, set q | q in roster
    ensures valid == old(Valid(o, m.territories, roster))
    ensures !valid ==> m.territories == old(m.territories)
    ensures valid ==> m.territories == Outcome(o, old(m.territories), dice.stream, old(dice.drawn))
    ensures valid && Attacks(o, old(m.territories)) ==>
      CardOfBattle(old(m.territories), o.target, o.amount, o.hasDeck, dice.stream, old(dice.drawn),
                   old(deck.cards), old(roster[o.player].cards), deck.cards, roster[o.player].cards, dice.drawn)
    ensures !(valid && Attacks(o, old(m.territories))) ==> deck.cards == old(deck.cards) && dice.drawn == old(dice.drawn)
    ensures forall i :: 0 <= i < |roster| && !(valid && Attacks(o, old(m.territories)) && i == o.player) ==>
      roster[i].cards == old(roster[i].cards)
    ensures forall i :: 0 <= i < |roster| ==> roster[i].pool == old(roster[i].pool) && roster[i].friends == old(roster[i].friends)
    ensures |m.territories| == |old(m.territories)| && m.continents == old(m.continents)
    ensures forall i :: 0 <= i < |roster| ==> roster[i].orders == old(roster[i].orders) && roster[i].strategy == old(roster[i].strategy)
    ensures Consistent(m.territories, roster)
  {
    valid := ExecuteAdvance(m, roster, deck, dice, o.player, o.source, o.target, o.amount, o.hasDeck);
  }

  /** Order::execute for every kind but Advance: no dice are cast and no card is won. */
  method ExecuteUnfought(o: Order, m: Map, roster: seq<Player>, dice: Dice) returns (valid: bool)
    requires Consistent(m.territories, roster) && Fits(o, |m.territories|, |roster|) && !o.Advance?
    modifies m, set q | q in roster
    ensures valid == old(Valid(o, m.territories, roster))
    ensures !valid ==> m.territories == old(m.territories)
    ensures valid ==> m.territories == Outcome(o, old(m.territories), dice.stream, dice.drawn)
    ensures valid && o.Deploy? ==> roster[o.player].pool == old(roster[o.player].pool) - o.amount
    ensures valid && o.Blockade? ==> roster[o.player].territories == EraseFirst(old(roster[o.player].territories), o.target)
    ensures valid && o.Negotiate? ==> roster[o.player].IsFriendsWith(Some(o.other)) && roster[o.other].IsFriendsWith(Some(o.player))
    ensures forall i :: 0 <= i < |roster| ==> roster[i].cards == old(roster[i].cards)
    ensures forall i :: 0 <= i < |roster| && !(valid && o.Deploy? && i == o.player) ==> roster[i].pool == old(roster[i].pool)
    ensures forall i :: 0 <= i < |roster| && !(valid && o.Negotiate? && (i == o.player || i == o.other)) ==>
      roster[i].friends == old(roster[i].friends)
    ensures |m.territories| == |old(m.territories)| && m.continents == old(m.continents)
    ensures forall i :: 0 <= i < |roster| ==> roster[i].orders == old(roster[i].orders) && roster[i].strategy == old(roster[i].strategy)
    ensures Consistent(m.territories, roster)
  {
    match o {
      case Deploy(p, target, amount) =>
        valid := ExecuteDeploy(m, roster, p, target, amount);
      case Bomb(p, target) =>
        valid := ExecuteBomb(m, roster, p, target);
      case Blockade(p, target) =>
        valid := ExecuteBlockade(m, roster, p, target);
      case Airlift(p, source, target, amount) =>
        valid := ExecuteAirlift(m, roster, p, source, target, amount);
      case Negotiate(p, other) =>
        valid := ExecuteNegotiate(m, roster, p, other);
    }
  }
}
