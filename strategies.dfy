/**
 * PlayerStrategy::issueOrder of the computer strategies (PlayerStrategies.cpp):
 * what each strategy queues in one call, given the map, the player and the
 * random draws. The random draws come from the Dice; std::srand(std::time(0))
 * before the aggressive player's coin flip is one more draw.
 *
 * Each strategy's turn is a function of the state it reads (a Turn: the new
 * orders, the pool, the hand and how many draws it used), and the methods
 * that issue the orders with the source's loops are proved to produce it.
 */
module Strategies {
  import opened Wrappers
  import opened Board
  import opened Cards
  import opened Orders
  import opened Players
  import opened Random
  import opened Priorities
  import OrderRules

  /** INITIAL_POOL_AMOUNT: a neutral player whose pool is not this has been attacked. */
  const InitialPool := 50
  /** What a Reinforcement card adds to the pool. */
  const ReinforcementBonus := 5
  /** The armies the cheater sets on each of its territories. */
  const CheaterArmies := 9999999
  /** The armies each cheater advance names. */
  const CheaterAdvance := 999

  // ----- deploying -----

  /** One Deploy per toDefend territory, in order, each of randomInt(1, pool) armies. */
  function Deploys(p: PlayerId, targets: seq<nat>, pool: int, stream: nat -> nat, start: nat): (r: Issued)
    requires targets == [] || pool >= 1
    ensures |r.orders| == |targets| && r.next == start + |targets|
  {
    if targets == [] then Issued([], start)
    else
      var prior := Deploys(p, targets[..|targets| - 1], pool, stream, start);
      Issued(prior.orders + [Deploy(p, targets[|targets| - 1], RandomInt(1, pool, stream(prior.next)))], prior.next + 1)
  }

  /** The i-th deploy is p's, goes to the i-th target and names between 1 and pool armies. */
  lemma {:induction false} DeploysEach(p: PlayerId, targets: seq<nat>, pool: int, stream: nat -> nat, start: nat)
    requires targets == [] || pool >= 1
    ensures var r := Deploys(p, targets, pool, stream, start).orders;
      forall i :: 0 <= i < |r| ==>
        (&& r[i].Deploy? && r[i].player == p && r[i].target == targets[i]
         && 1 <= r[i].amount <= pool)
  {
    if targets != [] {
      var n := |targets| - 1;
      DeploysEach(p, targets[..n], pool, stream, start);
    }
  }

  // ----- attacking -----

  /** Orders issued so far, and the draw the next random number comes from. */
  datatype Issued = Issued(orders: seq<Order>, next: nat)

  /** An advance the aggressive player may issue: from an owned territory listed next to a target it chose. */
  predicate AdvanceFromOwned(o: Order, ts: seq<Territory>, p: PlayerId, owned: seq<nat>, attacks: seq<nat>, pool: int) {
    && o.Advance? && o.player == p && o.hasDeck
    && o.source in owned && o.source in AdjacentOf(ts, o.target)
    && o.target in attacks && 1 <= o.amount <= pool
  }

  /**
   * The attack loop of AggressivePlayer::issueOrder: for each toAttack target,
   * a source drawn among the owned territories in the target's adjacency list
   * (no draw when there is one) and randomInt(1, pool) armies. A target with
   * no such territory is skipped: the source reads adjacent[0] of an empty
   * vector there (see AttackWithoutSourceAsWritten).
   */
  function Advances(ts: seq<Territory>, p: PlayerId, owned: seq<nat>, attacks: seq<nat>, pool: int, stream: nat -> nat, start: nat): (r: Issued)
    requires owned == [] || pool >= 1
    ensures r.next >= start
    ensures |r.orders| <= |attacks|
  {
    if attacks == [] then Issued([], start)
    else
      var t := attacks[|attacks| - 1];
      var prior := Advances(ts, p, owned, attacks[..|attacks| - 1], pool, stream, start);
      var step := AttackStep(ts, p, owned, t, pool, stream, prior.next);
      Issued(prior.orders + step.orders, step.next)
  }

  /** One round of the attack loop: the advance on t, if some owned territory is listed next to it, from draw d on. */
  function AttackStep(ts: seq<Territory>, p: PlayerId, owned: seq<nat>, t: nat, pool: int, stream: nat -> nat, d: nat): (r: Issued)
    requires owned == [] || pool >= 1
    ensures r.next >= d && |r.orders| <= 1
  {
    var sources := SourcesOf(ts, owned, t);
    if sources == [] then Issued([], d)
    else
      var pick := if |sources| > 1 then RandomInt(0, |sources| - 1, stream(d)) else 0;
      var d' := if |sources| > 1 then d + 1 else d;
      Issued([Advance(p, sources[pick], t, RandomInt(1, pool, stream(d')), true)], d' + 1)
  }

  /** Every advance of the attack loop goes from an owned territory listed next to a target it chose. */
  lemma {:induction false} AdvancesFromOwnedNeighbours(ts: seq<Territory>, p: PlayerId, owned: seq<nat>, attacks: seq<nat>, pool: int, stream: nat -> nat, start: nat)
    requires owned == [] || pool >= 1
    ensures AdvancesFrom(Advances(ts, p, owned, attacks, pool, stream, start).orders, ts, p, owned, attacks, pool)
  {
    if attacks != [] {
      var t := attacks[|attacks| - 1];
      var init := attacks[..|attacks| - 1];
      AdvancesFromOwnedNeighbours(ts, p, owned, init, pool, stream, start);
      var prior := Advances(ts, p, owned, init, pool, stream, start);
      var step := AttackStep(ts, p, owned, t, pool, stream, prior.next);
      var r := Advances(ts, p, owned, attacks, pool, stream, start);
      assert r.orders == prior.orders + step.orders;
      SourcesOfAreOwnedNeighbours(ts, owned, t);
      forall i | 0 <= i < |r.orders|
        ensures AdvanceFromOwned(r.orders[i], ts, p, owned, attacks, pool)
      {
        if i < |prior.orders| {
          assert r.orders[i] == prior.orders[i];
          assert AdvanceFromOwned(prior.orders[i], ts, p, owned, init, pool);
          assert prior.orders[i].target in attacks;
        } else {
          assert r.orders[i] == step.orders[0];
        }
      }
    }
  }

  /** The attack loop as written reads adjacent[0] of an empty vector when no owned territory is in a target's adjacency list. */
  predicate AttackWithoutSourceAsWritten(ts: seq<Territory>, p: PlayerId, friends: seq<PlayerId>, owned: seq<nat>) {
    exists t :: t in AttackOrder(ts, p, friends, owned) && SourcesOf(ts, owned, t) == []
  }

  /** A one-way cycle of three territories: player 0 holds the first, player 1 the others. */
  function OneWayMap(): seq<Territory> {
    [Territory("a", 1, Some(0), "k", [1]),
     Territory("b", 1, Some(1), "k", [2]),
     Territory("c", 1, Some(1), "k", [0])]
  }

  /** Map::validate accepts the one-way cycle: it compares degrees, not edges. */
  lemma OneWayMapIsValid()
    ensures IsValid(OneWayMap(), [Continent("k", 1, [0, 1, 2])])
  {
    var ts := OneWayMap();
    assert [1][..0] == [] && [2][..0] == [] && [0][..0] == [];
    forall k: nat | k < 3
      ensures InDegree(ts, k) == 1
    {
      assert Occurrences([1], k) == (if k == 1 then 1 else 0);
      assert Occurrences([2], k) == (if k == 2 then 1 else 0);
      assert Occurrences([0], k) == (if k == 0 then 1 else 0);
      assert InDegreeUpTo(ts, 1, k) == Occurrences([1], k);
      assert InDegreeUpTo(ts, 2, k) == Occurrences([1], k) + Occurrences([2], k);
    }
    var cs := [Continent("k", 1, [0, 1, 2])];
    assert cs[..0] == [];
    assert MembershipTotal(cs) == 3;
  }

  /**
   * On the one-way cycle, player 0 attacks territory 1 (next to its
   * territory 0), but territory 1 lists only territory 2: the attack loop
   * finds no source.
   */
  lemma OneWayMapLeavesAttackWithoutSource()
    ensures AttackWithoutSourceAsWritten(OneWayMap(), 0, [], [0])
  {
    var ts := OneWayMap();
    assert Enemy(ts, 0, [], 1);
    var ranking := AttackRanking(ts, 0, [], [0]);
    assert EnemyNeighbours(ts, 0, [], [1]) == [Ranked(1, 1)] by {
      assert [1][..0] == [];
    }
    assert [0][..0] == [];
    assert ranking == [Ranked(1, 1)];
    assert SortByKey(ranking) == [Ranked(1, 1)] by {
      assert ranking[..0] == [];
    }
    assert AttackOrder(ts, 0, [], [0]) == [1] by {
      assert Keys([Ranked(1, 1)]) == [1];
    }
    assert SourcesOf(ts, [0], 1) == [] by {
      assert 0 !in AdjacentOf(ts, 1);
      assert [0][..0] == [];
    }
    assert 1 in AttackOrder(ts, 0, [], [0]);
  }

  // ----- playing a card -----

  /** How many entries of adj p does not own: nulls, friends and enemies alike. */
  function ForeignCount(ts: seq<Territory>, p: PlayerId, adj: seq<nat>): (n: nat)
    ensures n <= |adj|
  {
    if adj == [] then 0
    else ForeignCount(ts, p, adj[..|adj| - 1]) + (if OwnerOf(ts, adj[|adj| - 1]) != Some(p) then 1 else 0)
  }

  /**
   * The "most enemies" loops of the Blockade and Airlift cards: the first
   * territory of the list (other than skip) with strictly more foreign
   * neighbours than any before it, and its count; initial and 0 when no
   * territory has any.
   */
  function MostExposed(ts: seq<Territory>, p: PlayerId, list: seq<nat>, skip: Option<nat>, initial: nat): (r: (nat, nat))
    ensures r.0 == 0 ==> r.1 == initial
  {
    if list == [] then (0, initial)
    else
      var x := list[|list| - 1];
      var prior := MostExposed(ts, p, list[..|list| - 1], skip, initial);
      if Some(x) == skip then prior
      else
        var n := ForeignCount(ts, p, AdjacentOf(ts, x));
        if n > prior.0 then (n, x) else prior
  }

  /** No territory of the list other than skip has more foreign neighbours than the one chosen, which is listed when the count is positive. */
  lemma {:induction false} MostExposedIsMost(ts: seq<Territory>, p: PlayerId, list: seq<nat>, skip: Option<nat>, initial: nat)
    ensures var r := MostExposed(ts, p, list, skip, initial);
      && (forall x :: x in list && Some(x) != skip ==> ForeignCount(ts, p, AdjacentOf(ts, x)) <= r.0)
      && (r.0 > 0 ==> r.1 in list && Some(r.1) != skip && ForeignCount(ts, p, AdjacentOf(ts, r.1)) == r.0)
  {
    if list != [] {
      var x := list[|list| - 1];
      MostExposedIsMost(ts, p, list[..|list| - 1], skip, initial);
      assert forall y :: y in list ==> y in list[..|list| - 1] || y == x;
    }
  }

  /** A card's effect: orders queued and armies added to the pool. */
  datatype Play = Play(orders: seq<Order>, bonus: int)

  function ArmiesOf(ts: seq<Territory>, t: nat): int {
    if t < |ts| then ts[t].armies else 0
  }

  /**
   * The Airlift card: from the first toDefend territory to the most exposed
   * other one, leaving one army behind; nothing with fewer than two.
   */
  function AirliftPlay(ts: seq<Territory>, p: PlayerId, defend: seq<nat>): (r: Play)
    ensures r.bonus == 0 && |r.orders| <= 1
  {
    if |defend| < 2 then Play([], 0)
    else
      var target := MostExposed(ts, p, defend, Some(defend[0]), defend[1]).1;
      Play([Order.Airlift(p, defend[0], target, ArmiesOf(ts, defend[0]) - 1)], 0)
  }

  /** The aggressive player's Bomb card: on the last toAttack territory, the strongest; nothing when there is none. */
  function BombPlay(ts: seq<Territory>, p: PlayerId, friends: seq<PlayerId>, owned: seq<nat>): (r: Play)
    ensures r.bonus == 0 && |r.orders| <= 1
  {
    var attacks := AttackOrder(ts, p, friends, owned);
    if attacks == [] then Play([], 0) else Play([Order.Bomb(p, attacks[|attacks| - 1])], 0)
  }

  /** The aggressive player's Blockade card: on the most exposed toDefend territory. */
  function BlockadePlay(ts: seq<Territory>, p: PlayerId, friends: seq<PlayerId>, owned: seq<nat>): (r: Play)
    ensures r.bonus == 0 && |r.orders| <= 1
  {
    var defend := DefendOrder(ts, p, friends, owned);
    if defend == [] then Play([], 0)
    else Play([Order.Blockade(p, MostExposed(ts, p, defend, None, defend[0]).1)], 0)
  }

  /** The Diplomacy card: a Negotiate with the chosen rival, if any. */
  function DiplomacyPlay(p: PlayerId, rival: Option<PlayerId>): (r: Play)
    ensures r.bonus == 0 && |r.orders| <= 1
  {
    if rival.Some? then Play([Negotiate(p, rival.value)], 0) else Play([], 0)
  }

  /**
   * The aggressive player's card switch. A Blockade with nothing to defend
   * reads toDefend[0] of an empty vector in the source; here it queues
   * nothing.
   */
  function AggressivePlay(ts: seq<Territory>, p: PlayerId, friends: seq<PlayerId>, owned: seq<nat>, card: CardType, rival: Option<PlayerId>): Play {
    match card
    case Bomb => BombPlay(ts, p, friends, owned)
    case Reinforcement => Play([], ReinforcementBonus)
    case Blockade => BlockadePlay(ts, p, friends, owned)
    case Airlift => AirliftPlay(ts, p, DefendOrder(ts, p, friends, owned))
    case Diplomacy => DiplomacyPlay(p, rival)
  }

  /** The benevolent player's card switch: a Bomb or Blockade card is spent on nothing. */
  function BenevolentPlay(ts: seq<Territory>, p: PlayerId, friends: seq<PlayerId>, owned: seq<nat>, card: CardType, rival: Option<PlayerId>): Play {
    match card
    case Bomb => Play([], 0)
    case Reinforcement => Play([], ReinforcementBonus)
    case Blockade => Play([], 0)
    case Airlift => AirliftPlay(ts, p, DefendOrder(ts, p, friends, owned))
    case Diplomacy => DiplomacyPlay(p, rival)
  }

  /** The player's new orders, pool and hand after its turn, and the next draw. */
  datatype Turn = Turn(orders: seq<Order>, pool: int, cards: seq<Option<CardType>>, next: nat)

  /**
   * The card step: the top card of the hand is drawn; a null card is dropped;
   * otherwise a coin flip decides between playing it and putting it back.
   */
  function CardStep(aggressive: bool, ts: seq<Territory>, p: PlayerId, friends: seq<PlayerId>, owned: seq<nat>,
                    rival: Option<PlayerId>, pool: int, cards: seq<Option<CardType>>, stream: nat -> nat, d: nat): Turn
  {
    var (card, rest) := HandDraw(cards);
    if card.None? then Turn([], pool, rest, d)
    else if !Coin(stream(d)) then Turn([], pool, rest + [card], d + 1)
    else
      var play := if aggressive then AggressivePlay(ts, p, friends, owned, card.value, rival)
        else BenevolentPlay(ts, p, friends, owned, card.value, rival);
      Turn(play.orders, pool + play.bonus, rest, d + 1)
  }

  /** A player without territories has nothing to attack. */
  lemma AttackOrderNeedsTerritory(ts: seq<Territory>, p: PlayerId, friends: seq<PlayerId>, owned: seq<nat>)
    requires owned == []
    ensures AttackOrder(ts, p, friends, owned) == []
  {
    assert AttackRanking(ts, p, friends, owned) == [];
  }

  /** AggressivePlayer::issueOrder. */
  function AggressiveTurn(ts: seq<Territory>, p: PlayerId, friends: seq<PlayerId>, owned: seq<nat>, rival: Option<PlayerId>,
                          pool: int, cards: seq<Option<CardType>>, stream: nat -> nat, start: nat): Turn
  {
    var targets := DefendOrder(ts, p, friends, owned);
    if targets != [] && pool <= 0 then Turn([], pool, cards, start)
    else
      var deploys := Deploys(p, targets, pool, stream, start);
      var attacks := AttackOrder(ts, p, friends, owned);
      var advances := Advances(ts, p, owned, attacks, pool, stream, deploys.next);
      var last := CardStep(true, ts, p, friends, owned, rival, pool, cards, stream, advances.next);
      Turn(deploys.orders + advances.orders + last.orders, last.pool, last.cards, last.next)
  }

  /** BenevolentPlayer::issueOrder: deploy, then the card. */
  function BenevolentTurn(ts: seq<Territory>, p: PlayerId, friends: seq<PlayerId>, owned: seq<nat>, rival: Option<PlayerId>,
                          pool: int, cards: seq<Option<CardType>>, stream: nat -> nat, start: nat): Turn
  {
    var targets := DefendOrder(ts, p, friends, owned);
    if targets != [] && pool <= 0 then Turn([], pool, cards, start)
    else
      var deploys := Deploys(p, targets, pool, stream, start);
      var last := CardStep(false, ts, p, friends, owned, rival, pool, cards, stream, deploys.next);
      Turn(deploys.orders + last.orders, last.pool, last.cards, last.next)
  }

  // ----- what a turn guarantees -----

  /** Every order a turn queues is the player's own. */
  predicate AllIssuedBy(orders: seq<Order>, p: PlayerId) {
    forall i :: 0 <= i < |orders| ==> orders[i].player == p
  }

  /** The orders a card can queue. */
  predicate CardOrder(o: Order) {
    o.Bomb? || o.Blockade? || o.Airlift? || o.Negotiate?
  }

  lemma AggressivePlayOrders(ts: seq<Territory>, p: PlayerId, friends: seq<PlayerId>, owned: seq<nat>, card: CardType, rival: Option<PlayerId>)
    ensures var play := AggressivePlay(ts, p, friends, owned, card, rival);
      |play.orders| <= 1 && forall i :: 0 <= i < |play.orders| ==> CardOrder(play.orders[i]) && play.orders[i].player == p
  {
    match card
    case Bomb =>
    case Reinforcement =>
    case Blockade =>
    case Airlift =>
      var defend := DefendOrder(ts, p, friends, owned);
      assert AggressivePlay(ts, p, friends, owned, card, rival) == AirliftPlay(ts, p, defend);
    case Diplomacy =>
  }

  lemma BenevolentPlayOrders(ts: seq<Territory>, p: PlayerId, friends: seq<PlayerId>, owned: seq<nat>, card: CardType, rival: Option<PlayerId>)
    ensures var play := BenevolentPlay(ts, p, friends, owned, card, rival);
      |play.orders| <= 1 && forall i :: 0 <= i < |play.orders| ==> (play.orders[i].Airlift? || play.orders[i].Negotiate?) && play.orders[i].player == p
  {
    if card == CardType.Airlift {
      var defend := DefendOrder(ts, p, friends, owned);
      assert BenevolentPlay(ts, p, friends, owned, card, rival) == AirliftPlay(ts, p, defend);
    }
  }

  lemma CardStepOrders(aggressive: bool, ts: seq<Territory>, p: PlayerId, friends: seq<PlayerId>, owned: seq<nat>,
                       rival: Option<PlayerId>, pool: int, cards: seq<Option<CardType>>, stream: nat -> nat, d: nat)
    ensures aggressive ==> CardOrders(CardStep(aggressive, ts, p, friends, owned, rival, pool, cards, stream, d).orders, p, false)
    ensures !aggressive ==> CardOrders(CardStep(aggressive, ts, p, friends, owned, rival, pool, cards, stream, d).orders, p, true)
  {
    var (card, rest) := HandDraw(cards);
    if card.Some? && Coin(stream(d)) {
      if aggressive {
        AggressivePlayOrders(ts, p, friends, owned, card.value, rival);
      } else {
        BenevolentPlayOrders(ts, p, friends, owned, card.value, rival);
      }
    }
  }

  /** The deploys of a turn go to owned territories. */
  lemma DeploysToOwned(p: PlayerId, owned: seq<nat>, targets: seq<nat>, pool: int, stream: nat -> nat, start: nat)
    requires targets == [] || pool >= 1
    requires |targets| == |owned| && forall t :: t in targets <==> t in owned
    ensures DeployedTo(Deploys(p, targets, pool, stream, start).orders, p, owned, pool)
  {
    var r := Deploys(p, targets, pool, stream, start).orders;
    DeploysEach(p, targets, pool, stream, start);
    forall i | 0 <= i < |owned|
      ensures r[i].target in owned
    {
      assert r[i].target == targets[i];
    }
  }

  lemma AggressiveTurnUnfolds(ts: seq<Territory>, p: PlayerId, friends: seq<PlayerId>, owned: seq<nat>, rival: Option<PlayerId>,
                              pool: int, cards: seq<Option<CardType>>, stream: nat -> nat, start: nat)
    requires owned == [] || pool >= 1
    ensures var deploys := Deploys(p, DefendOrder(ts, p, friends, owned), pool, stream, start);
      var advances := Advances(ts, p, owned, AttackOrder(ts, p, friends, owned), pool, stream, deploys.next);
      var last := CardStep(true, ts, p, friends, owned, rival, pool, cards, stream, advances.next);
      AggressiveTurn(ts, p, friends, owned, rival, pool, cards, stream, start) ==
        Turn(deploys.orders + advances.orders + last.orders, last.pool, last.cards, last.next)
  {
  }

  lemma BenevolentTurnUnfolds(ts: seq<Territory>, p: PlayerId, friends: seq<PlayerId>, owned: seq<nat>, rival: Option<PlayerId>,
                              pool: int, cards: seq<Option<CardType>>, stream: nat -> nat, start: nat)
    requires owned == [] || pool >= 1
    ensures var deploys := Deploys(p, DefendOrder(ts, p, friends, owned), pool, stream, start);
      var last := CardStep(false, ts, p, friends, owned, rival, pool, cards, stream, deploys.next);
      BenevolentTurn(ts, p, friends, owned, rival, pool, cards, stream, start) ==
        Turn(deploys.orders + last.orders, last.pool, last.cards, last.next)
  {
  }

  /** One deploy per owned territory, to an owned territory, of 1 to pool armies, all by p. */
  predicate DeployedTo(orders: seq<Order>, p: PlayerId, owned: seq<nat>, pool: int) {
    && |orders| == |owned|
    && forall i :: 0 <= i < |orders| ==>
      orders[i].Deploy? && orders[i].player == p && orders[i].target in owned && 1 <= orders[i].amount <= pool
  }

  /** At most one order, by p, of the kinds allowed. */
  predicate CardOrders(orders: seq<Order>, p: PlayerId, benevolent: bool) {
    && |orders| <= 1
    && forall i :: 0 <= i < |orders| ==>
      orders[i].player == p && CardOrder(orders[i]) && (benevolent ==> orders[i].Airlift? || orders[i].Negotiate?)
  }

  predicate AdvancesFrom(orders: seq<Order>, ts: seq<Territory>, p: PlayerId, owned: seq<nat>, attacks: seq<nat>, pool: int) {
    forall i :: 0 <= i < |orders| ==> AdvanceFromOwned(orders[i], ts, p, owned, attacks, pool)
  }

  /**
   * What a turn of the aggressive or benevolent player queues: the player's
   * own orders only; first one deploy per owned territory, to an owned
   * territory, of 1 to pool armies; then advances from owned territories to
   * targets it chose; then at most one card order (for the benevolent
   * player only an Airlift or a Negotiate).
   */
  predicate TurnShape(orders: seq<Order>, ts: seq<Territory>, p: PlayerId, owned: seq<nat>, attacks: seq<nat>, pool: int, benevolent: bool) {
    && AllIssuedBy(orders, p)
    && |owned| <= |orders|
    && (forall i :: 0 <= i < |owned| ==>
          orders[i].Deploy? && orders[i].target in owned && 1 <= orders[i].amount <= pool)
    && (forall i :: |owned| <= i < |orders| ==>
          || AdvanceFromOwned(orders[i], ts, p, owned, attacks, pool)
          || (i == |orders| - 1 && CardOrder(orders[i]) && (benevolent ==> orders[i].Airlift? || orders[i].Negotiate?)))
  }

  lemma JoinTurn(deploys: seq<Order>, advances: seq<Order>, card: seq<Order>, ts: seq<Territory>, p: PlayerId,
                 owned: seq<nat>, attacks: seq<nat>, pool: int, benevolent: bool)
    requires DeployedTo(deploys, p, owned, pool)
    requires AdvancesFrom(advances, ts, p, owned, attacks, pool)
    requires CardOrders(card, p, benevolent)
    ensures TurnShape(deploys + advances + card, ts, p, owned, attacks, pool, benevolent)
    ensures |deploys + advances + card| <= |owned| + |advances| + 1
  {
    var orders := deploys + advances + card;
    var n := |deploys| + |advances|;
    forall i | 0 <= i < |orders|
      ensures orders[i].player == p
    {
      if i < |deploys| {
        assert orders[i] == deploys[i];
      } else if i < n {
        assert orders[i] == advances[i - |deploys|];
      } else {
        assert orders[i] == card[i - n];
      }
    }
  }

  /** An aggressive turn with territories to defend and armies in the pool, or with no territories, has the TurnShape. */
  lemma AggressiveTurnShape(ts: seq<Territory>, p: PlayerId, friends: seq<PlayerId>, owned: seq<nat>, rival: Option<PlayerId>,
                            pool: int, cards: seq<Option<CardType>>, stream: nat -> nat, start: nat)
    requires owned == [] || pool >= 1
    ensures var turn := AggressiveTurn(ts, p, friends, owned, rival, pool, cards, stream, start);
      && TurnShape(turn.orders, ts, p, owned, AttackOrder(ts, p, friends, owned), pool, false)
      && |turn.orders| <= |owned| + |AttackOrder(ts, p, friends, owned)| + 1
  {
    var targets := DefendOrder(ts, p, friends, owned);
    assert |targets| == |owned| by {
      DefendOrderPermutesOwned(ts, p, friends, owned);
    }
    var attacks := AttackOrder(ts, p, friends, owned);
    assert owned == [] ==> attacks == [] by {
      if owned == [] {
        AttackOrderNeedsTerritory(ts, p, friends, owned);
      }
    }
    var deploys := Deploys(p, targets, pool, stream, start);
    var advances := Advances(ts, p, owned, attacks, pool, stream, deploys.next);
    var last := CardStep(true, ts, p, friends, owned, rival, pool, cards, stream, advances.next);
    var turn := AggressiveTurn(ts, p, friends, owned, rival, pool, cards, stream, start);
    assert turn.orders == deploys.orders + advances.orders + last.orders by {
      AggressiveTurnUnfolds(ts, p, friends, owned, rival, pool, cards, stream, start);
    }
    assert DeployedTo(deploys.orders, p, owned, pool) by {
      DefendOrderPermutesOwned(ts, p, friends, owned);
      DeploysToOwned(p, owned, targets, pool, stream, start);
    }
    assert CardOrders(last.orders, p, false) by {
      CardStepOrders(true, ts, p, friends, owned, rival, pool, cards, stream, advances.next);
    }
    assert AdvancesFrom(advances.orders, ts, p, owned, attacks, pool) by {
      AdvancesFromOwnedNeighbours(ts, p, owned, attacks, pool, stream, deploys.next);
    }
    JoinTurn(deploys.orders, advances.orders, last.orders, ts, p, owned, attacks, pool, false);
  }

  /** A benevolent turn queues no advance and at most one card order after its deploys. */
  lemma BenevolentTurnShape(ts: seq<Territory>, p: PlayerId, friends: seq<PlayerId>, owned: seq<nat>, rival: Option<PlayerId>,
                            pool: int, cards: seq<Option<CardType>>, stream: nat -> nat, start: nat)
    requires owned == [] || pool >= 1
    ensures var turn := BenevolentTurn(ts, p, friends, owned, rival, pool, cards, stream, start);
      && TurnShape(turn.orders, ts, p, owned, [], pool, true)
      && |turn.orders| <= |owned| + 1
  {
    var targets := DefendOrder(ts, p, friends, owned);
    assert |targets| == |owned| by {
      DefendOrderPermutesOwned(ts, p, friends, owned);
    }
    var deploys := Deploys(p, targets, pool, stream, start);
    var last := CardStep(false, ts, p, friends, owned, rival, pool, cards, stream, deploys.next);
    assert CardOrders(last.orders, p, true) by {
      CardStepOrders(false, ts, p, friends, owned, rival, pool, cards, stream, deploys.next);
    }
    var turn := BenevolentTurn(ts, p, friends, owned, rival, pool, cards, stream, start);
    assert turn.orders == deploys.orders + [] + last.orders by {
      BenevolentTurnUnfolds(ts, p, friends, owned, rival, pool, cards, stream, start);
      assert deploys.orders + [] + last.orders == deploys.orders + last.orders;
    }
    assert DeployedTo(deploys.orders, p, owned, pool) by {
      DefendOrderPermutesOwned(ts, p, friends, owned);
      DeploysToOwned(p, owned, targets, pool, stream, start);
    }
    JoinTurn(deploys.orders, [], last.orders, ts, p, owned, [], pool, true);
  }

  /** An aggressive turn that does not stall is its deploys, then its advances, then its card step. */
  lemma AggressiveTurnJoin(ts: seq<Territory>, p: PlayerId, friends: seq<PlayerId>, owned: seq<nat>, rival: Option<PlayerId>,
                           pool: int, cards: seq<Option<CardType>>, stream: nat -> nat, start: nat,
                           before: seq<Order>, deployed: seq<Order>, d: nat, advanced: seq<Order>, e: nat,
                           orders: seq<Order>, pool': int, cards': seq<Option<CardType>>, drawn: nat)
    requires DefendOrder(ts, p, friends, owned) == [] || pool >= 1
    requires var deploys := Deploys(p, DefendOrder(ts, p, friends, owned), pool, stream, start);
      deployed == before + deploys.orders && d == deploys.next
    requires var r := Advances(ts, p, owned, AttackOrder(ts, p, friends, owned), pool, stream, d);
      advanced == deployed + r.orders && e == r.next
    requires TookTurn(CardStep(true, ts, p, friends, owned, rival, pool, cards, stream, e), advanced, orders, pool', cards', drawn)
    ensures TookTurn(AggressiveTurn(ts, p, friends, owned, rival, pool, cards, stream, start), before, orders, pool', cards', drawn)
  {
    AggressiveTurnUnfolds(ts, p, friends, owned, rival, pool, cards, stream, start);
    var deploys := Deploys(p, DefendOrder(ts, p, friends, owned), pool, stream, start);
    var r := Advances(ts, p, owned, AttackOrder(ts, p, friends, owned), pool, stream, d);
    var last := CardStep(true, ts, p, friends, owned, rival, pool, cards, stream, e);
    assert orders == before + (deploys.orders + r.orders + last.orders) by {
      AppendThree(before, deploys.orders, r.orders, last.orders);
    }
  }

  lemma AppendAssoc(a: seq<Order>, b: seq<Order>, c: seq<Order>)
    ensures a + (b + c) == a + b + c
  {
  }

  lemma AppendThree(a: seq<Order>, b: seq<Order>, c: seq<Order>, e: seq<Order>)
    ensures a + b + c + e == a + (b + c + e)
  {
  }

  /** A benevolent turn that does not stall is its deploys followed by its card step. */
  lemma BenevolentTurnJoin(ts: seq<Territory>, p: PlayerId, friends: seq<PlayerId>, owned: seq<nat>, rival: Option<PlayerId>,
                           pool: int, cards: seq<Option<CardType>>, stream: nat -> nat, start: nat,
                           before: seq<Order>, deployed: seq<Order>, d: nat,
                           orders: seq<Order>, pool': int, cards': seq<Option<CardType>>, drawn: nat)
    requires DefendOrder(ts, p, friends, owned) == [] || pool >= 1
    requires var deploys := Deploys(p, DefendOrder(ts, p, friends, owned), pool, stream, start);
      deployed == before + deploys.orders && d == deploys.next
    requires TookTurn(CardStep(false, ts, p, friends, owned, rival, pool, cards, stream, d), deployed, orders, pool', cards', drawn)
    ensures TookTurn(BenevolentTurn(ts, p, friends, owned, rival, pool, cards, stream, start), before, orders, pool', cards', drawn)
  {
    BenevolentTurnUnfolds(ts, p, friends, owned, rival, pool, cards, stream, start);
  }

  /** With territories to defend and an empty pool, the aggressive and benevolent players stop before doing anything. */
  lemma EmptyPoolStallsTurn(ts: seq<Territory>, p: PlayerId, friends: seq<PlayerId>, owned: seq<nat>, rival: Option<PlayerId>,
                            pool: int, cards: seq<Option<CardType>>, stream: nat -> nat, start: nat)
    requires owned != [] && pool <= 0
    ensures AggressiveTurn(ts, p, friends, owned, rival, pool, cards, stream, start) == Turn([], pool, cards, start)
    ensures BenevolentTurn(ts, p, friends, owned, rival, pool, cards, stream, start) == Turn([], pool, cards, start)
  {
    DefendOrderPermutesOwned(ts, p, friends, owned);
  }

  /**
   * The card step loses no card it does not play: the hand is unchanged when
   * the card is put back, and loses just its top when it is played or null.
   */
  lemma CardStepKeepsHand(aggressive: bool, ts: seq<Territory>, p: PlayerId, friends: seq<PlayerId>, owned: seq<nat>,
                          rival: Option<PlayerId>, pool: int, cards: seq<Option<CardType>>, stream: nat -> nat, d: nat)
    ensures var step := CardStep(aggressive, ts, p, friends, owned, rival, pool, cards, stream, d);
      && (cards == [] ==> step == Turn([], pool, cards, d))
      && (cards != [] ==> step.cards == cards || step.cards == cards[..|cards| - 1])
      && (step.orders != [] || step.pool != pool ==> step.cards == cards[..|cards| - 1] && step.next == d + 1)
  {
    var (card, rest) := HandDraw(cards);
    if cards != [] {
      assert rest + [card] == cards;
    }
  }

  lemma {:induction false} NoDupCount(b: seq<nat>)
    requires NoDup(b)
    ensures forall x :: multiset(b)[x] <= 1
  {
    if b != [] {
      var init := b[..|b| - 1];
      var last := b[|b| - 1];
      assert b == init + [last];
      NoDupCount(init);
      assert last !in init by {
        assert forall k :: 0 <= k < |init| ==> init[k] == b[k] != b[|b| - 1];
      }
    }
  }

  /** A permutation of a list without duplicates has none. */
  lemma PermutationNoDup(a: seq<nat>, b: seq<nat>)
    requires multiset(a) == multiset(b) && NoDup(b)
    ensures NoDup(a)
  {
    NoDupCount(b);
    forall i, j | 0 <= i < j < |a|
      ensures a[i] != a[j]
    {
      assert a == a[..j] + [a[j]] + a[j + 1..];
      assert a[i] in a[..j];
      assert multiset(a)[a[j]] == multiset(a[..j])[a[j]] + 1 + multiset(a[j + 1..])[a[j]];
    }
  }

  /**
   * The Airlift card moves armies from the owned territory with the fewest
   * enemy neighbours to another owned territory with the most foreign
   * neighbours, leaving one army behind.
   */
  lemma AirliftFromFirst(ts: seq<Territory>, p: PlayerId, defend: seq<nat>)
    requires NoDup(defend) && |defend| >= 2
    ensures var play := AirliftPlay(ts, p, defend);
      && play.orders == [Order.Airlift(p, defend[0], play.orders[0].target, ArmiesOf(ts, defend[0]) - 1)]
      && play.orders[0].target in defend && play.orders[0].target != defend[0]
      && (forall x :: x in defend && x != defend[0] ==>
            ForeignCount(ts, p, AdjacentOf(ts, x)) <= ForeignCount(ts, p, AdjacentOf(ts, play.orders[0].target)))
  {
    var r := MostExposed(ts, p, defend, Some(defend[0]), defend[1]);
    MostExposedIsMost(ts, p, defend, Some(defend[0]), defend[1]);
    if r.0 == 0 {
      assert r.1 == defend[1] != defend[0];
    }
  }

  lemma AirliftMovesToMostExposed(ts: seq<Territory>, p: PlayerId, friends: seq<PlayerId>, owned: seq<nat>)
    requires NoDup(owned) && |owned| >= 2
    ensures var play := AirliftPlay(ts, p, DefendOrder(ts, p, friends, owned));
      && |play.orders| == 1 && play.orders[0].Airlift?
      && var o := play.orders[0];
      && o.player == p && o.source != o.target && o.source in owned && o.target in owned
      && o.amount == ArmiesOf(ts, o.source) - 1
      && (forall x :: x in owned ==> EnemyCount(ts, p, friends, AdjacentOf(ts, o.source)) <= EnemyCount(ts, p, friends, AdjacentOf(ts, x)))
      && (forall x :: x in owned && x != o.source ==> ForeignCount(ts, p, AdjacentOf(ts, x)) <= ForeignCount(ts, p, AdjacentOf(ts, o.target)))
  {
    var defend := DefendOrder(ts, p, friends, owned);
    assert |defend| == |owned| && (forall x :: x in owned <==> x in defend) && NoDup(defend) by {
      DefendOrderPermutesOwned(ts, p, friends, owned);
      PermutationNoDup(defend, owned);
    }
    assert forall x :: x in owned ==>
      EnemyCount(ts, p, friends, AdjacentOf(ts, defend[0])) <= EnemyCount(ts, p, friends, AdjacentOf(ts, x)) by {
      DefendOrderByThreat(ts, p, friends, owned);
      forall x | x in owned
        ensures EnemyCount(ts, p, friends, AdjacentOf(ts, defend[0])) <= EnemyCount(ts, p, friends, AdjacentOf(ts, x))
      {
        var j :| 0 <= j < |defend| && defend[j] == x;
        if j > 0 {
          assert 0 < j < |defend|;
        }
      }
    }
    AirliftFromFirst(ts, p, defend);
  }

  /** The aggressive player's Bomb card targets the strongest territory it may attack. */
  lemma BombTargetsStrongest(ts: seq<Territory>, p: PlayerId, friends: seq<PlayerId>, owned: seq<nat>, rival: Option<PlayerId>)
    requires AttackOrder(ts, p, friends, owned) != []
    ensures var play := AggressivePlay(ts, p, friends, owned, CardType.Bomb, rival);
      && play == Play([Order.Bomb(p, play.orders[0].target)], 0)
      && var t := play.orders[0].target;
      && Enemy(ts, p, friends, t) && t < |ts|
      && (exists k :: 0 <= k < |owned| && t in AdjacentOf(ts, owned[k]))
      && (forall x :: x in AttackOrder(ts, p, friends, owned) ==> x < |ts| && ts[x].armies <= ts[t].armies)
  {
    var attacks := AttackOrder(ts, p, friends, owned);
    AttackOrderIsWeakestFirst(ts, p, friends, owned);
    var n := |attacks| - 1;
    forall x | x in attacks
      ensures ts[x].armies <= ts[attacks[n]].armies
    {
      var j :| 0 <= j < |attacks| && attacks[j] == x;
      if j < n {
        assert ts[attacks[j]].armies <= ts[attacks[n]].armies;
      }
    }
  }

  // ----- the Diplomacy card's choice -----

  /** A player the Diplomacy card may pick: not p and not already a friend. */
  predicate Eligible(q: PlayerId, p: PlayerId, friends: seq<PlayerId>) {
    q != p && q !in friends
  }

  /** Every listed player is in the roster. */
  predicate Listed(roster: seq<Player>, players: seq<PlayerId>) {
    forall i :: 0 <= i < |players| ==> players[i] < |roster|
  }

  /**
   * The Diplomacy loop: the first eligible player of the game's list with
   * strictly more territories than every eligible player before it.
   */
  function Rival(roster: seq<Player>, players: seq<PlayerId>, p: PlayerId, friends: seq<PlayerId>): (r: Option<PlayerId>)
    reads roster`territories
    requires Listed(roster, players)
    ensures r.Some? ==> r.value < |roster|
  {
    if players == [] then None
    else
      var q := players[|players| - 1];
      var prior := Rival(roster, players[..|players| - 1], p, friends);
      if !Eligible(q, p, friends) then prior
      else if prior.None? || |roster[q].territories| > |roster[prior.value].territories| then Some(q)
      else prior
  }

  /** There is a rival exactly when some listed player is eligible, and the rival owns at least as many territories as any eligible player. */
  lemma {:induction false} RivalIsLargest(roster: seq<Player>, players: seq<PlayerId>, p: PlayerId, friends: seq<PlayerId>)
    requires Listed(roster, players)
    ensures var r := Rival(roster, players, p, friends);
      && (r.None? <==> forall q :: q in players ==> !Eligible(q, p, friends))
      && (r.Some? ==> (r.value in players && Eligible(r.value, p, friends)
            && forall q :: q in players && Eligible(q, p, friends) ==> |roster[q].territories| <= |roster[r.value].territories|))
  {
    if players != [] {
      var q := players[|players| - 1];
      RivalIsLargest(roster, players[..|players| - 1], p, friends);
      assert forall x :: x in players <==> x in players[..|players| - 1] || x == q;
    }
  }

  // ----- the cheater -----

  /** The map after the cheater sets CheaterArmies on each of its territories in turn. */
  function Fortified(ts: seq<Territory>, owned: seq<nat>): (r: seq<Territory>)
    ensures |r| == |ts|
  {
    if owned == [] then ts
    else
      var prior := Fortified(ts, owned[..|owned| - 1]);
      var t := owned[|owned| - 1];
      if t < |prior| then prior[t := prior[t].(armies := CheaterArmies)] else prior
  }

  /** Fortifying sets CheaterArmies on the owned territories and changes nothing else. */
  lemma {:induction false} FortifiedSetsArmies(ts: seq<Territory>, owned: seq<nat>)
    ensures var r := Fortified(ts, owned);
      forall k :: 0 <= k < |ts| ==>
        r[k] == ts[k].(armies := if k in owned then CheaterArmies else ts[k].armies)
  {
    if owned != [] {
      var t := owned[|owned| - 1];
      FortifiedSetsArmies(ts, owned[..|owned| - 1]);
      assert forall k :: k in owned <==> k in owned[..|owned| - 1] || k == t;
    }
  }

  /** One cheater advance of CheaterAdvance armies, with no deck, from each source to t. */
  function AdvancesTo(p: PlayerId, sources: seq<nat>, t: nat): (r: seq<Order>)
    ensures |r| == |sources|
  {
    if sources == [] then []
    else AdvancesTo(p, sources[..|sources| - 1], t) + [Advance(p, sources[|sources| - 1], t, CheaterAdvance, false)]
  }

  /** The i-th advance goes from the i-th source to t. */
  lemma {:induction false} AdvancesToEach(p: PlayerId, sources: seq<nat>, t: nat)
    ensures var r := AdvancesTo(p, sources, t);
      forall i :: 0 <= i < |r| ==> r[i] == Advance(p, sources[i], t, CheaterAdvance, false)
  {
    if sources != [] {
      AdvancesToEach(p, sources[..|sources| - 1], t);
    }
  }

  /** CheaterPlayer::issueOrder's loops: for each target, an advance from every owned territory in its adjacency list. */
  function CheaterAdvances(ts: seq<Territory>, p: PlayerId, owned: seq<nat>, targets: seq<nat>): seq<Order> {
    if targets == [] then []
    else
      var t := targets[|targets| - 1];
      CheaterAdvances(ts, p, owned, targets[..|targets| - 1]) + AdvancesTo(p, SourcesOf(ts, owned, t), t)
  }

  /**
   * Every cheater advance names CheaterAdvance armies and no deck, and goes
   * from an owned territory to a territory not owned by the cheater that
   * lists it as adjacent.
   */
  lemma {:induction false} CheaterAdvancesFromOwned(ts: seq<Territory>, p: PlayerId, owned: seq<nat>, targets: seq<nat>)
    ensures forall o :: o in CheaterAdvances(ts, p, owned, targets) ==>
      && o.Advance? && o == Advance(p, o.source, o.target, CheaterAdvance, false)
      && o.source in owned && o.source in AdjacentOf(ts, o.target) && o.target in targets
  {
    if targets != [] {
      var t := targets[|targets| - 1];
      var init := targets[..|targets| - 1];
      CheaterAdvancesFromOwned(ts, p, owned, init);
      var sources := SourcesOf(ts, owned, t);
      SourcesOfAreOwnedNeighbours(ts, owned, t);
      AdvancesToEach(p, sources, t);
      forall o | o in AdvancesTo(p, sources, t)
        ensures o.Advance? && o == Advance(p, o.source, o.target, CheaterAdvance, false)
        ensures o.source in owned && o.source in AdjacentOf(ts, o.target) && o.target in targets
      {
        var i :| 0 <= i < |sources| && AdvancesTo(p, sources, t)[i] == o;
      }
    }
  }

  /** The cheater's targets are the territories it does not own next to one of its own: it advances on each. */
  lemma CheaterAttacksEveryNeighbour(ts: seq<Territory>, p: PlayerId, owned: seq<nat>)
    ensures var targets := AdjacentEnemies(ts, p, owned);
      forall t, s :: t in targets && s in owned && s in AdjacentOf(ts, t) ==>
        Advance(p, s, t, CheaterAdvance, false) in CheaterAdvances(ts, p, owned, targets)
  {
    var targets := AdjacentEnemies(ts, p, owned);
    forall t, s | t in targets && s in owned && s in AdjacentOf(ts, t)
      ensures Advance(p, s, t, CheaterAdvance, false) in CheaterAdvances(ts, p, owned, targets)
    {
      var j :| 0 <= j < |targets| && targets[j] == t;
      CheaterAdvancesInclude(ts, p, owned, targets, j, s);
    }
  }

  lemma {:induction false} CheaterAdvancesInclude(ts: seq<Territory>, p: PlayerId, owned: seq<nat>, targets: seq<nat>, j: nat, s: nat)
    requires j < |targets| && s in owned && s in AdjacentOf(ts, targets[j])
    ensures Advance(p, s, targets[j], CheaterAdvance, false) in CheaterAdvances(ts, p, owned, targets)
  {
    var n := |targets| - 1;
    var o := Advance(p, s, targets[j], CheaterAdvance, false);
    var front := CheaterAdvances(ts, p, owned, targets[..n]);
    var back := AdvancesTo(p, SourcesOf(ts, owned, targets[n]), targets[n]);
    assert CheaterAdvances(ts, p, owned, targets) == front + back;
    if j < n {
      assert targets[..n][j] == targets[j];
      CheaterAdvancesInclude(ts, p, owned, targets[..n], j, s);
      assert o in front;
    } else {
      var sources := SourcesOf(ts, owned, targets[j]);
      SourcesOfAreOwnedNeighbours(ts, owned, targets[j]);
      AdvancesToEach(p, sources, targets[j]);
      var i :| 0 <= i < |sources| && sources[i] == s;
      assert back[i] == o;
    }
  }

  // ----- Player::toDefend and Player::toAttack -----

  /** toDefend of each computer strategy. */
  function DefendList(s: Strategy, ts: seq<Territory>, p: PlayerId, friends: seq<PlayerId>, owned: seq<nat>): seq<nat>
    requires s != Human
  {
    match s
    case Aggressive => DefendOrder(ts, p, friends, owned)
    case Benevolent => DefendOrder(ts, p, friends, owned)
    case Neutral => []
    case Cheater => owned
  }

  /** toAttack of each computer strategy. */
  function AttackList(s: Strategy, ts: seq<Territory>, p: PlayerId, friends: seq<PlayerId>, owned: seq<nat>): seq<nat>
    requires s != Human
  {
    match s
    case Aggressive => AttackOrder(ts, p, friends, owned)
    case Benevolent => []
    case Neutral => []
    case Cheater => AdjacentEnemies(ts, p, owned)
  }

  /**
   * Every computer strategy defends only its own territories and attacks
   * only territories it does not own that lie next to one of its own.
   */
  lemma StrategiesDefendOwnAttackForeign(s: Strategy, ts: seq<Territory>, p: PlayerId, friends: seq<PlayerId>, owned: seq<nat>)
    requires s != Human
    ensures forall t :: t in DefendList(s, ts, p, friends, owned) ==> t in owned
    ensures forall t :: t in AttackList(s, ts, p, friends, owned) ==>
      OwnerOf(ts, t) != Some(p) && exists k :: 0 <= k < |owned| && t in AdjacentOf(ts, owned[k])
  {
    DefendOrderPermutesOwned(ts, p, friends, owned);
    if s == Aggressive {
      AttackOrderIsWeakestFirst(ts, p, friends, owned);
      var a := AttackOrder(ts, p, friends, owned);
      forall t | t in a
        ensures OwnerOf(ts, t) != Some(p) && exists k :: 0 <= k < |owned| && t in AdjacentOf(ts, owned[k])
      {
        var i :| 0 <= i < |a| && a[i] == t;
      }
    }
  }

  // ----- issuing the orders -----

  /** The player's queue, pool and hand, and the dice, are where turn t leaves them. */
  predicate TookTurn(t: Turn, before: seq<Order>, orders: seq<Order>, pool: int, cards: seq<Option<CardType>>, drawn: nat) {
    orders == before + t.orders && pool == t.pool && cards == t.cards && drawn == t.next
  }

  /**
   * The deploy loop: one Deploy per target, stopping the whole turn when the
   * pool is empty (the pool does not change while orders are issued, so it
   * stops before the first deploy or not at all).
   */
  method QueueDeploys(player: Player, targets: seq<nat>, dice: Dice) returns (stalled: bool)
    modifies player`orders, dice
    ensures stalled <==> targets != [] && player.pool <= 0
    ensures stalled ==> player.orders == old(player.orders) && dice.drawn == old(dice.drawn)
    ensures !stalled ==> var r := Deploys(player.id, targets, player.pool, dice.stream, old(dice.drawn));
      player.orders == old(player.orders) + r.orders && dice.drawn == r.next
  {
    var i := 0;
    while i < |targets|
      invariant 0 <= i <= |targets|
      invariant i > 0 ==> player.pool >= 1
      invariant player.orders == old(player.orders) + Deploys(player.id, targets[..i], player.pool, dice.stream, old(dice.drawn)).orders
      invariant dice.drawn == old(dice.drawn) + i
    {
      if player.pool <= 0 {
        return true;
      }
      var v := dice.Next();
      assert targets[..i + 1][..i] == targets[..i];
      player.QueueOrder(Deploy(player.id, targets[i], RandomInt(1, player.pool, v)));
      i := i + 1;
    }
    assert targets[..|targets|] == targets;
    return false;
  }

  /** The attack loop of AggressivePlayer::issueOrder. */
  method QueueAdvances(m: Map, player: Player, attacks: seq<nat>, dice: Dice)
    requires player.territories == [] || player.pool >= 1
    modifies player`orders, dice
    ensures var r := Advances(m.territories, player.id, player.territories, attacks, player.pool, dice.stream, old(dice.drawn));
      player.orders == old(player.orders) + r.orders && dice.drawn == r.next
  {
    ghost var ts, p, owned, pool, stream, start := m.territories, player.id, player.territories, player.pool, dice.stream, dice.drawn;
    var i := 0;
    while i < |attacks|
      invariant 0 <= i <= |attacks|
      invariant ts == m.territories && p == player.id && owned == player.territories && pool == player.pool && stream == dice.stream
      invariant player.orders == old(player.orders) + Advances(ts, p, owned, attacks[..i], pool, stream, start).orders
      invariant dice.drawn == Advances(ts, p, owned, attacks[..i], pool, stream, start).next
    {
      QueueAttackAt(m, player, attacks, i, dice, old(player.orders), ts, p, owned, pool, stream, start);
      i := i + 1;
    }
    assert attacks[..|attacks|] == attacks;
  }

  /** One pass of the attack loop: the orders and draws of the first i targets become those of the first i + 1. */
  method QueueAttackAt(m: Map, player: Player, attacks: seq<nat>, i: nat, dice: Dice, ghost before: seq<Order>,
                       ghost ts: seq<Territory>, ghost p: PlayerId, ghost owned: seq<nat>, ghost pool: int, ghost stream: nat -> nat, ghost start: nat)
    requires i < |attacks| && (owned == [] || pool >= 1)
    requires ts == m.territories && p == player.id && owned == player.territories && pool == player.pool && stream == dice.stream
    requires player.orders == before + Advances(ts, p, owned, attacks[..i], pool, stream, start).orders
    requires dice.drawn == Advances(ts, p, owned, attacks[..i], pool, stream, start).next
    modifies player`orders, dice
    ensures player.orders == before + Advances(ts, p, owned, attacks[..i + 1], pool, stream, start).orders
    ensures dice.drawn == Advances(ts, p, owned, attacks[..i + 1], pool, stream, start).next
  {
    AdvancesOneMore(ts, p, owned, attacks, i, pool, stream, start);
    QueueAttack(m, player, attacks[i], dice);
  }

  /** The attack loop's next round appends the advance on attacks[i], drawn from where the earlier rounds stopped. */
  lemma AdvancesOneMore(ts: seq<Territory>, p: PlayerId, owned: seq<nat>, attacks: seq<nat>, i: nat, pool: int, stream: nat -> nat, start: nat)
    requires i < |attacks| && (owned == [] || pool >= 1)
    ensures var prior := Advances(ts, p, owned, attacks[..i], pool, stream, start);
      var step := AttackStep(ts, p, owned, attacks[i], pool, stream, prior.next);
      Advances(ts, p, owned, attacks[..i + 1], pool, stream, start) == Issued(prior.orders + step.orders, step.next)
  {
    assert attacks[..i + 1][..i] == attacks[..i];
  }

  /** One round of the attack loop: the sources of t, then the advance. */
  method QueueAttack(m: Map, player: Player, t: nat, dice: Dice)
    requires player.territories == [] || player.pool >= 1
    modifies player`orders, dice
    ensures var r := AttackStep(m.territories, player.id, player.territories, t, player.pool, dice.stream, old(dice.drawn));
      player.orders == old(player.orders) + r.orders && dice.drawn == r.next
  {
    var sources := FindSources(m, player.territories, t);
    if sources != [] {
      var pick := 0;
      if |sources| > 1 {
        var v := dice.Next();
        pick := RandomInt(0, |sources| - 1, v);
      }
      var v := dice.Next();
      player.QueueOrder(Advance(player.id, sources[pick], t, RandomInt(1, player.pool, v), true));
    }
  }

  /** The inner loop of the "most enemies" search: the entries of adj the player does not own. */
  method CountForeign(m: Map, p: PlayerId, adj: seq<nat>) returns (n: nat)
    ensures n == ForeignCount(m.territories, p, adj)
  {
    n := 0;
    var i := 0;
    while i < |adj|
      invariant 0 <= i <= |adj|
      invariant n == ForeignCount(m.territories, p, adj[..i])
    {
      assert adj[..i + 1][..i] == adj[..i];
      if OwnerOf(m.territories, adj[i]) != Some(p) {
        n := n + 1;
      }
      i := i + 1;
    }
    assert adj[..|adj|] == adj;
  }

  /** The outer loop of the "most enemies" search of the Blockade and Airlift cards. */
  method FindMostExposed(m: Map, p: PlayerId, list: seq<nat>, skip: Option<nat>, initial: nat) returns (r: (nat, nat))
    ensures r == MostExposed(m.territories, p, list, skip, initial)
  {
    var count, target := 0, initial;
    var i := 0;
    while i < |list|
      invariant 0 <= i <= |list|
      invariant (count, target) == MostExposed(m.territories, p, list[..i], skip, initial)
    {
      assert list[..i + 1][..i] == list[..i];
      if Some(list[i]) != skip {
        var n := CountForeign(m, p, AdjacentOf(m.territories, list[i]));
        if n > count {
          count, target := n, list[i];
        }
      }
      i := i + 1;
    }
    assert list[..|list|] == list;
    r := (count, target);
  }

  /** The Diplomacy card's loop over the game's players. */
  method FindRival(roster: seq<Player>, players: seq<PlayerId>, player: Player) returns (r: Option<PlayerId>)
    requires Listed(roster, players)
    ensures r == Rival(roster, players, player.id, player.friends)
  {
    r := None;
    var i := 0;
    while i < |players|
      invariant 0 <= i <= |players|
      invariant r == Rival(roster, players[..i], player.id, player.friends)
    {
      assert players[..i + 1][..i] == players[..i];
      var q := players[i];
      if q != player.id && !player.IsFriendsWith(Some(q)) {
        if r.None? || |roster[q].territories| > |roster[r.value].territories| {
          r := Some(q);
        }
      }
      i := i + 1;
    }
    assert players[..|players|] == players;
  }

  /** The card step of issueOrder, for the aggressive (Bomb and Blockade played) or the benevolent player. */
  method PlayCard(aggressive: bool, m: Map, roster: seq<Player>, players: seq<PlayerId>, player: Player, dice: Dice)
    requires Listed(roster, players)
    modifies player`orders, player`pool, player`cards, dice
    ensures TookTurn(CardStep(aggressive, m.territories, player.id, player.friends, player.territories, Rival(roster, players, player.id, player.friends),
                              old(player.pool), old(player.cards), dice.stream, old(dice.drawn)),
                     old(player.orders), player.orders, player.pool, player.cards, dice.drawn)
  {
    var card := player.DrawFromHand();
    if card.None? {
      return;
    }
    var v := dice.Next();
    if !Coin(v) {
      player.PushToHand(card);
      return;
    }
    ghost var rival := Rival(roster, players, player.id, player.friends);
    PlayDrawn(aggressive, m, roster, players, player, card.value);
  }

  /** The card switch: the orders and reinforcements of a card the coin says to play. */
  method PlayDrawn(aggressive: bool, m: Map, roster: seq<Player>, players: seq<PlayerId>, player: Player, card: CardType)
    requires Listed(roster, players)
    modifies player`orders, player`pool
    ensures aggressive ==> var play := AggressivePlay(m.territories, player.id, player.friends, player.territories, card, Rival(roster, players, player.id, player.friends));
      player.orders == old(player.orders) + play.orders && player.pool == old(player.pool) + play.bonus
    ensures !aggressive ==> var play := BenevolentPlay(m.territories, player.id, player.friends, player.territories, card, Rival(roster, players, player.id, player.friends));
      player.orders == old(player.orders) + play.orders && player.pool == old(player.pool) + play.bonus
  {
    match card
    case Bomb =>
      if aggressive {
        PlayBomb(m, player);
      }
    case Reinforcement =>
      player.AddReinforcementToPool(ReinforcementBonus);
    case Blockade =>
      if aggressive {
        PlayBlockade(m, player);
      }
    case Airlift =>
      PlayAirlift(m, player);
    case Diplomacy =>
      PlayDiplomacy(roster, players, player);
  }

  /** The Bomb case of AggressivePlayer::issueOrder. */
  method PlayBomb(m: Map, player: Player)
    modifies player`orders
    ensures player.orders == old(player.orders) + BombPlay(m.territories, player.id, player.friends, player.territories).orders
  {
    var attacks := ToAttack(m, player);
    if attacks != [] {
      player.QueueOrder(Order.Bomb(player.id, attacks[|attacks| - 1]));
    }
  }

  /** The Blockade case of AggressivePlayer::issueOrder. */
  method PlayBlockade(m: Map, player: Player)
    modifies player`orders
    ensures player.orders == old(player.orders) + BlockadePlay(m.territories, player.id, player.friends, player.territories).orders
  {
    var defend := ToDefend(m, player);
    if defend != [] {
      var exposed := FindMostExposed(m, player.id, defend, None, defend[0]);
      player.QueueOrder(Order.Blockade(player.id, exposed.1));
    }
  }

  /** The Airlift case of both issueOrder methods. */
  method PlayAirlift(m: Map, player: Player)
    modifies player`orders
    ensures player.orders == old(player.orders) + AirliftPlay(m.territories, player.id, DefendOrder(m.territories, player.id, player.friends, player.territories)).orders
  {
    var defend := ToDefend(m, player);
    ghost var play := AirliftPlay(m.territories, player.id, defend);
    if |defend| >= 2 {
      var exposed := FindMostExposed(m, player.id, defend, Some(defend[0]), defend[1]);
      assert play.orders == [Order.Airlift(player.id, defend[0], exposed.1, ArmiesOf(m.territories, defend[0]) - 1)];
      player.QueueOrder(Order.Airlift(player.id, defend[0], exposed.1, ArmiesOf(m.territories, defend[0]) - 1));
    }
  }

  /** The Diplomacy case of both issueOrder methods. */
  method PlayDiplomacy(roster: seq<Player>, players: seq<PlayerId>, player: Player)
    requires Listed(roster, players)
    modifies player`orders
    ensures player.orders == old(player.orders) + DiplomacyPlay(player.id, Rival(roster, players, player.id, player.friends)).orders
  {
    var rival := FindRival(roster, players, player);
    if rival.Some? {
      player.QueueOrder(Negotiate(player.id, rival.value));
    }
  }

  /** What issuing orders leaves as it was: the map, the player's territories and friends, the rival, the random stream. */
  ghost predicate Unmoved(m: Map, roster: seq<Player>, players: seq<PlayerId>, player: Player, dice: Dice,
                          ts: seq<Territory>, owned: seq<nat>, friends: seq<PlayerId>, rival: Option<PlayerId>, stream: nat -> nat)
    requires Listed(roster, players)
    reads m, player, dice, roster`territories
  {
    m.territories == ts && player.territories == owned && player.friends == friends && dice.stream == stream
    && Rival(roster, players, player.id, player.friends) == rival
  }

  /** AggressivePlayer::issueOrder. */
  method IssueAggressive(m: Map, roster: seq<Player>, players: seq<PlayerId>, player: Player, dice: Dice)
    requires Listed(roster, players)
    modifies player`orders, player`pool, player`cards, dice
    ensures TookTurn(AggressiveTurn(m.territories, player.id, player.friends, player.territories, Rival(roster, players, player.id, player.friends),
                                    old(player.pool), old(player.cards), dice.stream, old(dice.drawn)),
                     old(player.orders), player.orders, player.pool, player.cards, dice.drawn)
  {
    ghost var ts, p, friends, owned := m.territories, player.id, player.friends, player.territories;
    ghost var pool, cards, stream, start := player.pool, player.cards, dice.stream, dice.drawn;
    ghost var rival := Rival(roster, players, p, friends);
    var targets := ToDefend(m, player);
    var stalled := QueueDeploys(player, targets, dice);
    if stalled {
      EmptyPoolStallsTurn(ts, p, friends, owned, rival, pool, cards, stream, start);
      assert Unmoved(m, roster, players, player, dice, ts, owned, friends, rival, stream);
      return;
    }
    ghost var deployed, d := player.orders, dice.drawn;
    ghost var r := Advances(ts, p, owned, AttackOrder(ts, p, friends, owned), pool, stream, d);
    AttackThenPlay(m, roster, players, player, dice);
    AggressiveTurnJoin(ts, p, friends, owned, rival, pool, cards, stream, start,
                       old(player.orders), deployed, d, deployed + r.orders, r.next, player.orders, player.pool, player.cards, dice.drawn);
    assert Unmoved(m, roster, players, player, dice, ts, owned, friends, rival, stream);
  }

  /** The part of AggressivePlayer::issueOrder after a deploy loop that did not stall: the attack loop, then the card step. */
  method AttackThenPlay(m: Map, roster: seq<Player>, players: seq<PlayerId>, player: Player, dice: Dice)
    requires Listed(roster, players)
    requires player.territories == [] || player.pool >= 1
    modifies player`orders, player`pool, player`cards, dice
    ensures var r := Advances(m.territories, player.id, player.territories, AttackOrder(m.territories, player.id, player.friends, player.territories),
                              old(player.pool), dice.stream, old(dice.drawn));
      TookTurn(CardStep(true, m.territories, player.id, player.friends, player.territories, Rival(roster, players, player.id, player.friends),
                        old(player.pool), old(player.cards), dice.stream, r.next),
               old(player.orders) + r.orders, player.orders, player.pool, player.cards, dice.drawn)
  {
    ghost var ts, friends, owned := m.territories, player.friends, player.territories;
    var attacks := ToAttack(m, player);
    QueueAdvances(m, player, attacks, dice);
    PlayCard(true, m, roster, players, player, dice);
    assert m.territories == ts && player.friends == friends && player.territories == owned;
  }

  /** BenevolentPlayer::issueOrder. */
  method IssueBenevolent(m: Map, roster: seq<Player>, players: seq<PlayerId>, player: Player, dice: Dice)
    requires Listed(roster, players)
    modifies player`orders, player`pool, player`cards, dice
    ensures TookTurn(BenevolentTurn(m.territories, player.id, player.friends, player.territories, Rival(roster, players, player.id, player.friends),
                                    old(player.pool), old(player.cards), dice.stream, old(dice.drawn)),
                     old(player.orders), player.orders, player.pool, player.cards, dice.drawn)
  {
    ghost var ts, p, friends, owned := m.territories, player.id, player.friends, player.territories;
    ghost var pool, cards, stream, start := player.pool, player.cards, dice.stream, dice.drawn;
    ghost var rival := Rival(roster, players, p, friends);
    var targets := ToDefend(m, player);
    var stalled := QueueDeploys(player, targets, dice);
    if stalled {
      EmptyPoolStallsTurn(ts, p, friends, owned, rival, pool, cards, stream, start);
      return;
    }
    ghost var deployed, d := player.orders, dice.drawn;
    PlayCard(false, m, roster, players, player, dice);
    assert Rival(roster, players, player.id, player.friends) == rival;
    BenevolentTurnJoin(ts, p, friends, owned, rival, pool, cards, stream, start,
                       old(player.orders), deployed, d, player.orders, player.pool, player.cards, dice.drawn);
  }

  /** NeutralPlayer::issueOrder: nothing while the pool is untouched; once attacked, the player turns aggressive and issues. */
  method IssueNeutral(m: Map, roster: seq<Player>, players: seq<PlayerId>, player: Player, dice: Dice)
    requires Listed(roster, players)
    modifies player`orders, player`pool, player`cards, player`strategy, dice
    ensures old(player.pool) == InitialPool ==>
      player.strategy == old(player.strategy) && player.orders == old(player.orders) && player.pool == old(player.pool)
      && player.cards == old(player.cards) && dice.drawn == old(dice.drawn)
    ensures old(player.pool) != InitialPool ==>
      (&& player.strategy == Aggressive
       && TookTurn(AggressiveTurn(m.territories, player.id, player.friends, player.territories, Rival(roster, players, player.id, player.friends),
                                  old(player.pool), old(player.cards), dice.stream, old(dice.drawn)),
                   old(player.orders), player.orders, player.pool, player.cards, dice.drawn))
  {
    if player.pool != InitialPool {
      player.SetStrategy(Aggressive);
      IssueAggressive(m, roster, players, player, dice);
    }
  }

  /** The setArmies loop of CheaterPlayer::issueOrder, over toDefend, which is the owned list. */
  method Fortify(m: Map, owned: seq<nat>)
    requires forall t :: t in owned ==> t < |m.territories|
    modifies m
    ensures m.territories == Fortified(old(m.territories), owned)
    ensures m.continents == old(m.continents)
  {
    var i := 0;
    while i < |owned|
      invariant 0 <= i <= |owned|
      invariant m.territories == Fortified(old(m.territories), owned[..i])
      invariant m.continents == old(m.continents)
    {
      assert owned[..i + 1][..i] == owned[..i];
      assert owned[i] in owned;
      m.SetArmies(owned[i], CheaterArmies);
      i := i + 1;
    }
    assert owned[..|owned|] == owned;
  }

  /** The inner loop of CheaterPlayer::issueOrder: an advance on t from each owned territory t lists as adjacent. */
  method QueueCheaterAdvances(m: Map, player: Player, t: nat)
    modifies player`orders
    ensures player.orders == old(player.orders) + AdvancesTo(player.id, SourcesOf(m.territories, player.territories, t), t)
  {
    var owned := player.territories;
    var adj := if t < |m.territories| then m.territories[t].adjacent else [];
    var k := 0;
    while k < |owned|
      invariant 0 <= k <= |owned|
      invariant player.orders == old(player.orders) + AdvancesTo(player.id, SourcesOf(m.territories, owned[..k], t), t)
    {
      assert owned[..k + 1][..k] == owned[..k];
      if owned[k] in adj {
        player.QueueOrder(Advance(player.id, owned[k], t, CheaterAdvance, false));
      }
      k := k + 1;
    }
    assert owned[..|owned|] == owned;
  }

  /** The outer loop of CheaterPlayer::issueOrder, over toAttack. */
  method QueueCheaterAttacks(m: Map, player: Player, targets: seq<nat>)
    modifies player`orders
    ensures player.orders == old(player.orders) + CheaterAdvances(m.territories, player.id, player.territories, targets)
  {
    ghost var ts, p, owned := m.territories, player.id, player.territories;
    var j := 0;
    while j < |targets|
      invariant 0 <= j <= |targets|
      invariant player.orders == old(player.orders) + CheaterAdvances(ts, p, owned, targets[..j])
    {
      ghost var before := player.orders;
      QueueCheaterAdvances(m, player, targets[j]);
      ghost var back := AdvancesTo(p, SourcesOf(ts, owned, targets[j]), targets[j]);
      assert player.orders == before + back;
      assert targets[..j + 1][..j] == targets[..j];
      assert CheaterAdvances(ts, p, owned, targets[..j + 1]) == CheaterAdvances(ts, p, owned, targets[..j]) + back;
      AppendAssoc(old(player.orders), CheaterAdvances(ts, p, owned, targets[..j]), back);
      j := j + 1;
    }
    assert targets[..|targets|] == targets;
  }

  /** CheaterPlayer::issueOrder. */
  method IssueCheater(m: Map, player: Player)
    requires forall t :: t in player.territories ==> t < |m.territories|
    modifies m, player`orders
    ensures m.territories == Fortified(old(m.territories), player.territories)
    ensures m.continents == old(m.continents)
    ensures player.orders == old(player.orders)
      + CheaterAdvances(m.territories, player.id, player.territories, AdjacentEnemies(m.territories, player.id, player.territories))
  {
    Fortify(m, player.territories);
    var targets := ToAdjacentEnemies(m, player);
    QueueCheaterAttacks(m, player, targets);
  }

  /**
   * Player::issueOrder for the computer strategies: the call goes to the
   * player's strategy. The cheater's territories must be on the map.
   */
  method IssueOrder(m: Map, roster: seq<Player>, players: seq<PlayerId>, player: Player, dice: Dice)
    requires player.strategy != Human
    requires Listed(roster, players)
    requires player.strategy == Cheater ==> forall t :: t in player.territories ==> t < |m.territories|
    modifies m, player`orders, player`pool, player`cards, player`strategy, dice
    ensures old(player.strategy) != Cheater ==> m.territories == old(m.territories)
    ensures player.strategy == (if old(player.strategy) == Neutral && old(player.pool) != InitialPool then Aggressive else old(player.strategy))
    ensures m.continents == old(m.continents) && |m.territories| == |old(m.territories)|
    ensures forall t :: 0 <= t < |m.territories| ==> m.territories[t].owner == old(m.territories)[t].owner
    ensures old(player.strategy) == Aggressive ==>
      TookTurn(AggressiveTurn(m.territories, player.id, player.friends, player.territories, Rival(roster, players, player.id, player.friends),
                              old(player.pool), old(player.cards), dice.stream, old(dice.drawn)),
               old(player.orders), player.orders, player.pool, player.cards, dice.drawn)
    ensures old(player.strategy) == Benevolent ==>
      TookTurn(BenevolentTurn(m.territories, player.id, player.friends, player.territories, Rival(roster, players, player.id, player.friends),
                              old(player.pool), old(player.cards), dice.stream, old(dice.drawn)),
               old(player.orders), player.orders, player.pool, player.cards, dice.drawn)
    ensures old(player.strategy) == Neutral && old(player.pool) == InitialPool ==>
      player.orders == old(player.orders) && player.pool == old(player.pool)
      && player.cards == old(player.cards) && dice.drawn == old(dice.drawn)
    ensures old(player.strategy) == Neutral && old(player.pool) != InitialPool ==>
      TookTurn(AggressiveTurn(m.territories, player.id, player.friends, player.territories, Rival(roster, players, player.id, player.friends),
                              old(player.pool), old(player.cards), dice.stream, old(dice.drawn)),
               old(player.orders), player.orders, player.pool, player.cards, dice.drawn)
    ensures old(player.strategy) == Cheater ==>
      (&& m.territories == Fortified(old(m.territories), player.territories)
       && player.orders == old(player.orders)
            + CheaterAdvances(m.territories, player.id, player.territories, AdjacentEnemies(m.territories, player.id, player.territories)))
  {
    match player.strategy
    case Aggressive => IssueAggressive(m, roster, players, player, dice);
    case Benevolent => IssueBenevolent(m, roster, players, player, dice);
    case Neutral => IssueNeutral(m, roster, players, player, dice);
    case Cheater =>
      ghost var ts := m.territories;
      IssueCheater(m, player);
      FortifiedSetsArmies(ts, player.territories);
  }
}
