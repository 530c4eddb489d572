/**
 * The game engine: the rules GameEngine.cpp applies between turns
 * (reinforcements, the end of the game, the removal of defeated players),
 * the startup command dispatch and the Game object that runs the phases.
 */
module Engine {
  import opened Wrappers
  import opened Board
  import opened Cards
  import Orders
  import opened Players
  import opened Random
  import opened Commands
  import opened MapLoader
  import opened Tournaments
  import OrderRules
  import Strategies

  // ----- Game::calculateReinforcements -----

  /**
   * A third of the territories owned, rounded down, plus the bonuses of the
   * continents owned entirely, and never fewer than three.
   */
  function Reinforcements(owned: nat, rewards: int): (r: int)
    ensures r >= 3 && r >= owned / 3 + rewards
    ensures r == 3 || r == owned / 3 + rewards
  {
    var base := owned / 3 + rewards;
    if base < 3 then 3 else base
  }

  /** Owning more territories never earns fewer reinforcements. */
  lemma ReinforcementsGrow(owned: nat, more: nat, rewards: int)
    requires owned <= more
    ensures Reinforcements(owned, rewards) <= Reinforcements(more, rewards)
  {
  }

  // ----- Game::gameEnded -----

  /** The players of the game's list (ids into the roster) whose strategy is not Human. */
  predicate Automated(roster: seq<Player>, players: seq<PlayerId>)
    reads roster`strategy
  {
    forall k :: 0 <= k < |players| && players[k] < |roster| ==> roster[players[k]].strategy != Human
  }

  /**
   * Game::gameEnded: at most one player is left, or some player's list is as
   * long as the map has territories.
   */
  predicate Ended(n: nat, roster: seq<Player>, players: seq<PlayerId>)
    requires Strategies.Listed(roster, players)
    reads roster`territories
  {
    |players| <= 1 || exists k :: 0 <= k < |players| && |roster[players[k]].territories| == n
  }

  /** The distinct entries of a list. */
  function Members(s: seq<nat>): (r: set<nat>)
    ensures forall x :: x in r <==> x in s
  {
    set x | x in s
  }

  /** The naturals below n. */
  function Below(n: nat): (r: set<nat>)
    ensures forall x: nat :: x in r <==> x < n
    ensures |r| == n
  {
    if n == 0 then {} else Below(n - 1) + {n - 1}
  }

  /** A list without duplicates has as many distinct members as entries. */
  lemma {:induction false} NoDupCard(s: seq<nat>)
    requires NoDup(s)
    ensures |Members(s)| == |s|
  {
    if s != [] {
      var init := s[..|s| - 1];
      var last := s[|s| - 1];
      assert NoDup(init);
      NoDupCard(init);
      assert s == init + [last];
      assert last !in init by {
        assert forall k :: 0 <= k < |init| ==> init[k] == s[k];
      }
      assert Members(s) == Members(init) + {last};
    }
  }

  /**
   * The count gameEnded compares means what it is meant to: under the
   * ownership invariant a player's list is as long as the map exactly when
   * the player owns every territory.
   */
  lemma FullListOwnsAll(ts: seq<Territory>, roster: seq<Player>, p: PlayerId)
    requires Consistent(ts, roster) && p < |roster|
    ensures |roster[p].territories| == |ts| <==> forall t :: 0 <= t < |ts| ==> ts[t].owner == Some(p)
  {
    var list := roster[p].territories;
    var listed := Members(list);
    var range := Below(|ts|);
    NoDupCard(list);
    assert listed <= range;
    assert range * listed == listed;
    if |list| == |ts| {
      assert |range - listed| == 0;
      assert range - listed == {};
      forall t | 0 <= t < |ts|
        ensures ts[t].owner == Some(p)
      {
        assert t in range;
        assert t in listed;
      }
    }
    if forall t :: 0 <= t < |ts| ==> ts[t].owner == Some(p) {
      forall t | t in range
        ensures t in listed
      {
        assert ts[t].owner == Some(p);
      }
      assert listed == range;
    }
  }

  // ----- Game::removeDefeatedPlayers -----

  /** The players of the list that still own a territory, in their order: std::remove_if is stable. */
  function Surviving(roster: seq<Player>, players: seq<PlayerId>): (r: seq<PlayerId>)
    requires Strategies.Listed(roster, players)
    reads roster`territories
    ensures |r| <= |players| && Strategies.Listed(roster, r)
  {
    if players == [] then []
    else
      var last := players[|players| - 1];
      Surviving(roster, players[..|players| - 1]) + (if roster[last].territories != [] then [last] else [])
  }

  /** A player survives exactly when it was in the list and still owns a territory. */
  lemma {:induction false} SurvivingMembers(roster: seq<Player>, players: seq<PlayerId>, p: PlayerId)
    requires Strategies.Listed(roster, players)
    ensures p in Surviving(roster, players) <==> p in players && roster[p].territories != []
  {
    if players != [] {
      var init := players[..|players| - 1];
      SurvivingMembers(roster, init, p);
      assert players == init + [players[|players| - 1]];
    }
  }

  /** The surviving part of a list is the surviving part of its front followed by that of its back. */
  lemma {:induction false} SurvivingAppend(roster: seq<Player>, a: seq<PlayerId>, b: seq<PlayerId>)
    requires Strategies.Listed(roster, a) && Strategies.Listed(roster, b)
    ensures Surviving(roster, a + b) == Surviving(roster, a) + Surviving(roster, b)
    decreases |b|
  {
    if b != [] {
      var init := b[..|b| - 1];
      var last := b[|b| - 1];
      var tail := if roster[last].territories != [] then [last] else [];
      assert (a + b)[..|a + b| - 1] == a + init;
      assert (a + b)[|a + b| - 1] == last;
      assert Surviving(roster, a + b) == Surviving(roster, a + init) + tail;
      assert Surviving(roster, b) == Surviving(roster, init) + tail;
      SurvivingAppend(roster, a, init);
      assert Surviving(roster, a) + Surviving(roster, init) + tail == Surviving(roster, a) + (Surviving(roster, init) + tail);
    } else {
      assert a + b == a;
    }
  }

  /** Removing the defeated leaves no Human player in a list that had none. */
  lemma SurvivingAutomated(roster: seq<Player>, players: seq<PlayerId>)
    requires Strategies.Listed(roster, players) && Automated(roster, players)
    ensures Automated(roster, Surviving(roster, players))
  {
    var left := Surviving(roster, players);
    forall k | 0 <= k < |left|
      ensures roster[left[k]].strategy != Human
    {
      SurvivingMembers(roster, players, left[k]);
    }
  }

  /** Removing the defeated keeps a list without duplicates free of them. */
  lemma {:induction false} SurvivingNoDup(roster: seq<Player>, players: seq<PlayerId>)
    requires Strategies.Listed(roster, players) && NoDup(players)
    ensures NoDup(Surviving(roster, players))
  {
    if players != [] {
      var init := players[..|players| - 1];
      var last := players[|players| - 1];
      assert NoDup(init);
      SurvivingNoDup(roster, init);
      SurvivingMembers(roster, init, last);
      assert last !in init by {
        assert forall k :: 0 <= k < |init| ==> init[k] == players[k];
      }
    }
  }

  // ----- startupPhase -----

  /**
   * The state a legal command leads to during startup, with the failed
   * validatemap going back to Start. `mapValid` is what Map::validate
   * answers for the map loaded. tournament, replay and quit leave the state
   * as it is.
   */
  function AfterCommand(s: GameState, k: Keyword, mapValid: bool): (r: GameState)
    ensures k == ValidateMap ==> (r == MapValidated <==> mapValid)
    ensures k !in {LoadMap, ValidateMap, AddPlayer, GameStart} ==> r == s
  {
    match k
    case LoadMap => MapLoaded
    case ValidateMap => if mapValid then MapValidated else Start
    case AddPlayer => PlayersAdded
    case GameStart => FirstReinforcements
    case _ => s
  }

  /**
   * The same as written: a failed validatemap transitions to Start and then,
   * on the next line, to MapValidated all the same.
   */
  function AfterCommandAsWritten(s: GameState, k: Keyword, mapValid: bool): (r: GameState)
    ensures k == ValidateMap ==> r == MapValidated
  {
    match k
    case LoadMap => MapLoaded
    case ValidateMap => MapValidated
    case AddPlayer => PlayersAdded
    case GameStart => FirstReinforcements
    case _ => s
  }

  /**
   * As written, a map that fails validation is accepted anyway: after
   * loadmap and a failed validatemap, addplayer and then gamestart are legal,
   * so the game starts on the map that validate rejected (and that
   * validatemap has already deleted).
   */
  lemma InvalidMapStartsAsWritten()
    ensures var s := AfterCommandAsWritten(AfterCommandAsWritten(Start, LoadMap, false), ValidateMap, false);
      && ValidateMap in KeywordsLegalIn(MapLoaded)
      && AddPlayer in KeywordsLegalIn(s)
      && GameStart in KeywordsLegalIn(AfterCommandAsWritten(s, AddPlayer, false))
  {
  }

  /** The keywords validate accepts in a state. */
  function KeywordsLegalIn(s: GameState): (r: set<Keyword>)
    ensures forall k :: k in r <==> s in LegalStates(k)
  {
    set k: Keyword | k in {LoadMap, ValidateMap, AddPlayer, GameStart, Replay, Quit, TournamentMode} && s in LegalStates(k)
  }

  /** Map::validate has vouched for the map whenever the state says it has. */
  predicate Vouched(s: GameState, mapValid: bool) {
    s in {MapValidated, PlayersAdded, FirstReinforcements} ==> mapValid
  }

  /**
   * With the corrected transition, every legal startup command keeps the
   * state honest about the map: loadmap starts over, and nothing else can
   * reach MapValidated or beyond with a map validate rejected.
   */
  lemma AfterCommandVouched(s: GameState, k: Keyword, mapValid: bool)
    requires s in LegalStates(k)
    requires k == LoadMap || Vouched(s, mapValid)
    ensures k == LoadMap ==> AfterCommand(s, k, mapValid) == MapLoaded
    ensures Vouched(AfterCommand(s, k, mapValid), mapValid)
  {
  }

  /** As written, a rejected map is vouched for after validatemap. */
  lemma AfterCommandAsWrittenNotVouched()
    ensures MapLoaded in LegalStates(ValidateMap)
    ensures !Vouched(AfterCommandAsWritten(MapLoaded, ValidateMap, false), false)
  {
  }

  // ----- gamestart: dealing the cards -----

  /** The cards a run of draws actually produced: the null draws left out. */
  function Present(draws: seq<Option<CardType>>): (r: seq<CardType>)
    ensures |r| <= |draws|
  {
    if draws == [] then []
    else
      var last := draws[|draws| - 1];
      Present(draws[..|draws| - 1]) + (if last.Some? then [last.value] else [])
  }

  /** Cards as a hand holds them. */
  function Held(cards: seq<CardType>): (r: seq<Option<CardType>>)
    ensures |r| == |cards| && forall i :: 0 <= i < |cards| ==> r[i] == Some(cards[i])
  {
    seq(|cards|, i requires 0 <= i < |cards| => Some(cards[i]))
  }

  /**
   * One Deck::draw reading std::rand() from `stream` at position `at` when
   * the deck is not empty: the card (or null), the deck left and the next
   * position in the stream.
   */
  function DealOne(cards: seq<CardType>, stream: nat -> nat, at: nat): (r: (Option<CardType>, seq<CardType>, nat))
    ensures r.2 == at + RandCalls(cards)
    ensures cards == [] ==> r.0.None? && r.1 == []
    ensures cards != [] ==> r.0.Some? && multiset(r.1) + multiset{r.0.value} == multiset(cards)
  {
    var d := DeckDraw(cards, stream(at));
    (d.0, d.1, at + RandCalls(cards))
  }

  /** n successive draws: what each gave, the deck left, and the next position in the stream. */
  function Deal(cards: seq<CardType>, stream: nat -> nat, at: nat, n: nat): (r: (seq<Option<CardType>>, seq<CardType>, nat))
    ensures |r.0| == n
  {
    if n == 0 then ([], cards, at)
    else
      var before := Deal(cards, stream, at, n - 1);
      var d := DealOne(before.1, stream, before.2);
      (before.0 + [d.0], d.1, d.2)
  }

  /** One more draw adds what it gave to the cards dealt, and takes a card off the deck exactly when it gave one. */
  lemma DealStep(cards: seq<CardType>, stream: nat -> nat, at: nat, n: nat)
    requires n > 0
    ensures var before := Deal(cards, stream, at, n - 1);
      var d := DealOne(before.1, stream, before.2);
      var r := Deal(cards, stream, at, n);
      && Present(r.0) == Present(before.0) + (if d.0.Some? then [d.0.value] else [])
      && r.1 == d.1
  {
    var before := Deal(cards, stream, at, n - 1);
    var d := DealOne(before.1, stream, before.2);
    var draws := before.0 + [d.0];
    assert draws[..|draws| - 1] == before.0;
  }

  /** Dealing creates and loses no card: the cards dealt and the deck left make up the deck dealt from. */
  lemma {:induction false} DealConserves(cards: seq<CardType>, stream: nat -> nat, at: nat, n: nat)
    ensures var r := Deal(cards, stream, at, n);
      multiset(Present(r.0)) + multiset(r.1) == multiset(cards)
  {
    var r := Deal(cards, stream, at, n);
    if n == 0 {
      assert Present(r.0) == [] && r.1 == cards;
      assert multiset(Present(r.0)) + multiset(r.1) == multiset{} + multiset(cards);
    } else {
      DealConserves(cards, stream, at, n - 1);
      DealStep(cards, stream, at, n);
      var before := Deal(cards, stream, at, n - 1);
      var d := DealOne(before.1, stream, before.2);
      var dealt, left := multiset(Present(before.0)), multiset(before.1);
      assert dealt + left == multiset(cards);
      if before.1 == [] {
        assert Present(r.0) == Present(before.0) + [];
        assert r.1 == before.1;
      } else {
        var card := multiset{d.0.value};
        assert multiset(Present(r.0)) == dealt + card;
        assert multiset(r.1) + card == left;
        assert dealt + card + multiset(r.1) == dealt + (multiset(r.1) + card);
      }
    }
  }

  /** n draws deal min(n, deck size) cards. */
  lemma {:induction false} DealCount(cards: seq<CardType>, stream: nat -> nat, at: nat, n: nat)
    ensures var r := Deal(cards, stream, at, n);
      |Present(r.0)| == (if n <= |cards| then n else |cards|) && |r.1| == |cards| - |Present(r.0)|
  {
    if n > 0 {
      DealCount(cards, stream, at, n - 1);
      DealStep(cards, stream, at, n);
    }
  }

  // ----- executeOrdersPhase -----

  /** A queue with its leading Deploy orders taken off. */
  function DropDeploys(q: seq<Orders.Order>): (r: seq<Orders.Order>)
    ensures |r| <= |q|
  {
    if q != [] && q[0].Deploy? then DropDeploys(q[1..]) else q
  }

  /**
   * What the intended deploy pass leaves of a queue (IntendedDeployPassLeavesRest):
   * a suffix of it, no Deploy at its head, and in front of it only Deploy orders.
   */
  lemma {:induction false} DropDeploysSplits(q: seq<Orders.Order>)
    ensures var r := DropDeploys(q);
      && q == q[..|q| - |r|] + r
      && (forall k :: 0 <= k < |q| - |r| ==> q[k].Deploy?)
      && (r == [] || !r[0].Deploy?)
  {
    if q != [] && q[0].Deploy? {
      DropDeploysSplits(q[1..]);
      var r := DropDeploys(q);
      assert q == [q[0]] + q[1..];
      assert forall k :: 1 <= k < |q| - |r| ==> q[k] == q[1..][k - 1];
    }
  }

  /**
   * One round of the deploy pass as written: every player's head is popped;
   * a Deploy is executed, anything else is dropped. Gives the orders
   * executed, the orders dropped, what is left of each queue, and whether a
   * Deploy was found.
   */
  function DeployRoundAsWritten(queues: seq<seq<Orders.Order>>): (r: (seq<Orders.Order>, seq<Orders.Order>, seq<seq<Orders.Order>>, bool))
    ensures |r.2| == |queues|
  {
    if queues == [] then ([], [], [], false)
    else
      var before := DeployRoundAsWritten(queues[..|queues| - 1]);
      var q := queues[|queues| - 1];
      if q == [] then (before.0, before.1, before.2 + [q], before.3)
      else if q[0].Deploy? then (before.0 + [q[0]], before.1, before.2 + [q[1..]], true)
      else (before.0, before.1 + [q[0]], before.2 + [q[1..]], before.3)
  }

  /** The number of orders in all the queues. */
  function QueuedOrders(queues: seq<seq<Orders.Order>>): nat {
    if queues == [] then 0 else QueuedOrders(queues[..|queues| - 1]) + |queues[|queues| - 1]|
  }

  /** A round that found a Deploy popped at least one order. */
  lemma {:induction false} DeployRoundShrinks(queues: seq<seq<Orders.Order>>)
    ensures var r := DeployRoundAsWritten(queues);
      QueuedOrders(r.2) <= QueuedOrders(queues) && (r.3 ==> QueuedOrders(r.2) < QueuedOrders(queues))
  {
    if queues != [] {
      var init := queues[..|queues| - 1];
      DeployRoundShrinks(init);
      var r := DeployRoundAsWritten(queues);
      var before := DeployRoundAsWritten(init);
      var q := queues[|queues| - 1];
      var last := if q == [] then q else q[1..];
      assert r.2 == before.2 + [last];
      assert r.2[..|r.2| - 1] == before.2;
    }
  }

  /** The deploy pass as written: rounds until one finds no Deploy; the orders executed and dropped, and the queues left. */
  function DeployPassAsWritten(queues: seq<seq<Orders.Order>>): (r: (seq<Orders.Order>, seq<Orders.Order>, seq<seq<Orders.Order>>))
    decreases QueuedOrders(queues)
  {
    var round := DeployRoundAsWritten(queues);
    DeployRoundShrinks(queues);
    if !round.3 then (round.0, round.1, round.2)
    else
      var rest := DeployPassAsWritten(round.2);
      (round.0 + rest.0, round.1 + rest.1, rest.2)
  }

  /** One deploy round, then the rest of the pass when the round found a Deploy. */
  lemma DeployPassUnfold(queues: seq<seq<Orders.Order>>)
    ensures var r := DeployRoundAsWritten(queues);
      && (r.3 ==> DeployPassAsWritten(queues) == (r.0 + DeployPassAsWritten(r.2).0, r.1 + DeployPassAsWritten(r.2).1, DeployPassAsWritten(r.2).2))
      && (!r.3 ==> DeployPassAsWritten(queues) == (r.0, r.1, r.2))
  {
  }

  /**
   * The deploy pass as written drops orders: one player with a Deploy then
   * an Advance has the Deploy executed in round one and the Advance popped
   * and thrown away in round two, so the Advance is never executed.
   */
  lemma DeployPassDropsAdvance()
    ensures var deploy := Orders.Deploy(0, 0, 1);
      var advance := Orders.Advance(0, 0, 1, 1, true);
      DeployPassAsWritten([[deploy, advance]]) == ([deploy], [advance], [[]])
  {
    var deploy := Orders.Deploy(0, 0, 1);
    var advance := Orders.Advance(0, 0, 1, 1, true);
    var none := DeployRoundAsWritten([]);
    assert none == ([], [], [], false);
    assert [[deploy, advance]][..0] == [];
    assert [deploy, advance][1..] == [advance];
    assert DeployRoundAsWritten([[deploy, advance]]) == ([] + [deploy], [], [] + [[advance]], true);
    assert [[advance]][..0] == [];
    assert [advance][1..] == [];
    assert DeployRoundAsWritten([[advance]]) == ([], [] + [advance], [] + [[]], false);
    var empty: seq<Orders.Order> := [];
    assert [] + [advance] == [advance] && [] + [empty] == [empty] && [] + [deploy] == [deploy];
    assert [] + [[advance]] == [[advance]];
    assert DeployPassAsWritten([[advance]]) == ([], [advance], [[]]);
    assert DeployPassAsWritten([[deploy, advance]]) == ([deploy] + [], [] + [advance], [[]]);
    assert [deploy] + [] == [deploy];
  }

  /**
   * One round of the deploy pass as evidently intended: a player whose head
   * is a Deploy has it popped and executed; any other queue is left alone.
   * Gives the orders executed, the queues left, and whether a Deploy was found.
   */
  function IntendedDeployRound(queues: seq<seq<Orders.Order>>): (r: (seq<Orders.Order>, seq<seq<Orders.Order>>, bool))
    ensures |r.1| == |queues|
  {
    if queues == [] then ([], [], false)
    else
      var before := IntendedDeployRound(queues[..|queues| - 1]);
      var q := queues[|queues| - 1];
      if q != [] && q[0].Deploy? then (before.0 + [q[0]], before.1 + [q[1..]], true)
      else (before.0, before.1 + [q], before.2)
  }

  /** Appending a queue adds its orders to the count. */
  lemma QueuedOrdersSnoc(queues: seq<seq<Orders.Order>>, q: seq<Orders.Order>)
    ensures QueuedOrders(queues + [q]) == QueuedOrders(queues) + |q|
  {
    assert (queues + [q])[..|queues|] == queues;
  }

  /** An intended round pops a queue's head exactly when it is a Deploy. */
  lemma {:induction false} IntendedDeployRoundQueues(queues: seq<seq<Orders.Order>>)
    ensures var r := IntendedDeployRound(queues);
      forall i :: 0 <= i < |queues| ==> r.1[i] == if queues[i] != [] && queues[i][0].Deploy? then queues[i][1..] else queues[i]
  {
    if queues != [] {
      var init := queues[..|queues| - 1];
      IntendedDeployRoundQueues(init);
      var before := IntendedDeployRound(init);
      var r := IntendedDeployRound(queues);
      assert forall i :: 0 <= i < |init| ==> r.1[i] == before.1[i] && queues[i] == init[i];
    }
  }

  /** An intended round executes only Deploys and loses no order; a round that found a Deploy executed one. */
  lemma {:induction false} IntendedDeployRoundCounts(queues: seq<seq<Orders.Order>>)
    ensures var r := IntendedDeployRound(queues);
      && (forall o :: o in r.0 ==> o.Deploy?)
      && |r.0| + QueuedOrders(r.1) == QueuedOrders(queues)
      && (r.2 ==> |r.0| > 0)
  {
    if queues != [] {
      var init := queues[..|queues| - 1];
      var q := queues[|queues| - 1];
      IntendedDeployRoundCounts(init);
      var before := IntendedDeployRound(init);
      assert queues == init + [q];
      QueuedOrdersSnoc(init, q);
      if q != [] && q[0].Deploy? {
        QueuedOrdersSnoc(before.1, q[1..]);
      } else {
        QueuedOrdersSnoc(before.1, q);
      }
    }
  }

  /** An intended round finds a Deploy exactly when some queue has one at its head. */
  lemma {:induction false} IntendedDeployRoundFinds(queues: seq<seq<Orders.Order>>)
    ensures IntendedDeployRound(queues).2 <==> exists i :: 0 <= i < |queues| && queues[i] != [] && queues[i][0].Deploy?
  {
    if queues != [] {
      var init := queues[..|queues| - 1];
      var q := queues[|queues| - 1];
      IntendedDeployRoundFinds(init);
      if IntendedDeployRound(init).2 {
        var i :| 0 <= i < |init| && init[i] != [] && init[i][0].Deploy?;
        assert queues[i] == init[i];
      }
      if exists i :: 0 <= i < |queues| && queues[i] != [] && queues[i][0].Deploy? {
        var i :| 0 <= i < |queues| && queues[i] != [] && queues[i][0].Deploy?;
        if i < |init| {
          assert init[i] == queues[i];
        }
      }
    }
  }

  /** The deploy pass as evidently intended: intended rounds until no head is a Deploy; the orders executed and the queues left. */
  function IntendedDeployPass(queues: seq<seq<Orders.Order>>): (r: (seq<Orders.Order>, seq<seq<Orders.Order>>))
    decreases QueuedOrders(queues)
  {
    var round := IntendedDeployRound(queues);
    IntendedDeployRoundCounts(queues);
    if !round.2 then (round.0, round.1)
    else
      var rest := IntendedDeployPass(round.1);
      (round.0 + rest.0, rest.1)
  }

  /**
   * The intended deploy pass leaves each queue exactly DropDeploys of it:
   * its leading Deploys are executed, only Deploys are executed, and no
   * order is dropped.
   */
  lemma {:induction false} IntendedDeployPassLeavesRest(queues: seq<seq<Orders.Order>>)
    ensures var r := IntendedDeployPass(queues);
      && |r.1| == |queues|
      && (forall i :: 0 <= i < |queues| ==> r.1[i] == DropDeploys(queues[i]))
      && (forall o :: o in r.0 ==> o.Deploy?)
      && |r.0| + QueuedOrders(r.1) == QueuedOrders(queues)
    decreases QueuedOrders(queues)
  {
    var round := IntendedDeployRound(queues);
    IntendedDeployRoundQueues(queues);
    IntendedDeployRoundCounts(queues);
    IntendedDeployRoundFinds(queues);
    if round.2 {
      IntendedDeployPassLeavesRest(round.1);
      forall i | 0 <= i < |queues|
        ensures DropDeploys(round.1[i]) == DropDeploys(queues[i])
      {
      }
    } else {
      forall i | 0 <= i < |queues|
        ensures round.1[i] == DropDeploys(queues[i])
      {
        assert !(queues[i] != [] && queues[i][0].Deploy?);
      }
    }
  }

  /** Where the pass as written loses the Advance, the intended pass keeps it queued for the second pass. */
  lemma IntendedDeployPassKeepsAdvance()
    ensures var deploy := Orders.Deploy(0, 0, 1);
      var advance := Orders.Advance(0, 0, 1, 1, true);
      IntendedDeployPass([[deploy, advance]]).1 == [[advance]]
  {
    var deploy := Orders.Deploy(0, 0, 1);
    var advance := Orders.Advance(0, 0, 1, 1, true);
    IntendedDeployPassLeavesRest([[deploy, advance]]);
    assert [deploy, advance][1..] == [advance];
    assert DropDeploys([advance]) == [advance];
    assert DropDeploys([deploy, advance]) == [advance];
  }

  /** Every order of the queues, queue after queue. */
  function Flatten(queues: seq<seq<Orders.Order>>): (r: seq<Orders.Order>)
    ensures |r| == QueuedOrders(queues)
  {
    if queues == [] then [] else Flatten(queues[..|queues| - 1]) + queues[|queues| - 1]
  }

  /** The orders of one queue appended to a list of queues. */
  lemma FlattenSnoc(queues: seq<seq<Orders.Order>>, q: seq<Orders.Order>)
    ensures Flatten(queues + [q]) == Flatten(queues) + q
  {
    assert (queues + [q])[..|queues|] == queues;
  }

  /**
   * One round of the second pass: every player's head is popped and
   * executed. Gives the orders executed, what is left of each queue, and
   * whether any order was found.
   */
  function RoundAsWritten(queues: seq<seq<Orders.Order>>): (r: (seq<Orders.Order>, seq<seq<Orders.Order>>, bool))
    ensures |r.1| == |queues|
  {
    if queues == [] then ([], [], false)
    else
      var before := RoundAsWritten(queues[..|queues| - 1]);
      var q := queues[|queues| - 1];
      if q == [] then (before.0, before.1 + [q], before.2)
      else (before.0 + [q[0]], before.1 + [q[1..]], true)
  }

  /** A round executes one order of every queue that has one, and finds something exactly when it executes something. */
  lemma {:induction false} RoundCounts(queues: seq<seq<Orders.Order>>)
    ensures var r := RoundAsWritten(queues);
      && |r.0| + QueuedOrders(r.1) == QueuedOrders(queues)
      && (r.2 <==> r.0 != [])
  {
    if queues != [] {
      var n := |queues| - 1;
      RoundCounts(queues[..n]);
      var r := RoundAsWritten(queues);
      assert r.1[..n] == RoundAsWritten(queues[..n]).1;
    }
  }

  /** A round finds nothing exactly when every queue is empty. */
  lemma {:induction false} RoundFindsNothing(queues: seq<seq<Orders.Order>>)
    ensures !RoundAsWritten(queues).2 <==> forall k :: 0 <= k < |queues| ==> queues[k] == []
  {
    if queues != [] {
      var n := |queues| - 1;
      RoundFindsNothing(queues[..n]);
      assert forall k :: 0 <= k < n ==> queues[k] == queues[..n][k];
    }
  }

  /** A round that finds nothing leaves the queues as they were. */
  lemma {:induction false} RoundIdleLeaves(queues: seq<seq<Orders.Order>>)
    ensures !RoundAsWritten(queues).2 ==> RoundAsWritten(queues).1 == queues
  {
    if queues != [] {
      var n := |queues| - 1;
      RoundIdleLeaves(queues[..n]);
      assert queues == queues[..n] + [queues[n]];
    }
  }

  /** The orders a round executes and those it leaves are the orders it started with. */
  lemma {:induction false} RoundConserves(queues: seq<seq<Orders.Order>>)
    ensures var r := RoundAsWritten(queues);
      multiset(r.0) + multiset(Flatten(r.1)) == multiset(Flatten(queues))
  {
    if queues != [] {
      var n := |queues| - 1;
      var init := queues[..n];
      var q := queues[n];
      RoundConserves(init);
      var before := RoundAsWritten(init);
      var r := RoundAsWritten(queues);
      assert queues == init + [q];
      FlattenSnoc(init, q);
      assert multiset(Flatten(queues)) == multiset(before.0) + multiset(Flatten(before.1)) + multiset(q);
      var left := if q == [] then q else q[1..];
      assert r.1 == before.1 + [left];
      FlattenSnoc(before.1, left);
      if q != [] {
        HeadSplits(q);
        assert multiset(r.0) == multiset(before.0) + multiset{q[0]};
      }
    }
  }

  /** The second pass as written: rounds until one finds no order; the orders executed, in execution order. */
  function PassAsWritten(queues: seq<seq<Orders.Order>>): (r: seq<Orders.Order>)
    decreases QueuedOrders(queues)
  {
    var round := RoundAsWritten(queues);
    RoundCounts(queues);
    if !round.2 then round.0
    else round.0 + PassAsWritten(round.1)
  }

  /** The second pass is a round followed, when the round found something, by the pass over what the round left. */
  lemma PassUnfold(queues: seq<seq<Orders.Order>>)
    ensures var r := RoundAsWritten(queues);
      && (r.2 ==> PassAsWritten(queues) == r.0 + PassAsWritten(r.1))
      && (!r.2 ==> PassAsWritten(queues) == r.0 && r.1 == queues && QueuedOrders(queues) == 0)
  {
    RoundFindsNothing(queues);
    RoundIdleLeaves(queues);
    QueuedOrdersNone(queues);
  }

  /** The second pass executes every order left in the queues exactly once. */
  lemma {:induction false} PassExecutesAll(queues: seq<seq<Orders.Order>>)
    ensures multiset(PassAsWritten(queues)) == multiset(Flatten(queues))
    decreases QueuedOrders(queues)
  {
    var round := RoundAsWritten(queues);
    RoundCounts(queues);
    RoundConserves(queues);
    if round.2 {
      PassExecutesAll(round.1);
    } else {
      RoundFindsNothing(queues);
      QueuedOrdersNone(queues);
      assert |Flatten(round.1)| == 0;
    }
  }

  /** A round of the deploy pass executes only Deploy orders and drops only other orders. */
  lemma {:induction false} DeployRoundSorts(queues: seq<seq<Orders.Order>>)
    ensures forall k :: 0 <= k < |DeployRoundAsWritten(queues).0| ==> DeployRoundAsWritten(queues).0[k].Deploy?
    ensures forall k :: 0 <= k < |DeployRoundAsWritten(queues).1| ==> !DeployRoundAsWritten(queues).1[k].Deploy?
  {
    if queues != [] {
      DeployRoundSorts(queues[..|queues| - 1]);
    }
  }

  /** Every order a round of the deploy pass pops is either executed or dropped. */
  lemma {:induction false} DeployRoundConserves(queues: seq<seq<Orders.Order>>)
    ensures var r := DeployRoundAsWritten(queues);
      multiset(r.0) + multiset(r.1) + multiset(Flatten(r.2)) == multiset(Flatten(queues))
  {
    if queues != [] {
      var n := |queues| - 1;
      var init := queues[..n];
      var q := queues[n];
      DeployRoundConserves(init);
      var before := DeployRoundAsWritten(init);
      var r := DeployRoundAsWritten(queues);
      var earlier := multiset(before.0) + multiset(before.1) + multiset(Flatten(before.2));
      assert queues == init + [q];
      FlattenSnoc(init, q);
      assert multiset(Flatten(queues)) == earlier + multiset(q);
      var left := if q == [] then q else q[1..];
      assert r.2 == before.2 + [left];
      FlattenSnoc(before.2, left);
      assert multiset(Flatten(r.2)) == multiset(Flatten(before.2)) + multiset(left);
      if q != [] {
        HeadSplits(q);
        if q[0].Deploy? {
          assert multiset(r.0) == multiset(before.0) + multiset{q[0]} && r.1 == before.1;
        } else {
          assert r.0 == before.0 && multiset(r.1) == multiset(before.1) + multiset{q[0]};
        }
      }
    }
  }

  /** A non-empty queue is its head and its tail. */
  lemma HeadSplits(q: seq<Orders.Order>)
    requires q != []
    ensures multiset(q) == multiset{q[0]} + multiset(q[1..])
  {
    assert q == [q[0]] + q[1..];
  }

  /**
   * The deploy pass as written executes only Deploy orders, throws away only
   * other orders, and neither creates nor loses an order.
   */
  lemma {:induction false} DeployPassSorts(queues: seq<seq<Orders.Order>>)
    ensures forall k :: 0 <= k < |DeployPassAsWritten(queues).0| ==> DeployPassAsWritten(queues).0[k].Deploy?
    ensures forall k :: 0 <= k < |DeployPassAsWritten(queues).1| ==> !DeployPassAsWritten(queues).1[k].Deploy?
    ensures var r := DeployPassAsWritten(queues);
      multiset(r.0) + multiset(r.1) + multiset(Flatten(r.2)) == multiset(Flatten(queues))
    decreases QueuedOrders(queues)
  {
    var round := DeployRoundAsWritten(queues);
    DeployRoundShrinks(queues);
    DeployRoundSorts(queues);
    DeployRoundConserves(queues);
    if round.3 {
      DeployPassSorts(round.2);
    }
  }

  /** The orders queued by each player of the list, in list order. */
  function Queues(roster: seq<Player>, players: seq<PlayerId>): (r: seq<seq<Orders.Order>>)
    requires Strategies.Listed(roster, players)
    reads roster
    ensures |r| == |players| && forall k :: 0 <= k < |players| ==> r[k] == roster[players[k]].orders
  {
    seq(|players|, k requires 0 <= k < |players| reads roster => roster[players[k]].orders)
  }

  /** Taking the head off one queue takes one order off the total. */
  lemma {:induction false} QueuedOrdersPop(queues: seq<seq<Orders.Order>>, i: nat)
    requires i < |queues| && queues[i] != []
    ensures QueuedOrders(queues[i := queues[i][1..]]) == QueuedOrders(queues) - 1
  {
    var popped := queues[i := queues[i][1..]];
    var n := |queues| - 1;
    assert popped[..n] == if i < n then queues[..n][i := queues[i][1..]] else queues[..n];
    if i < n {
      QueuedOrdersPop(queues[..n], i);
    }
  }

  /** No queue holds anything exactly when there is nothing queued. */
  lemma {:induction false} QueuedOrdersNone(queues: seq<seq<Orders.Order>>)
    ensures QueuedOrders(queues) == 0 <==> forall k :: 0 <= k < |queues| ==> queues[k] == []
  {
    if queues != [] {
      var n := |queues| - 1;
      QueuedOrdersNone(queues[..n]);
      assert forall k :: 0 <= k < n ==> queues[..n][k] == queues[k];
    }
  }

  // ----- gamestart: the shuffle -----

  /**
   * std::shuffle as the Fisher-Yates shuffle: from the back, the element at
   * position i is swapped with the one at picks(i) mod (i + 1), picks(i)
   * being the engine's draw for that position.
   */
  function Shuffle(s: seq<nat>, picks: nat -> nat): (r: seq<nat>)
    decreases |s|
  {
    if |s| <= 1 then s
    else
      var i := |s| - 1;
      var t := Swap(s, i, picks(i) % (i + 1));
      Shuffle(t[..i], picks) + [t[i]]
  }

  /** The list with the entries at i and j exchanged. */
  function Swap(s: seq<nat>, i: nat, j: nat): (r: seq<nat>)
    requires i < |s| && j < |s|
    ensures |r| == |s| && r[i] == s[j] && r[j] == s[i]
    ensures forall k :: 0 <= k < |s| && k != i && k != j ==> r[k] == s[k]
  {
    s[i := s[j]][j := s[i]]
  }

  lemma SwapPermutes(s: seq<nat>, i: nat, j: nat)
    requires i < |s| && j < |s|
    ensures multiset(Swap(s, i, j)) == multiset(s)
  {
    var u := s[i := s[j]];
    assert multiset(u) == multiset(s) - multiset{s[i]} + multiset{s[j]};
    assert multiset(u[j := s[i]]) == multiset(u) - multiset{u[j]} + multiset{s[i]};
  }

  /** The shuffle only reorders: every player keeps its place in the list exactly as often. */
  lemma {:induction false} ShufflePermutes(s: seq<nat>, picks: nat -> nat)
    ensures multiset(Shuffle(s, picks)) == multiset(s)
    decreases |s|
  {
    if |s| > 1 {
      var i := |s| - 1;
      var t := Swap(s, i, picks(i) % (i + 1));
      SwapPermutes(s, i, picks(i) % (i + 1));
      ShufflePermutes(t[..i], picks);
      assert t == t[..i] + [t[i]];
    }
  }

  // ----- mainGameLoop's result -----

  /** The winner mainGameLoop reports: the sole player left, or none (a draw). */
  function Winner(players: seq<PlayerId>): (r: Option<PlayerId>)
    ensures r.Some? <==> |players| == 1
    ensures r.Some? ==> r.value == players[0]
  {
    if |players| == 1 then Some(players[0]) else None
  }

  /** What mainGameLoop returns as written; on an empty list it reads players[0] past the end. */
  datatype Outcome = Sole(player: PlayerId) | Draw | PastTheEnd

  function WinnerAsWritten(players: seq<PlayerId>): (r: Outcome)
    ensures players == [] <==> r == PastTheEnd
  {
    if players != [] then (if |players| == 1 then Sole(players[0]) else Draw)
    else PastTheEnd
  }

  /** When no player of the list owns a territory, none survives. */
  lemma {:induction false} NoneSurvive(roster: seq<Player>, players: seq<PlayerId>)
    requires Strategies.Listed(roster, players)
    requires forall k :: 0 <= k < |players| ==> roster[players[k]].territories == []
    ensures Surviving(roster, players) == []
  {
    if players != [] {
      NoneSurvive(roster, players[..|players| - 1]);
    }
  }

  /**
   * The list can become empty: once every player has lost its last territory
   * (a Blockade hands territories to nobody), removeDefeatedPlayers empties
   * the list, gameEnded holds, and the result as written is read past the end.
   */
  lemma EmptyListReadAsWritten(n: nat, roster: seq<Player>, players: seq<PlayerId>)
    requires Strategies.Listed(roster, players)
    requires forall k :: 0 <= k < |players| ==> roster[players[k]].territories == []
    ensures var left := Surviving(roster, players);
      Ended(n, roster, left) && WinnerAsWritten(left) == PastTheEnd && Winner(left) == None
  {
    NoneSurvive(roster, players);
  }
}
