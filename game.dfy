/**
 * The Game object of GameEngine.cpp: the map, the deck, the players and the
 * state, with gamestart, the three phases of a turn, the main game loop and
 * the startup command loop. Players are records of the roster, named by
 * their index; `players` is the game's list of those still playing, in turn
 * order. std::rand() and the other random engines read one shared stream.
 */
module GameEngine {
  import opened Wrappers
  import opened Board
  import opened Cards
  import Orders
  import opened Players
  import opened Random
  import opened Commands
  import opened MapLoader
  import opened Engine
  import OrderRules
  import Strategies
  import Tournaments

  /** Under the ownership invariant, the owners and the number of territories are all that matter. */
  lemma ConsistentByOwners(ts: seq<Territory>, us: seq<Territory>, roster: seq<Player>)
    requires Consistent(ts, roster)
    requires |us| == |ts| && forall t :: 0 <= t < |ts| ==> us[t].owner == ts[t].owner
    ensures Consistent(us, roster)
  {
  }

  /** Distinct ids in the roster are distinct player objects. */
  lemma RosterDistinct(roster: seq<Player>, a: PlayerId, b: PlayerId)
    requires Roster(roster) && a < |roster| && b < |roster| && a != b
    ensures roster[a] != roster[b]
  {
    assert roster[a].id == a && roster[b].id == b;
  }

  /** How startupPhase ends. */
  datatype Startup =
    | Started
    /** The command lines ran out before gamestart. */
    | OutOfInput
    /** MapLoader::parse threw on the file loadmap named. */
    | MapUnreadable(error: ParseError)
    /** A tournament command: the game engine hands over to the tournament and exits. */
    | TournamentRequested(setup: Result<Tournaments.Setup, Tournaments.Refusal>)

  class Game {
    var gameMap: Map
    var state: GameState
    var deck: Deck
    /** The source of std::rand() and of the strategies' random engines. */
    const dice: Dice
    /** Every player ever added, player i at index i. */
    var roster: seq<Player>
    /** The players still in the game, in turn order. */
    var players: seq<PlayerId>
    const cp: CommandProcessor

    /** Game(CommandProcessor*): an empty map, a new deck, no players, state Start. */
    constructor (cp: CommandProcessor, dice: Dice)
      ensures state == Start && roster == [] && players == [] && this.cp == cp && this.dice == dice
      ensures fresh(gameMap) && gameMap.territories == [] && gameMap.continents == []
      ensures fresh(deck) && deck.cards == NewDeckCards()
    {
      gameMap := new Map();
      state := Start;
      deck := new Deck();
      this.dice := dice;
      roster := [];
      players := [];
      this.cp := cp;
    }

    /** The invariant the game keeps while it is played. */
    ghost predicate Valid()
      reads this, gameMap, roster`territories
    {
      && Roster(roster)
      && Strategies.Listed(roster, players)
      && NoDup(players)
      && Consistent(gameMap.territories, roster)
      && MembersOnMap(gameMap.territories, gameMap.continents)
    }

    /** Game::transition. */
    method Transition(s: GameState)
      modifies this
      ensures state == s
      ensures gameMap == old(gameMap) && deck == old(deck) && roster == old(roster) && players == old(players)
    {
      state := s;
    }

    // ----- gamestart -----

    /** Deck::draw with the next value of std::rand(), read only when the deck is not empty. */
    method DrawCard() returns (card: Option<CardType>)
      modifies deck, dice
      ensures (card, deck.cards, dice.drawn) == DealOne(old(deck.cards), dice.stream, old(dice.drawn))
    {
      if deck.cards == [] {
        card := None;
      } else {
        var rand := dice.Next();
        card := deck.Draw(rand);
      }
    }

    /** Every player of the list receives 50 reinforcements. */
    method AwardPools()
      requires Valid()
      modifies roster`pool
      ensures Valid()
      ensures forall x :: 0 <= x < |roster| ==>
        roster[x].pool == old(roster[x].pool) + (if x in players then Strategies.InitialPool else 0)
    {
      var i := 0;
      while i < |players|
        invariant 0 <= i <= |players|
        invariant forall x :: 0 <= x < |roster| ==>
          roster[x].pool == old(roster[x].pool) + (if x in players[..i] then Strategies.InitialPool else 0)
      {
        var p := players[i];
        assert players[..i + 1] == players[..i] + [p];
        assert p !in players[..i] by {
          assert forall k :: 0 <= k < i ==> players[..i][k] == players[k] != players[i];
        }
        forall x | 0 <= x < |roster| && x != p
          ensures roster[x] != roster[p]
        {
          RosterDistinct(roster, x, p);
        }
        roster[p].AddReinforcementToPool(Strategies.InitialPool);
        i := i + 1;
      }
      assert players[..|players|] == players;
    }

    /** Territory i goes to the player at position i mod n of the list. */
    method DealTerritories()
      requires Valid() && (|players| > 0 || gameMap.territories == [])
      requires forall t :: 0 <= t < |gameMap.territories| ==> gameMap.territories[t].owner.None?
      modifies gameMap, set q | q in roster
      ensures Valid()
      ensures |gameMap.territories| == |old(gameMap.territories)| && gameMap.continents == old(gameMap.continents)
      ensures forall t :: 0 <= t < |gameMap.territories| ==>
        gameMap.territories[t] == old(gameMap.territories)[t].(owner := Some(players[t % |players|]))
      ensures Consistent(gameMap.territories, roster)
      ensures forall x :: 0 <= x < |roster| ==> roster[x].Rest() == old(roster[x].Rest())
    {
      var n := |gameMap.territories|;
      var i := 0;
      while i < n
        invariant 0 <= i <= n
        invariant |gameMap.territories| == n && gameMap.continents == old(gameMap.continents)
        invariant forall t :: 0 <= t < i ==>
          gameMap.territories[t] == old(gameMap.territories)[t].(owner := Some(players[t % |players|]))
        invariant forall t :: i <= t < n ==> gameMap.territories[t] == old(gameMap.territories)[t]
        invariant Consistent(gameMap.territories, roster)
        invariant forall x :: 0 <= x < |roster| ==> roster[x].Rest() == old(roster[x].Rest())
      {
        var p := roster[players[i % |players|]];
        assert p.id == players[i % |players|];
        assert i in p.territories <==> gameMap.territories[i].owner == Some(p.id);
        p.AddTerritory(gameMap, i, roster);
        i := i + 1;
      }
    }

    /** One player's two draws, in the order they are made. */
    method DrawTwo(player: Player) returns (ghost drawn: seq<Option<CardType>>)
      modifies deck, dice, player`cards
      ensures var first := DealOne(old(deck.cards), dice.stream, old(dice.drawn));
        var second := DealOne(first.1, dice.stream, first.2);
        drawn == [first.0, second.0] && deck.cards == second.1 && dice.drawn == second.2
      ensures player.cards == old(player.cards) + Held(Present(drawn))
    {
      ghost var first := DealOne(deck.cards, dice.stream, dice.drawn);
      ghost var second := DealOne(first.1, dice.stream, first.2);
      var j := 0;
      drawn := [];
      while j < 2
        invariant 0 <= j <= 2 && |drawn| == j
        invariant j == 0 ==> deck.cards == old(deck.cards) && dice.drawn == old(dice.drawn)
        invariant j == 1 ==> drawn == [first.0] && deck.cards == first.1 && dice.drawn == first.2
        invariant j == 2 ==> drawn == [first.0, second.0] && deck.cards == second.1 && dice.drawn == second.2
        invariant player.cards == old(player.cards) + Held(Present(drawn))
      {
        var card := DrawCard();
        player.AddCardToHand(card);
        PresentAppend(drawn, card);
        drawn := drawn + [card];
        j := j + 1;
      }
    }

    /**
     * The first i players of the list have drawn their pairs from `cards`,
     * `dealt` draws in all: each holds its hand of `hands` plus its pair, and
     * everyone else holds the hand of `hands`.
     */
    ghost predicate DealtUpTo(i: nat, dealt: nat, cards: seq<CardType>, stream: nat -> nat, at: nat, hands: seq<seq<Option<CardType>>>)
      requires Roster(roster) && Strategies.Listed(roster, players) && i <= |players| && dealt == 2 * i
      reads this, deck, dice, set q | q in roster
    {
      var r := Deal(cards, stream, at, dealt);
      && dice.stream == stream && deck.cards == r.1 && dice.drawn == r.2
      && HandsDealt(Hands(roster), hands, players, r.0, i)
    }

    /** The i-th player of the list draws two cards. */
    method DealTo(i: nat, ghost dealt: nat, ghost cards: seq<CardType>, ghost stream: nat -> nat, ghost at: nat, ghost hands: seq<seq<Option<CardType>>>)
      requires Roster(roster) && Strategies.Listed(roster, players) && NoDup(players) && i < |players| && dealt == 2 * i
      requires DealtUpTo(i, dealt, cards, stream, at, hands)
      modifies deck, dice, (roster[players[i]] as Player)`cards
      ensures DealtUpTo(i + 1, dealt + 2, cards, stream, at, hands)
    {
      var p := players[i];
      ghost var before := Deal(cards, stream, at, dealt);
      ghost var now := Hands(roster);
      forall x | 0 <= x < |roster| && x != p
        ensures roster[x] != roster[p]
      {
        RosterDistinct(roster, x, p);
      }
      ghost var drawn := DrawTwo(roster[p]);
      assert Hands(roster) == now[p := now[p] + Held(Present(drawn))];
      DealTwoMore(cards, stream, at, dealt);
      HandsDealtStep(now, hands, players, before.0, drawn, i);
    }

    /** Every player of the list draws two cards; a null draw adds nothing. */
    method DealCards(ghost hands: seq<seq<Option<CardType>>>)
      requires Valid() && hands == Hands(roster)
      modifies deck, dice, roster`cards
      ensures Valid()
      ensures var r := Deal(old(deck.cards), dice.stream, old(dice.drawn), 2 * |players|);
        && deck.cards == r.1 && dice.drawn == r.2
        && forall k :: 0 <= k < |players| ==> roster[players[k]].cards == hands[players[k]] + Held(Present(Pair(r.0, k)))
      ensures forall x :: 0 <= x < |roster| && x !in players ==> roster[x].cards == hands[x]
    {
      ghost var cards, stream, at := deck.cards, dice.stream, dice.drawn;
      assert players[..0] == [];
      DealRounds(cards, stream, at, hands);
      ghost var now := Hands(roster);
      ghost var draws := Deal(cards, stream, at, 2 * |players|).0;
      assert HandsDealt(now, hands, players, draws, |players|);
      assert players[..|players|] == players;
      forall x | 0 <= x < |roster| && x !in players
        ensures roster[x].cards == hands[x]
      {
        assert now[x] == roster[x].cards;
      }
      forall k | 0 <= k < |players|
        ensures roster[players[k]].cards == hands[players[k]] + Held(Present(Pair(draws, k)))
      {
        assert now[players[k]] == roster[players[k]].cards;
      }
    }

    /** The loop of gamestart that deals: two cards to each player of the list in turn. */
    method DealRounds(ghost cards: seq<CardType>, ghost stream: nat -> nat, ghost at: nat, ghost hands: seq<seq<Option<CardType>>>)
      requires Roster(roster) && Strategies.Listed(roster, players) && NoDup(players)
      requires DealtUpTo(0, 0, cards, stream, at, hands)
      modifies deck, dice, roster`cards
      ensures DealtUpTo(|players|, 2 * |players|, cards, stream, at, hands)
    {
      ghost var dealt := 0;
      var i := 0;
      while i < |players|
        invariant 0 <= i <= |players| && dealt == 2 * i
        invariant DealtUpTo(i, dealt, cards, stream, at, hands)
      {
        DealTo(i, dealt, cards, stream, at, hands);
        i := i + 1;
        dealt := dealt + 2;
      }
    }

    /**
     * Game::gamestart: the list is shuffled with the engine's draws `picks`,
     * every player gets 50 armies, territory i goes to the i-th player modulo
     * the number of players, and each player draws two cards in turn. The map
     * is as loaded: nobody owns a territory yet.
     */
    method Gamestart(picks: nat -> nat)
      requires Valid() && (|players| > 0 || gameMap.territories == [])
      requires forall t :: 0 <= t < |gameMap.territories| ==> gameMap.territories[t].owner.None?
      modifies this, gameMap, deck, dice, set q | q in roster
      ensures gameMap == old(gameMap) && deck == old(deck) && roster == old(roster) && state == old(state) && Valid()
      ensures players == Shuffle(old(players), picks) && multiset(players) == multiset(old(players))
      ensures |gameMap.territories| == |old(gameMap.territories)| && gameMap.continents == old(gameMap.continents)
      ensures forall t :: 0 <= t < |gameMap.territories| ==>
        gameMap.territories[t] == old(gameMap.territories)[t].(owner := Some(players[t % |players|]))
      ensures forall x :: 0 <= x < |roster| ==>
        roster[x].pool == old(roster[x].pool) + (if x in players then Strategies.InitialPool else 0)
      ensures var r := Deal(old(deck.cards), dice.stream, old(dice.drawn), 2 * |players|);
        && deck.cards == r.1 && dice.drawn == r.2
        && forall k :: 0 <= k < |players| ==> var x := players[k]; roster[x].cards == old(roster[x].cards) + Held(Present(Pair(r.0, k)))
      ensures forall x :: 0 <= x < |roster| && x !in players ==> roster[x].cards == old(roster[x].cards)
      ensures forall x :: 0 <= x < |roster| ==> roster[x].strategy == old(roster[x].strategy)
    {
      ghost var hands := Hands(roster);
      Setup(picks);
      assert Hands(roster) == hands;
      DealCards(hands);
    }

    /** gamestart up to the cards: the shuffle, the pools and the territories. */
    method Setup(picks: nat -> nat)
      requires Valid() && (|players| > 0 || gameMap.territories == [])
      requires forall t :: 0 <= t < |gameMap.territories| ==> gameMap.territories[t].owner.None?
      modifies this, gameMap, set q | q in roster
      ensures gameMap == old(gameMap) && deck == old(deck) && roster == old(roster) && state == old(state) && Valid()
      ensures players == Shuffle(old(players), picks) && multiset(players) == multiset(old(players))
      ensures |gameMap.territories| == |old(gameMap.territories)| && gameMap.continents == old(gameMap.continents)
      ensures forall t :: 0 <= t < |gameMap.territories| ==>
        gameMap.territories[t] == old(gameMap.territories)[t].(owner := Some(players[t % |players|]))
      ensures forall x :: 0 <= x < |roster| ==>
        roster[x].pool == old(roster[x].pool) + (if x in players then Strategies.InitialPool else 0)
      ensures forall x :: 0 <= x < |roster| ==> roster[x].cards == old(roster[x].cards) && roster[x].strategy == old(roster[x].strategy)
    {
      ShufflePlayers(picks);
      AwardPools();
      DealTerritories();
    }

    /** The shuffle of gamestart: the list is reordered and nothing else changes. */
    method ShufflePlayers(picks: nat -> nat)
      requires Valid()
      modifies this
      ensures gameMap == old(gameMap) && deck == old(deck) && roster == old(roster) && state == old(state) && Valid()
      ensures players == Shuffle(old(players), picks) && multiset(players) == multiset(old(players))
    {
      var order := Shuffle(players, picks);
      ShufflePermutes(players, picks);
      Strategies.PermutationNoDup(order, players);
      forall i | 0 <= i < |order|
        ensures order[i] < |roster|
      {
        assert order[i] in multiset(players);
      }
      players := order;
    }

    // ----- the phases of a turn -----

    /** The friends of every player of the list are forgotten (the loop at the head of each round). */
    method ClearFriends()
      requires Roster(roster) && Strategies.Listed(roster, players)
      modifies roster`friends
      ensures forall x :: 0 <= x < |roster| ==> roster[x].friends == (if x in players then [] else old(roster[x].friends))
    {
      var i := 0;
      while i < |players|
        invariant 0 <= i <= |players|
        invariant forall x :: 0 <= x < |roster| ==> roster[x].friends == (if x in players[..i] then [] else old(roster[x].friends))
      {
        var p := players[i];
        assert players[..i + 1] == players[..i] + [p];
        forall x | 0 <= x < |roster| && x != p
          ensures roster[x] != roster[p]
        {
          RosterDistinct(roster, x, p);
        }
        roster[p].ClearFriends();
        i := i + 1;
      }
      assert players[..|players|] == players;
    }

    /**
     * Game::reinforcementPhase: every player of the list gets a third of its
     * territories plus the bonuses of the continents it owns, at least 3.
     */
    method ReinforcementPhase()
      requires Valid()
      modifies roster`pool
      ensures Valid()
      ensures forall x :: 0 <= x < |roster| ==>
        roster[x].pool == old(roster[x].pool)
          + (if x in players then Reinforcements(|roster[x].territories|, Rewards(gameMap.territories, gameMap.continents, x)) else 0)
    {
      var i := 0;
      while i < |players|
        invariant 0 <= i <= |players|
        invariant forall x :: 0 <= x < |roster| ==>
          roster[x].pool == old(roster[x].pool)
            + (if x in players[..i] then Reinforcements(|roster[x].territories|, Rewards(gameMap.territories, gameMap.continents, x)) else 0)
      {
        var p := players[i];
        assert players[..i + 1] == players[..i] + [p];
        assert p !in players[..i] by {
          assert forall k :: 0 <= k < i ==> players[..i][k] == players[k] != players[i];
        }
        forall x | 0 <= x < |roster| && x != p
          ensures roster[x] != roster[p]
        {
          RosterDistinct(roster, x, p);
        }
        var rewards := gameMap.ContinentRewards(p);
        var reinforcements := Reinforcements(|roster[p].territories|, rewards);
        roster[p].AddReinforcementToPool(reinforcements);
        i := i + 1;
      }
      assert players[..|players|] == players;
    }

    /** Game::removeDefeatedPlayers: the players without a territory leave the list; the others keep their order. */
    method RemoveDefeatedPlayers()
      requires Valid()
      modifies this
      ensures gameMap == old(gameMap) && deck == old(deck) && roster == old(roster) && state == old(state)
      ensures players == Surviving(roster, old(players)) && Valid()
    {
      var kept: seq<PlayerId> := [];
      var i := 0;
      while i < |players|
        invariant 0 <= i <= |players|
        invariant kept == Surviving(roster, players[..i])
      {
        var p := players[i];
        assert players[..i + 1][..i] == players[..i];
        if roster[p].territories != [] {
          kept := kept + [p];
        }
        i := i + 1;
      }
      assert players[..|players|] == players;
      SurvivingNoDup(roster, players);
      players := kept;
    }

    /** Game::gameEnded. */
    method GameEnded() returns (ended: bool)
      requires Valid()
      ensures ended == Ended(|gameMap.territories|, roster, players)
    {
      if |players| <= 1 {
        return true;
      }
      var n := |gameMap.territories|;
      var i := 0;
      while i < |players|
        invariant 0 <= i <= |players|
        invariant forall k :: 0 <= k < i ==> |roster[players[k]].territories| != n
      {
        if |roster[players[i]].territories| == n {
          return true;
        }
        i := i + 1;
      }
      return false;
    }

    // ----- startupPhase -----

    /**
     * What holds between the commands of startupPhase: no territory has an
     * owner, every player added is a Human in the list in the order added,
     * the state says no more about the map than validate has said, and there
     * is a player once the state says so.
     */
    ghost predicate Starting()
      reads this, gameMap, roster
    {
      && Valid()
      && state in {Start, MapLoaded, MapValidated, PlayersAdded}
      && (forall t :: 0 <= t < |gameMap.territories| ==> gameMap.territories[t].owner.None?)
      && |players| == |roster|
      && (forall k :: 0 <= k < |players| ==> players[k] == k)
      && (forall x :: 0 <= x < |roster| ==> roster[x].territories == [] && roster[x].strategy == Human)
      && (state == PlayersAdded ==> |players| > 0)
      && Vouched(state, IsValid(gameMap.territories, gameMap.continents))
    }

    /**
     * Game::startupPhase on the command lines `lines` (std::getline on the
     * console) and the map files `files` (file name to contents). Lines that
     * do not parse, and commands validate refuses in the current state, are
     * skipped. The game starts only with at least one player on a map that
     * Map::validate accepted. validatemap runs the corrected transition (back
     * to Start when validate fails, Engine.AfterCommand); as written it would
     * reach MapValidated anyway (Engine.AfterCommandAsWritten), and the map
     * would then not be known to be valid.
     */
    method StartupPhase(lines: seq<string>, files: string -> string, picks: nat -> nat) returns (outcome: Startup)
      requires Starting() && state == Start
      modifies this, gameMap, deck, dice, cp, set q | q in roster
      ensures outcome == Started <==> state == FirstReinforcements
      ensures outcome == Started ==>
        && Valid() && |players| > 0 && |players| == |roster| && IsValid(gameMap.territories, gameMap.continents)
        && (forall x :: 0 <= x < |roster| ==> x in players && roster[x].strategy == Human)
      ensures outcome != Started ==> Starting()
    {
      var i := 0;
      while i < |lines|
        invariant 0 <= i <= |lines| && Starting() && deck == old(deck)
        invariant gameMap == old(gameMap) || fresh(gameMap)
        invariant forall q :: q in roster ==> q in old(roster) || fresh(q)
        decreases |lines| - i
      {
        var done := ReadLine(lines[i], files, picks);
        i := i + 1;
        if done.Some? {
          return done.value;
        }
      }
      return OutOfInput;
    }

    /** One line of the loop: getCommand, then validate, then the command when it is legal in the current state. */
    method ReadLine(line: string, files: string -> string, picks: nat -> nat) returns (done: Option<Startup>)
      requires Starting()
      modifies this, gameMap, deck, dice, cp, set q | q in roster
      ensures done == Some(Started) <==> state == FirstReinforcements
      ensures done == Some(Started) ==>
        && Valid() && |players| > 0 && |players| == |roster| && IsValid(gameMap.territories, gameMap.continents)
        && (forall x :: 0 <= x < |roster| ==> x in players && roster[x].strategy == Human)
      ensures done != Some(Started) ==> Starting()
      ensures deck == old(deck) && (gameMap == old(gameMap) || fresh(gameMap))
      ensures forall q :: q in roster ==> q in old(roster) || fresh(q)
    {
      var parsed := cp.GetCommand(line);
      if parsed.Ok? {
        var legal := cp.Validate(state);
        if legal {
          done := RunCommand(parsed.value, files, picks);
          return;
        }
      }
      done := None;
    }

    /**
     * One command that validate accepted; Some when it ends startupPhase.
     * validatemap takes the corrected transition: a map validate rejects
     * sends the game back to Start instead of on to MapValidated.
     */
    method RunCommand(command: Command, files: string -> string, picks: nat -> nat) returns (done: Option<Startup>)
      requires Starting() && state in LegalStates(command.keyword)
      requires TakesArgument(command.keyword) ==> command.argument.Some?
      modifies this, gameMap, deck, dice, set q | q in roster
      ensures done == Some(Started) <==> state == FirstReinforcements
      ensures done == Some(Started) ==>
        && Valid() && |players| > 0 && |players| == |roster| && IsValid(gameMap.territories, gameMap.continents)
        && (forall x :: 0 <= x < |roster| ==> x in players && roster[x].strategy == Human)
      ensures done != Some(Started) ==> Starting()
      ensures deck == old(deck) && (gameMap == old(gameMap) || fresh(gameMap))
      ensures forall q :: q in roster ==> q in old(roster) || fresh(q)
    {
      match command.keyword {
        case TournamentMode =>
          return Some(TournamentRequested(Tournaments.ParseTournament(command.argument.value, files)));
        case LoadMap =>
          var error := LoadMap(files(command.argument.value));
          if error.Some? {
            return Some(MapUnreadable(error.value));
          }
        case ValidateMap =>
          var valid := gameMap.Validate();
          Transition(if valid then MapValidated else Start);
        case AddPlayer =>
          AddPlayer(command.argument.value);
        case GameStart =>
          StartGame(picks);
          return Some(Started);
        case _ =>
      }
      done := None;
    }

    /** loadmap: MapLoader(file).parse() replaces the map; the state becomes MapLoaded. */
    method LoadMap(text: string) returns (error: Option<ParseError>)
      requires Starting() && state in {Start, MapLoaded}
      modifies this
      ensures Starting() && roster == old(roster) && players == old(players) && deck == old(deck)
      ensures gameMap == old(gameMap) || fresh(gameMap)
      ensures error.None? <==> ParseText(NoSection, text).1.Ok?
      ensures error.Some? ==> error.value == ParseText(NoSection, text).1.error
      ensures error.None? ==> state == MapLoaded && gameMap.territories == Resolve(ParseText(NoSection, text).1.value)
    {
      var loader := new Loader();
      var parsed := loader.Parse(text);
      if parsed.Err? {
        return Some(parsed.error);
      }
      ghost var d := ParseText(NoSection, text).1.value;
      ParsedMapFits(d, roster);
      gameMap := parsed.value;
      Transition(MapLoaded);
      error := None;
    }

    /** addplayer: a new Human player joins the end of the list; the state becomes PlayersAdded. */
    method AddPlayer(name: string)
      requires Starting() && state in {MapValidated, PlayersAdded}
      modifies this
      ensures Starting() && state == PlayersAdded && gameMap == old(gameMap) && deck == old(deck)
      ensures |roster| == |old(roster)| + 1 && roster == old(roster) + [roster[|old(roster)|]]
      ensures roster[|old(roster)|].name == name && fresh(roster[|old(roster)|])
    {
      var player := new Player(|roster|, name, Human);
      roster := roster + [player];
      players := players + [|roster| - 1];
      Transition(PlayersAdded);
    }

    /**
     * gamestart, then the transition to FirstReinforcements. The map is valid
     * here because the corrected validatemap transition only reaches
     * MapValidated with a map validate accepted.
     */
    method StartGame(picks: nat -> nat)
      requires Starting() && state == PlayersAdded
      modifies this, gameMap, deck, dice, set q | q in roster
      ensures state == FirstReinforcements && Valid() && |players| > 0 && |players| == |roster|
      ensures gameMap == old(gameMap) && deck == old(deck) && roster == old(roster)
      ensures IsValid(gameMap.territories, gameMap.continents)
      ensures forall x :: 0 <= x < |roster| ==> x in players && roster[x].strategy == Human
    {
      ghost var ids, ts, cs := players, gameMap.territories, gameMap.continents;
      assert IsValid(ts, cs);
      Gamestart(picks);
      IsValidIgnoresOwners(ts, gameMap.territories, cs);
      Transition(FirstReinforcements);
      EveryIdListed(ids, players);
    }

    // ----- mainGameLoop -----

    /**
     * Game::mainGameLoop(turns): rounds of clearFriends, removeDefeatedPlayers,
     * the reinforcement, issue and execute phases, until the game has ended or
     * `turns` rounds have been played. The winner is the sole player left, or
     * none. `rounds` counts the rounds played.
     */
    method MainGameLoop(turns: nat) returns (winner: Option<PlayerId>, ghost rounds: nat)
      requires Valid() && Automated(roster, players)
      modifies this, gameMap, deck, dice, set q | q in roster
      ensures Valid() && Automated(roster, players) && roster == old(roster)
      ensures winner == Winner(players)
      ensures rounds <= turns && (rounds < turns ==> Ended(|gameMap.territories|, roster, players))
      ensures forall p :: p in players ==> p in old(players)
      ensures rounds > 0 ==> state == ExecuteOrders && forall k :: 0 <= k < |players| ==> roster[players[k]].orders == []
    {
      var left: nat := turns;
      rounds := 0;
      var ended := GameEnded();
      while !ended && left > 0
        invariant Valid() && Automated(roster, players) && roster == old(roster) && gameMap == old(gameMap) && deck == old(deck)
        invariant left + rounds == turns
        invariant ended == Ended(|gameMap.territories|, roster, players)
        invariant forall p :: p in players ==> p in old(players)
        invariant rounds > 0 ==> state == ExecuteOrders && forall k :: 0 <= k < |players| ==> roster[players[k]].orders == []
        decreases left
      {
        PlayRound();
        left, rounds := left - 1, rounds + 1;
        ended := GameEnded();
      }
      if players != [] {
        if |players| == 1 {
          winner := Some(players[0]);
        } else {
          winner := None;
        }
      } else {
        // As written, players[0] of the empty list is returned.
        winner := None;
      }
    }

    /** The body of mainGameLoop's loop: one round of the game. */
    method PlayRound()
      requires Valid() && Automated(roster, players)
      modifies this, gameMap, deck, dice, set q | q in roster
      ensures Valid() && Automated(roster, players) && roster == old(roster) && gameMap == old(gameMap) && deck == old(deck)
      ensures forall p :: p in players ==> p in old(players)
      ensures state == ExecuteOrders && forall k :: 0 <= k < |players| ==> roster[players[k]].orders == []
    {
      Prepare();
      ReinforcementPhase();
      OrdersPhases();
    }

    /** The tail of a round: every listed player issues its orders, then they are executed. */
    method OrdersPhases()
      requires Valid() && Automated(roster, players)
      modifies this, gameMap, deck, dice, set q | q in roster
      ensures Valid() && Automated(roster, players) && roster == old(roster) && gameMap == old(gameMap) && deck == old(deck)
      ensures players == old(players)
      ensures state == ExecuteOrders && forall k :: 0 <= k < |players| ==> roster[players[k]].orders == []
    {
      Transition(IssueOrders);
      IssueOrdersPhase();
      Transition(ExecuteOrders);
      ExecuteOrdersPhase();
    }

    /** The head of a round: friendships end, the defeated leave the list, the state moves to reinforcement. */
    method Prepare()
      requires Valid() && Automated(roster, players)
      modifies this, roster`friends
      ensures Valid() && Automated(roster, players) && roster == old(roster) && gameMap == old(gameMap) && deck == old(deck)
      ensures forall p :: p in players ==> p in old(players)
    {
      ClearFriends();
      ghost var listed := players;
      RemoveDefeatedPlayers();
      SurvivingAutomated(roster, listed);
      forall p | p in players
        ensures p in listed
      {
        SurvivingMembers(roster, listed, p);
      }
      if state != AssignReinforcements && state != FirstReinforcements {
        Transition(AssignReinforcements);
      }
    }

    // ----- issueOrdersPhase and executeOrdersPhase -----

    /**
     * order->execute() on an order taken from a queue: a valid order has its
     * effect on the map, an invalid one changes nothing. Orders name
     * territories and players by index; one naming an index that does not
     * exist is skipped like an invalid order.
     */
    method RunOrder(o: Orders.Order) returns (valid: bool)
      requires Valid()
      modifies gameMap, deck, dice, set q | q in roster
      ensures Valid()
      ensures valid == old(OrderRules.Fits(o, |gameMap.territories|, |roster|) && OrderRules.Valid(o, gameMap.territories, roster))
      ensures !valid ==> gameMap.territories == old(gameMap.territories)
      ensures valid ==> gameMap.territories == OrderRules.Outcome(o, old(gameMap.territories), dice.stream, old(dice.drawn))
      ensures valid && o.Deploy? ==> roster[o.player].pool == old(roster[o.player].pool) - o.amount
      ensures valid && o.Negotiate? ==> roster[o.player].IsFriendsWith(Some(o.other)) && roster[o.other].IsFriendsWith(Some(o.player))
      ensures valid && OrderRules.Attacks(o, old(gameMap.territories)) ==>
        OrderRules.CardOfBattle(old(gameMap.territories), o.target, o.amount, o.hasDeck, dice.stream, old(dice.drawn),
                                old(deck.cards), old(roster[o.player].cards), deck.cards, roster[o.player].cards, dice.drawn)
      ensures !(valid && OrderRules.Attacks(o, old(gameMap.territories))) ==> deck.cards == old(deck.cards) && dice.drawn == old(dice.drawn)
      ensures forall x :: 0 <= x < |roster| && !(valid && OrderRules.Attacks(o, old(gameMap.territories)) && x == o.player) ==>
        roster[x].cards == old(roster[x].cards)
      ensures forall x :: 0 <= x < |roster| && !(valid && o.Deploy? && x == o.player) ==> roster[x].pool == old(roster[x].pool)
      ensures forall x :: 0 <= x < |roster| && !(valid && o.Negotiate? && (x == o.player || x == o.other)) ==>
        roster[x].friends == old(roster[x].friends)
      ensures forall x :: 0 <= x < |roster| ==> roster[x].orders == old(roster[x].orders) && roster[x].strategy == old(roster[x].strategy)
    {
      valid := false;
      if OrderRules.Fits(o, |gameMap.territories|, |roster|) {
        var m, r, d := gameMap, roster, deck;
        valid := OrderRules.ExecuteOrder(o, m, r, d, dice);
      }
    }

    /** The loop of issueOrdersPhase: the k-th player's orders are executed, oldest first, until its queue is empty. */
    method Drain(k: nat)
      requires Valid() && k < |players|
      modifies gameMap, deck, dice, set q | q in roster
      ensures Valid()
      ensures roster[players[k]].orders == []
      ensures forall x :: 0 <= x < |roster| && x != players[k] ==> roster[x].orders == old(roster[x].orders)
      ensures StrategiesOf(roster) == old(StrategiesOf(roster))
    {
      var p := players[k];
      var player := roster[p];
      forall x | 0 <= x < |roster| && x != p
        ensures roster[x] != player
      {
        RosterDistinct(roster, x, p);
      }
      var order := player.GetNextOrder();
      while order.Some?
        invariant Valid()
        invariant order.None? ==> player.orders == []
        invariant forall x :: 0 <= x < |roster| && x != p ==> roster[x].orders == old(roster[x].orders)
        invariant StrategiesOf(roster) == old(StrategiesOf(roster))
        decreases |player.orders| + (if order.Some? then 1 else 0)
      {
        var _ := RunOrder(order.value);
        order := player.GetNextOrder();
      }
    }

    /**
     * Game::issueOrdersPhase: each player of the list, in turn, issues its
     * orders through its strategy and has them executed at once, so that
     * every queue is empty at the end. A Neutral player may have become
     * Aggressive; no other strategy changes.
     */
    method IssueOrdersPhase()
      requires Valid() && Automated(roster, players)
      modifies gameMap, deck, dice, set q | q in roster
      ensures Valid() && Automated(roster, players)
      ensures forall k :: 0 <= k < |players| ==> roster[players[k]].orders == []
      ensures MayTurnAggressive(old(StrategiesOf(roster)), StrategiesOf(roster))
    {
      var i := 0;
      while i < |players|
        invariant 0 <= i <= |players|
        invariant Valid() && Automated(roster, players)
        invariant forall k :: 0 <= k < i ==> Queues(roster, players)[k] == []
        invariant MayTurnAggressive(old(StrategiesOf(roster)), StrategiesOf(roster))
      {
        ghost var before := StrategiesOf(roster);
        IssueAndExecute(i);
        MayTurnAggressiveTransitive(old(StrategiesOf(roster)), before, StrategiesOf(roster));
        i := i + 1;
      }
      forall k | 0 <= k < |players|
        ensures roster[players[k]].orders == []
      {
        assert Queues(roster, players)[k] == [];
      }
    }

    /** The body of issueOrdersPhase's loop: the i-th player of the list issues its orders, which are then all executed. */
    method IssueAndExecute(i: nat)
      requires Valid() && Automated(roster, players) && i < |players|
      modifies gameMap, deck, dice, set q | q in roster
      ensures Valid() && Automated(roster, players)
      ensures Queues(roster, players) == old(Queues(roster, players))[i := []]
      ensures MayTurnAggressive(old(StrategiesOf(roster)), StrategiesOf(roster))
    {
      ghost var queues := Queues(roster, players);
      Issue(i);
      ghost var issued := StrategiesOf(roster);
      Drain(i);
      assert StrategiesOf(roster) == issued;
      forall k | 0 <= k < |players|
        ensures Queues(roster, players)[k] == queues[i := []][k]
      {
        if k != i {
          assert players[k] != players[i];
        }
      }
    }

    /** player->issueOrder() for the i-th player of the list. */
    method Issue(i: nat)
      requires Valid() && Automated(roster, players) && i < |players|
      modifies gameMap, dice, roster[players[i]]
      ensures Valid() && Automated(roster, players)
      ensures forall x :: 0 <= x < |roster| && x != players[i] ==> roster[x].orders == old(roster[x].orders)
      ensures MayTurnAggressive(old(StrategiesOf(roster)), StrategiesOf(roster))
    {
      var p := players[i];
      var player := roster[p];
      forall x | 0 <= x < |roster| && x != p
        ensures roster[x] != player
      {
        RosterDistinct(roster, x, p);
      }
      ghost var ts := gameMap.territories;
      assert forall t :: t in player.territories ==> t < |ts|;
      Strategies.IssueOrder(gameMap, roster, players, player, dice);
      ConsistentByOwners(ts, gameMap.territories, roster);
    }

    /**
     * One round of the deploy pass: each player of the list has its oldest
     * order popped, executed when it is a Deploy and thrown away otherwise.
     */
    method DeployRound() returns (found: bool, ghost executed: seq<Orders.Order>, ghost dropped: seq<Orders.Order>)
      requires Valid()
      modifies gameMap, deck, dice, set q | q in roster
      ensures Valid()
      ensures (executed, dropped, Queues(roster, players), found) == DeployRoundAsWritten(old(Queues(roster, players)))
      ensures StrategiesOf(roster) == old(StrategiesOf(roster))
    {
      ghost var queues := Queues(roster, players);
      ghost var cur := queues;
      found, executed, dropped := false, [], [];
      var i := 0;
      assert queues[..0] == [];
      while i < |players|
        invariant 0 <= i <= |players| && Valid() && cur == Queues(roster, players)
        invariant (executed, dropped, cur[..i], found) == DeployRoundAsWritten(queues[..i])
        invariant cur[i..] == queues[i..]
        invariant StrategiesOf(roster) == old(StrategiesOf(roster))
      {
        ghost var q := queues[i];
        assert cur[i] == cur[i..][0] == q;
        var order, ran := Turn(i, true);
        DeployRoundStep(queues, i, cur, executed, dropped, found, order, ran);
        executed := if ran then executed + [order.value] else executed;
        dropped := if order.Some? && !ran then dropped + [order.value] else dropped;
        found := found || ran;
        cur := if q == [] then cur else cur[i := q[1..]];
        i := i + 1;
      }
      assert queues[..|players|] == queues;
      assert cur[..|players|] == cur;
    }

    /**
     * The first do-while of executeOrdersPhase: deploy rounds until one finds
     * no Deploy. Gives the orders executed and those popped and thrown away.
     */
    method DeployPass() returns (ghost executed: seq<Orders.Order>, ghost dropped: seq<Orders.Order>)
      requires Valid()
      modifies gameMap, deck, dice, set q | q in roster
      ensures Valid()
      ensures (executed, dropped, Queues(roster, players)) == DeployPassAsWritten(old(Queues(roster, players)))
      ensures StrategiesOf(roster) == old(StrategiesOf(roster))
    {
      ghost var start := Queues(roster, players);
      ghost var left := start;
      executed, dropped := [], [];
      var more := true;
      ghost var pass := DeployPassAsWritten(start);
      assert [] + pass.0 == pass.0 && [] + pass.1 == pass.1;
      while more
        invariant Valid() && left == Queues(roster, players)
        invariant more ==> (executed + DeployPassAsWritten(left).0, dropped + DeployPassAsWritten(left).1, DeployPassAsWritten(left).2) == pass
        invariant !more ==> (executed, dropped, left) == pass
        invariant StrategiesOf(roster) == old(StrategiesOf(roster))
        decreases QueuedOrders(left) + (if more then 1 else 0)
      {
        DeployRoundShrinks(left);
        DeployPassUnfold(left);
        var found, e, d := DeployRound();
        ghost var rest := DeployPassAsWritten(Queues(roster, players));
        Strategies.AppendAssoc(executed, e, rest.0);
        Strategies.AppendAssoc(dropped, d, rest.1);
        executed, dropped, more, left := executed + e, dropped + d, found, Queues(roster, players);
      }
    }

    /** One round of the second do-while of executeOrdersPhase: every player's head is popped and executed. */
    method Round() returns (found: bool, ghost executed: seq<Orders.Order>)
      requires Valid()
      modifies gameMap, deck, dice, set q | q in roster
      ensures Valid()
      ensures (executed, Queues(roster, players), found) == RoundAsWritten(old(Queues(roster, players)))
      ensures StrategiesOf(roster) == old(StrategiesOf(roster))
    {
      ghost var queues := Queues(roster, players);
      ghost var cur := queues;
      found, executed := false, [];
      var i := 0;
      assert queues[..0] == [];
      while i < |players|
        invariant 0 <= i <= |players| && Valid() && cur == Queues(roster, players)
        invariant (executed, cur[..i], found) == RoundAsWritten(queues[..i])
        invariant cur[i..] == queues[i..]
        invariant StrategiesOf(roster) == old(StrategiesOf(roster))
      {
        ghost var q := queues[i];
        assert cur[i] == cur[i..][0] == q;
        var order, ran := Turn(i, false);
        RoundStep(queues, i, cur, executed, found, order, ran);
        executed := if ran then executed + [order.value] else executed;
        found := found || ran;
        cur := if q == [] then cur else cur[i := q[1..]];
        i := i + 1;
      }
      assert queues[..|players|] == queues;
      assert cur[..|players|] == cur;
    }

    /**
     * The second do-while of executeOrdersPhase: rounds until one finds no
     * order. Every listed player's queue ends empty.
     */
    method Pass() returns (ghost executed: seq<Orders.Order>)
      requires Valid()
      modifies gameMap, deck, dice, set q | q in roster
      ensures Valid()
      ensures executed == PassAsWritten(old(Queues(roster, players)))
      ensures forall k :: 0 <= k < |players| ==> roster[players[k]].orders == []
      ensures StrategiesOf(roster) == old(StrategiesOf(roster))
    {
      ghost var start := Queues(roster, players);
      ghost var left := start;
      executed := [];
      var more := true;
      assert [] + PassAsWritten(start) == PassAsWritten(start);
      while more
        invariant Valid() && left == Queues(roster, players)
        invariant more ==> executed + PassAsWritten(left) == PassAsWritten(start)
        invariant !more ==> executed == PassAsWritten(start) && QueuedOrders(left) == 0
        invariant StrategiesOf(roster) == old(StrategiesOf(roster))
        decreases QueuedOrders(left) + (if more then 1 else 0)
      {
        RoundCounts(left);
        PassUnfold(left);
        ghost var rest := PassAsWritten(left);
        var found, e := Round();
        Strategies.AppendAssoc(executed, e, PassAsWritten(Queues(roster, players)));
        executed, more, left := executed + e, found, Queues(roster, players);
      }
      QueuedOrdersNone(left);
      forall k | 0 <= k < |players|
        ensures roster[players[k]].orders == []
      {
        assert left[k] == [];
      }
    }

    /** executeOrdersPhase: the deploy pass, then the second pass; every listed player's queue ends empty. */
    method ExecuteOrdersPhase()
      requires Valid()
      modifies gameMap, deck, dice, set q | q in roster
      ensures Valid()
      ensures forall k :: 0 <= k < |players| ==> roster[players[k]].orders == []
      ensures StrategiesOf(roster) == old(StrategiesOf(roster))
      ensures old(Automated(roster, players)) ==> Automated(roster, players)
    {
      ghost var strategies := StrategiesOf(roster);
      var _, _ := DeployPass();
      var _ := Pass();
      forall k | 0 <= k < |players| && players[k] < |roster|
        ensures roster[players[k]].strategy == old(roster[players[k]].strategy)
      {
        assert StrategiesOf(roster)[players[k]] == strategies[players[k]];
      }
    }

    /**
     * One player's turn in a round of executeOrdersPhase: its head is popped
     * and, in the deploy pass only when it is a Deploy, executed.
     */
    method Turn(i: nat, deployOnly: bool) returns (order: Option<Orders.Order>, ran: bool)
      requires Valid() && i < |players|
      modifies gameMap, deck, dice, set q | q in roster
      ensures Valid()
      ensures var q := old(Queues(roster, players))[i];
        && (q == [] ==> order.None? && Queues(roster, players) == old(Queues(roster, players)))
        && (q != [] ==> order == Some(q[0]) && Queues(roster, players) == old(Queues(roster, players))[i := q[1..]])
      ensures ran <==> order.Some? && (!deployOnly || order.value.Deploy?)
      ensures StrategiesOf(roster) == old(StrategiesOf(roster))
    {
      order := Pop(i);
      ghost var popped := Queues(roster, players);
      ran := order.Some? && (!deployOnly || order.value.Deploy?);
      if ran {
        var _ := RunOrder(order.value);
        assert Queues(roster, players) == popped;
      }
    }

    /** player->getNextOrder() for the i-th player of the list: its queue loses its head. */
    method Pop(i: nat) returns (order: Option<Orders.Order>)
      requires Valid() && i < |players|
      modifies roster[players[i]]
      ensures Valid()
      ensures var q := old(Queues(roster, players))[i];
        && (q == [] ==> order.None? && Queues(roster, players) == old(Queues(roster, players)))
        && (q != [] ==> order == Some(q[0]) && Queues(roster, players) == old(Queues(roster, players))[i := q[1..]])
      ensures StrategiesOf(roster) == old(StrategiesOf(roster))
    {
      var p := players[i];
      var player := roster[p];
      forall x | 0 <= x < |roster| && x != p
        ensures roster[x] != player
      {
        RosterDistinct(roster, x, p);
      }
      ghost var before := Queues(roster, players);
      order := player.GetNextOrder();
      ghost var after := Queues(roster, players);
      if before[i] != [] {
        forall k | 0 <= k < |players|
          ensures after[k] == before[i := before[i][1..]][k]
        {
          if k != i {
            assert players[k] != p;
          }
        }
      } else {
        forall k | 0 <= k < |players|
          ensures after[k] == before[k]
        {
          if k != i {
            assert players[k] != p;
          }
        }
      }
    }

  }

  /**
   * One player's turn in a round of the deploy pass, on values: the queues
   * `cur` are the round's starting queues with the first i handled.
   */
  lemma DeployRoundStep(queues: seq<seq<Orders.Order>>, i: nat, cur: seq<seq<Orders.Order>>,
                        executed: seq<Orders.Order>, dropped: seq<Orders.Order>, found: bool, order: Option<Orders.Order>, ran: bool)
    requires i < |queues| == |cur|
    requires (executed, dropped, cur[..i], found) == DeployRoundAsWritten(queues[..i]) && cur[i..] == queues[i..]
    requires queues[i] == [] ==> order.None?
    requires queues[i] != [] ==> order == Some(queues[i][0])
    requires ran == (order.Some? && order.value.Deploy?)
    ensures var q := queues[i];
      var next := if q == [] then cur else cur[i := q[1..]];
      && (if ran then executed + [order.value] else executed,
          if order.Some? && !ran then dropped + [order.value] else dropped,
          next[..i + 1], found || ran) == DeployRoundAsWritten(queues[..i + 1])
      && next[i + 1..] == queues[i + 1..]
  {
    var q := queues[i];
    var pre := queues[..i + 1];
    assert pre[..|pre| - 1] == queues[..i] && pre[|pre| - 1] == q;
    var before := DeployRoundAsWritten(queues[..i]);
    assert DeployRoundAsWritten(pre) ==
      if q == [] then (before.0, before.1, before.2 + [q], before.3)
      else if q[0].Deploy? then (before.0 + [q[0]], before.1, before.2 + [q[1..]], true)
      else (before.0, before.1 + [q[0]], before.2 + [q[1..]], before.3);
    assert cur[i] == cur[i..][0] == q;
    var next := if q == [] then cur else cur[i := q[1..]];
    assert next[..i + 1] == cur[..i] + [next[i]];
    assert next[i + 1..] == cur[i..][1..];
    if q == [] {
      assert next[..i + 1] == before.2 + [q];
    } else {
      assert next[..i + 1] == before.2 + [q[1..]];
    }
  }

  /** Handling the i-th queue of a round of the second pass: its head, if any, is popped and executed. */
  lemma RoundStep(queues: seq<seq<Orders.Order>>, i: nat, cur: seq<seq<Orders.Order>>,
                  executed: seq<Orders.Order>, found: bool, order: Option<Orders.Order>, ran: bool)
    requires i < |queues| == |cur|
    requires (executed, cur[..i], found) == RoundAsWritten(queues[..i]) && cur[i..] == queues[i..]
    requires queues[i] == [] ==> order.None?
    requires queues[i] != [] ==> order == Some(queues[i][0])
    requires ran == order.Some?
    ensures var q := queues[i];
      var next := if q == [] then cur else cur[i := q[1..]];
      && (if ran then executed + [order.value] else executed, next[..i + 1], found || ran)
         == RoundAsWritten(queues[..i + 1])
      && next[i + 1..] == queues[i + 1..]
  {
    var q := queues[i];
    var pre := queues[..i + 1];
    assert pre[..|pre| - 1] == queues[..i] && pre[|pre| - 1] == q;
    var before := RoundAsWritten(queues[..i]);
    assert RoundAsWritten(pre) ==
      if q == [] then (before.0, before.1 + [q], before.2)
      else (before.0 + [q[0]], before.1 + [q[1..]], true);
    assert cur[i] == cur[i..][0] == q;
    var next := if q == [] then cur else cur[i := q[1..]];
    assert next[..i + 1] == cur[..i] + [next[i]];
    assert next[i + 1..] == cur[i..][1..];
    if q == [] {
      assert next[..i + 1] == before.1 + [q];
    } else {
      assert next[..i + 1] == before.1 + [q[1..]];
    }
  }

  /** A freshly parsed map has no owners, keeps its continents on the map, and fits a roster that owns nothing. */
  lemma ParsedMapFits(d: Draft, roster: seq<Player>)
    requires Shaped(d) && Roster(roster)
    requires forall x :: 0 <= x < |roster| ==> roster[x].territories == []
    ensures var ts := Resolve(d);
      && (forall t :: 0 <= t < |ts| ==> ts[t].owner.None?)
      && MembersOnMap(ts, d.continents)
      && Consistent(ts, roster)
  {
  }

  /** A reordering of the ids 0 to n - 1 lists each of them. */
  lemma EveryIdListed(ids: seq<PlayerId>, players: seq<PlayerId>)
    requires forall k :: 0 <= k < |ids| ==> ids[k] == k
    requires multiset(players) == multiset(ids)
    ensures |players| == |ids| && forall x :: 0 <= x < |ids| ==> x in players
  {
    assert |players| == |multiset(players)| == |multiset(ids)| == |ids|;
    forall x | 0 <= x < |ids|
      ensures x in players
    {
      assert ids[x] == x;
      assert x in multiset(ids);
    }
  }

  /**
   * The first i players of the list have drawn the pairs of `draws`: each
   * holds its hand of `hands` plus its pair, and everyone else holds the
   * hand of `hands`.
   */
  ghost predicate HandsDealt(now: seq<seq<Option<CardType>>>, hands: seq<seq<Option<CardType>>>, players: seq<PlayerId>,
                             draws: seq<Option<CardType>>, i: nat)
    requires i <= |players| && |draws| == 2 * i
  {
    |now| == |hands| && PairsDealt(now, hands, players, draws, i) && Untouched(now, hands, players[..i])
  }

  /** Each of the first i players of the list holds its hand plus its pair. */
  ghost predicate PairsDealt(now: seq<seq<Option<CardType>>>, hands: seq<seq<Option<CardType>>>, players: seq<PlayerId>,
                             draws: seq<Option<CardType>>, i: nat)
    requires i <= |players| && |draws| == 2 * i
  {
    forall k :: 0 <= k < i ==> players[k] < |now| && players[k] < |hands| && now[players[k]] == hands[players[k]] + Held(Present(Pair(draws, k)))
  }

  /** Everyone not in `dealt` holds its hand. */
  ghost predicate Untouched(now: seq<seq<Option<CardType>>>, hands: seq<seq<Option<CardType>>>, dealt: seq<PlayerId>) {
    forall x :: 0 <= x < |now| && x < |hands| && x !in dealt ==> now[x] == hands[x]
  }

  /** A prefix one longer is the prefix and the next entry. */
  lemma TakeOneMore(s: seq<PlayerId>, i: nat)
    requires i < |s|
    ensures s[..i + 1] == s[..i] + [s[i]]
  {
  }

  /** The i-th player of the list drawing its pair extends the deal by one player. */
  lemma HandsDealtStep(now: seq<seq<Option<CardType>>>, hands: seq<seq<Option<CardType>>>, players: seq<PlayerId>,
                       draws: seq<Option<CardType>>, two: seq<Option<CardType>>, i: nat)
    requires i < |players| && |draws| == 2 * i && |two| == 2 && NoDup(players) && players[i] < |now|
    requires HandsDealt(now, hands, players, draws, i)
    ensures var p := players[i];
      HandsDealt(now[p := now[p] + Held(Present(two))], hands, players, draws + two, i + 1)
  {
    var p := players[i];
    TakeOneMore(players, i);
    assert p !in players[..i] by {
      assert forall k :: 0 <= k < i ==> players[..i][k] == players[k] != players[i];
    }
    PairsStep(now, hands, players, draws, two, i);
    UntouchedStep(now, hands, players[..i], p, Held(Present(two)));
  }

  /** The pairs dealt so far stay, and the i-th player's hand gains its pair. */
  lemma PairsStep(now: seq<seq<Option<CardType>>>, hands: seq<seq<Option<CardType>>>, players: seq<PlayerId>,
                  draws: seq<Option<CardType>>, two: seq<Option<CardType>>, i: nat)
    requires i < |players| && |draws| == 2 * i && |two| == 2 && NoDup(players) && players[i] < |now| && players[i] < |hands|
    requires PairsDealt(now, hands, players, draws, i) && now[players[i]] == hands[players[i]]
    ensures var p := players[i];
      PairsDealt(now[p := now[p] + Held(Present(two))], hands, players, draws + two, i + 1)
  {
    var p := players[i];
    var next := now[p := now[p] + Held(Present(two))];
    PairsKept(draws, two, i);
    forall k | 0 <= k < i + 1
      ensures next[players[k]] == hands[players[k]] + Held(Present(Pair(draws + two, k)))
    {
      if k < i {
        assert players[k] != p;
      }
    }
  }

  /** Changing p's hand and adding p to those dealt leaves the rest untouched. */
  lemma UntouchedStep(now: seq<seq<Option<CardType>>>, hands: seq<seq<Option<CardType>>>, dealt: seq<PlayerId>, p: PlayerId, extra: seq<Option<CardType>>)
    requires p < |now| && Untouched(now, hands, dealt)
    ensures Untouched(now[p := now[p] + extra], hands, dealt + [p])
  {
  }

  /** The hands of the roster, in order. */
  function Hands(roster: seq<Player>): (r: seq<seq<Option<CardType>>>)
    reads set q | q in roster
    ensures |r| == |roster| && forall x :: 0 <= x < |roster| ==> r[x] == roster[x].cards
  {
    seq(|roster|, x requires 0 <= x < |roster| reads roster => roster[x].cards)
  }

  /** Between two snapshots of the strategies, a Neutral player may have turned Aggressive and nothing else changed. */
  predicate MayTurnAggressive(before: seq<Strategy>, after: seq<Strategy>) {
    |before| == |after| && forall x :: 0 <= x < |before| ==> after[x] == before[x] || (before[x] == Neutral && after[x] == Aggressive)
  }

  lemma MayTurnAggressiveTransitive(a: seq<Strategy>, b: seq<Strategy>, c: seq<Strategy>)
    requires MayTurnAggressive(a, b) && MayTurnAggressive(b, c)
    ensures MayTurnAggressive(a, c)
  {
  }

  /** The strategy of each player of the roster, in order. */
  function StrategiesOf(roster: seq<Player>): (r: seq<Strategy>)
    reads set q | q in roster
    ensures |r| == |roster| && forall x :: 0 <= x < |roster| ==> r[x] == roster[x].strategy
  {
    seq(|roster|, x requires 0 <= x < |roster| reads roster => roster[x].strategy)
  }

  /** The two draws of the k-th player of the list. */
  function Pair(draws: seq<Option<CardType>>, k: nat): seq<Option<CardType>>
    requires 2 * k + 2 <= |draws|
  {
    draws[2 * k..2 * k + 2]
  }

  /** Appending the i-th player's two draws keeps the earlier pairs and makes the new one the i-th. */
  lemma PairsKept(draws: seq<Option<CardType>>, two: seq<Option<CardType>>, i: nat)
    requires |draws| == 2 * i && |two| == 2
    ensures Pair(draws + two, i) == two
    ensures forall k :: 0 <= k < i ==> Pair(draws + two, k) == Pair(draws, k)
  {
    assert (draws + two)[2 * i..2 * i + 2] == two;
    forall k | 0 <= k < i
      ensures Pair(draws + two, k) == Pair(draws, k)
    {
      assert (draws + two)[2 * k..2 * k + 2] == draws[2 * k..2 * k + 2];
    }
  }

  /** One more draw adds its card to the cards dealt, or nothing when it is null. */
  lemma PresentAppend(draws: seq<Option<CardType>>, card: Option<CardType>)
    ensures Held(Present(draws + [card])) == Held(Present(draws)) + (if card.Some? then [card] else [])
  {
    assert (draws + [card])[..|draws|] == draws;
    var p := Present(draws);
    if card.Some? {
      assert Present(draws + [card]) == p + [card.value];
      assert Held(p + [card.value]) == Held(p) + [card];
    } else {
      assert Present(draws + [card]) == p + [];
      assert p + [] == p;
    }
  }

  /** Two more draws: the earlier draws are kept and the two new ones start where they left off. */
  lemma DealTwoMore(cards: seq<CardType>, stream: nat -> nat, at: nat, n: nat)
    ensures var before := Deal(cards, stream, at, n);
      var first := DealOne(before.1, stream, before.2);
      var second := DealOne(first.1, stream, first.2);
      Deal(cards, stream, at, n + 2) == (before.0 + [first.0, second.0], second.1, second.2)
  {
    var before := Deal(cards, stream, at, n);
    var first := DealOne(before.1, stream, before.2);
    var second := DealOne(first.1, stream, first.2);
    assert Deal(cards, stream, at, n + 1) == (before.0 + [first.0], first.1, first.2);
    assert before.0 + [first.0] + [second.0] == before.0 + [first.0, second.0];
  }
}
