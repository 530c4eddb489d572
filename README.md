# Warzone engine, Reuters indexer and byte ciphers in Dafny

This project models, and proves properties of, four parts of one repository.

**Warzone (warzone/src).** This is a turn-based conquest game.
- Territories live in an arena: the map's `seq<Territory>`. A territory's owner is `Option<PlayerId>`, and its adjacency list is a sequence of indices. An index past the end of the arena stands for a neighbour that `parse` could not resolve.
- Classes keep the objects the source updates in place:
  - `Board.Map`;
  - `Players.Player`, with its territories, pool, friends, hand and orders;
  - `Cards.Deck` and `Cards.Hand`;
  - `Orders.OrdersList`;
  - `Commands.CommandProcessor`;
  - `GameEngine.Game`.
- Each order's `validate` is a predicate and its `execute` a method (module `OrderRules`). Combat counts hits from an explicit stream of die rolls.
- `Board` covers the map's validity check (in-degree against out-degree, and continent membership), continent rewards and the lookups. `MapLoader` covers the line-by-line parser.
- `Engine` holds the reinforcement formula, elimination, the end condition, the startup state table and the two-pass execution of orders. `GameEngine.Game` runs them over the objects.
- `Priorities` and `Strategies` model the computer players' `toDefend`, `toAttack` and `issueOrder`.
- `Tournaments` covers the argument checks of the tournament command.
- Every random choice (`rand()`, the Mersenne engines, `std::shuffle`) is an input: a stream `nat -> nat` read from a cursor. Each consumer maps a draw as the source does, e.g. `rand() % size`.
- The deploy pass of `executeOrdersPhase` is modelled as written, and `GameEngine.Game` runs it: the pass pops every non-Deploy order at the head of a queue and discards it. `Engine.DeployPassDropsAdvance` shows an Advance lost this way. `Engine.IntendedDeployPass` is the evidently intended pass, proved to leave each queue with its leading Deploys removed (see Findings). In the game the drop stays latent, because `issueOrdersPhase` executes and empties every queue before `executeOrdersPhase` runs.
- Negotiate orders use `addFriend` as intended (`Players.Player.AddFriend`; see the Findings row for Player.cpp:128-141). As written, `addFriend` returns early unless the player is already a friend, so a Negotiate never makes anyone a friend. `Players.Player.AddFriendAsWritten` and `Players.NegotiateAsWritten` model that behaviour. Everything downstream uses the corrected friendships: `OrderRules.ExecuteOrder`, `GameEngine.Game.RunOrder`, the phases, and the strategies' friend filters.

**Reuters-21578 indexer (reuters-21578_indexer/indices.py).** This part covers:
- the naive index (sorted, distinct postings) and the SPIMI index (postings in order of occurrence), and that they agree as sets;
- single-term and AND queries;
- the size of an index;
- the selection of stopwords;
- the two in-place rewriting steps that delete numeric terms and fold case.

A Python dict is an `Indexer.Index` object: its keys in insertion order plus a map.

**File cipher (filecypher/cypher.c).** This part covers `hash`, the in-buffer encrypt/decrypt loop over an `array<SChar>` (signed 8-bit `char`s, see `CChars`), and the mode selection of `main`. Decryption undoes encryption byte for byte.

**Text decipher (txtcypher/decypher.c).** This part covers `decypher` over signed 8-bit `char`s. The model states each written byte, where the terminator goes, and that every write stays inside the `size + 1` bytes allocated.

## Model

| member | source | states |
|---|---|---|
| Cards.NewDeckCards | warzone/src/Cards.cpp:69-76 | a new deck holds five cards |
| Cards.NewDeckOneOfEach | warzone/src/Cards.cpp:69-76 | the five cards of a new deck are one of each card type |
| Cards.DeckDraw | warzone/src/Cards.cpp:96-107 | an empty deck gives no card and stays as it is; otherwise the card at rand mod size comes out, the others close up in their order, and card plus rest are the old deck as a multiset |
| Cards.HandDraw | warzone/src/Cards.cpp:137-146 | an empty hand gives nothing; otherwise the last entry comes out and the rest plus it is the old hand |
| Cards.HandIsStack | warzone/src/Cards.cpp:137-150 | drawing right after adding c gives back c and the hand as it was before the add |
| Cards.DeckDrawAfterAdd | warzone/src/Cards.cpp:96-111 | a draw at the last index right after addCard gives back the added card and the deck as it was |
| Cards.Deck.constructor | warzone/src/Cards.cpp:69-76 | the new deck holds the five cards of NewDeckCards |
| Cards.Deck.Copy | warzone/src/Cards.cpp:78-81 | the copy holds the same cards in the same order |
| Cards.Deck.Assign | warzone/src/Cards.cpp:83-89 | self-assignment changes nothing; otherwise the other deck's cards are appended without clearing these |
| Cards.Deck.Draw | warzone/src/Cards.cpp:96-107 | the card returned and the cards left are DeckDraw of the old cards at the rand value |
| Cards.Deck.AddCard | warzone/src/Cards.cpp:109-111 | the card goes at the end of the deck |
| Cards.Deck.DeckSize | warzone/src/Cards.cpp:113-115 | true exactly when the deck is not empty |
| Cards.Hand.constructor | warzone/src/Cards.cpp:117 | a new hand is empty |
| Cards.Hand.Copy | warzone/src/Cards.cpp:119-122 | the copy holds the same cards in the same order |
| Cards.Hand.Assign | warzone/src/Cards.cpp:124-130 | self-assignment changes nothing; otherwise the other hand's cards are appended without clearing these |
| Cards.Hand.Draw | warzone/src/Cards.cpp:137-146 | the card returned and the cards left are HandDraw of the old hand |
| Cards.Hand.AddCard | warzone/src/Cards.cpp:148-150 | the entry, a null card included, goes on top of the hand |
| Cards.Hand.HandSize | warzone/src/Cards.cpp:152-154 | true exactly when the hand is not empty |
| Random.Dice.Next | warzone/src/PlayerStrategies.cpp:201-205 | each draw returns the next value of the stream and advances the count of draws by one |
| Random.Roll | warzone/src/Orders.cpp:198-205 | a roll is always in [1, 100] |
| Random.RandomInt | warzone/src/PlayerStrategies.cpp:201-205 | randomInt(lo, hi) lies in [lo, hi] |
| Random.Hits | warzone/src/Orders.cpp:203-215 | n rolls give at most n hits, and exactly n when the threshold is 100 or more |
| Random.CountHits | warzone/src/Orders.cpp:203-215 | the loop reads exactly one value per army, none when there are no armies, and counts the Hits among them |
| Orders.RemoveAt | warzone/src/Orders.cpp:579-587 | an index past the end gives nothing and keeps the list; otherwise the order at the index comes out, the others close up in their order, and order plus rest are the old list as a multiset |
| Orders.Swapped | warzone/src/Orders.cpp:592-597 | the orders at the two indices trade places and every other position is unchanged |
| Orders.QueueOrder | warzone/src/Orders.cpp:568-587 | the list is first in, first out: after add, remove(0) gives the oldest order and the new one ends up last |
| Orders.SwapInvolution | warzone/src/Orders.cpp:592-597 | a second move between the same indices restores the list |
| Orders.SwapKeepsOrders | warzone/src/Orders.cpp:592-597 | a move keeps the same orders (a permutation) |
| Orders.OrdersList.constructor | warzone/src/Orders.cpp:541-544 | a new list is empty |
| Orders.OrdersList.Add | warzone/src/Orders.cpp:568-575 | a null order gives the error "Order is null somehow" and keeps the list; any other order is appended |
| Orders.OrdersList.Remove | warzone/src/Orders.cpp:579-587 | the result and the new list are RemoveAt of the old list |
| Orders.OrdersList.Move | warzone/src/Orders.cpp:592-597 | the new list is Swapped of the old one |
| Orders.OrdersList.Assign | warzone/src/Orders.cpp:621-638 | the other list's orders replace these |
| OrderRules.TotalWithArmies | warzone/src/Orders.cpp:95 | setting one territory's armies changes the total on the map by exactly the difference |
| OrderRules.TotalWithOwner | warzone/src/Orders.cpp:223-226 | changing an owner leaves the total armies alone |
| OrderRules.MovedKeepsTotal | warzone/src/Orders.cpp:176-179 | moving armies between two territories keeps the total |
| OrderRules.ArmiesKeepConsistent | warzone/src/Orders.cpp:95 | changing armies keeps the agreement between territory owners and players' territory lists |
| OrderRules.Combat | warzone/src/Orders.cpp:217-218 | survivors are never negative and never more than started; a side is wiped out exactly when the other side's hits reach its number |
| OrderRules.UndefendedFalls | warzone/src/Orders.cpp:211-226 | an attack on a territory without armies conquers it with every attacker surviving, whatever the dice |
| OrderRules.OutnumberedCannotConquer | warzone/src/Orders.cpp:217-220 | more defenders than attackers never all fall, whatever the dice |
| OrderRules.BattleDraws | warzone/src/Orders.cpp:203-215 | an attack reads at least one random value per attacker |
| OrderRules.ConquestTakesTarget | warzone/src/Orders.cpp:220-226 | after a conquest the target belongs to the attacker and holds exactly the surviving attackers, and the source has lost the attackers |
| OrderRules.RepelledKeepsOwner | warzone/src/Orders.cpp:231-236 | after a lost attack the target holds the surviving defenders and keeps its owner unless no defender is left |
| OrderRules.AbandonedKeepsTotal | warzone/src/Orders.cpp:238-248 | letting an emptied territory go keeps the total armies |
| OrderRules.AttackNeverCreatesArmies | warzone/src/Orders.cpp:194-249 | the total armies after an attack are at most those before |
| OrderRules.StalemateOnNeutralCrashes | warzone/src/Orders.cpp:244-245 | an ownerless territory of 2 armies attacked by 2 with every roll a 1 ends with both sides wiped out, the case where the name of a null owner is printed |
| OrderRules.CheaterConquestDrawsFromNullDeck | warzone/src/Orders.cpp:229-230 | a deckless advance of 999 armies onto an empty territory always conquers it, so it always reaches the draw from the null deck |
| OrderRules.ExecuteDeploy | warzone/src/Orders.cpp:76-100 | valid exactly when the target is the player's and 1 <= amount <= pool; then the target gains amount armies and the pool pays them, never going negative; otherwise nothing changes; no other player changes; the ownership invariant holds after |
| OrderRules.DropIfEmpty | warzone/src/Orders.cpp:323-327 | a territory left without armies loses its owner, who drops it from their list; any other stays |
| OrderRules.DropBoth | warzone/src/Orders.cpp:238-248 | source, then target, are let go when left without armies; an ownerless territory is handled before any owner is read |
| OrderRules.MoveArmies | warzone/src/Orders.cpp:176-179 | the source loses and the target gains amount armies, owners unchanged |
| OrderRules.Fight | warzone/src/Orders.cpp:194-216 | the attackers leave the source, the battle is BattleAt of the next random values, and exactly BattleDraws values are read |
| OrderRules.TakeOver | warzone/src/Orders.cpp:220-226 | the old owner lets the target go and the attacker adds it to their list, holding the survivors |
| OrderRules.RewardCard | warzone/src/Orders.cpp:229-230 | an order with a deck puts deck->draw() on top of the conqueror's hand (nothing from an empty deck, which reads no random value); an order without one changes nothing |
| OrderRules.Resolve | warzone/src/Orders.cpp:220-236 | conquest or repulse as Fought says, with a card reward exactly on conquest with a deck; other players untouched |
| OrderRules.Attack | warzone/src/Orders.cpp:194-249 | the map becomes AttackOutcome of the dice's battle; a conquest with a deck draws a card after the battle's draws; the ownership invariant holds after |
| OrderRules.Aftermath | warzone/src/Orders.cpp:217-249 | the battle resolved, then source and target let go when empty |
| OrderRules.ExecuteAdvance | warzone/src/Orders.cpp:146-187 | valid exactly when AdvanceValid (own source, 1 <= amount <= its armies, adjacent target, no friend's target); a move to one's own territory keeps the dice untouched, to anyone else's it is the Attack outcome and, by CardOfBattle, the battle's dice are used and a conquest with a deck moves a card from the deck to the player's hand (otherwise deck and hand are untouched); invalid changes nothing; no other player changes |
| OrderRules.Borders | warzone/src/Orders.cpp:295-303 | true exactly when some territory on the player's list has the target in its adjacency |
| OrderRules.ExecuteBomb | warzone/src/Orders.cpp:289-331 | valid exactly when the target is not the player's, borders their list and is not a friend's; then the map becomes Bombed; otherwise nothing changes |
| OrderRules.BombHalvesTotal | warzone/src/Orders.cpp:318-327 | a bomb removes the upper half of the target's armies and nothing else, and leaves the target ownerless exactly when it held one army or had no owner |
| OrderRules.ExecuteBlockade | warzone/src/Orders.cpp:369-390 | valid exactly when the target is the player's; then its armies double, it loses its owner and leaves the player's list; otherwise nothing changes |
| OrderRules.ExecuteAirlift | warzone/src/Orders.cpp:434-467 | valid exactly when both ends are the player's and 1 <= amount <= source armies; then the armies move without adjacency and an emptied source is let go |
| OrderRules.ExecuteNegotiate | warzone/src/Orders.cpp:505-521 | valid exactly when the players differ; then, with addFriend as intended (Findings, Player.cpp:128-141), each is on the other's friends list, added once; nothing else about the players changes, and no third player's friends change |
| OrderRules.ExecuteOrder | warzone/src/Orders.cpp:76-521 | every execute is valid exactly when its validate is; a valid order leaves the map as `Outcome` gives it by kind (deploy adds armies, advance moves or fights with the next dice, bomb halves, blockade doubles and neutralises, airlift moves, negotiate touches no territory), a deploy takes its armies from the pool, a blockade drops the territory from its player's list and a negotiation makes both players friends (with addFriend as intended, Findings, Player.cpp:128-141); an attacking advance uses the battle's dice and, after a conquest with a deck, moves a card from the deck to its player's hand (CardOfBattle); every other order, and every invalid one, leaves deck, dice and hands untouched; only a deploy changes a pool (its player's) and only a negotiation changes friends (its two players'); an invalid order leaves the map unchanged; no order touches the players' order lists or strategies; the ownership invariant holds after |
| OrderRules.ExecuteFought | warzone/src/Orders.cpp:146-249 | an Advance order's execute: valid exactly when its validate is; the map becomes its `Outcome`; an attack uses the battle's dice and may win a card (CardOfBattle), anything else leaves deck, dice and hands untouched; no pool, friends list, queue or strategy changes |
| OrderRules.ExecuteUnfought | warzone/src/Orders.cpp:76-521 | every non-Advance execute (deploy, bomb, blockade, airlift, negotiate): valid exactly when its validate is; the map becomes its `Outcome`; no dice are used and no hand changes; only a deploy changes a pool and only a negotiation changes friends |
| Players.EraseFirst | warzone/src/Player.cpp:103-108 | an absent entry leaves the list alone; a present one is removed once |
| Players.EraseFirstNoDup | warzone/src/Player.cpp:103-108 | erasing from a list without duplicates leaves exactly the other entries, still without duplicates |
| Players.Player.constructor | warzone/src/Player.cpp:8-15 | a new player has its name and strategy, no territories, an empty pool, no friends, an empty hand and an empty order list |
| Players.Player.AddTerritory | warzone/src/Player.cpp:95-101 | a listed territory changes nothing; any other is appended and its owner set to this player; taking a listed or unowned territory keeps the ownership invariant |
| Players.Player.RemoveTerritory | warzone/src/Player.cpp:103-109 | an unlisted territory changes nothing; a listed one is erased from the list and left without owner; the ownership invariant is kept |
| Players.Player.AddReinforcementToPool | warzone/src/Player.cpp:111-113 | the pool grows by i |
| Players.Player.RemoveArmiesFromPool | warzone/src/Player.cpp:115-120 | the pool shrinks by i, and the error "ReinforcementPool became less than 1 somehow" comes exactly when it went negative |
| Players.Player.AddCardToHand | warzone/src/Player.cpp:122-126 | a null card is ignored; any other goes on top of the hand |
| Players.Player.IsFriendsWith | warzone/src/Player.cpp:147-150 | true exactly when the player is on the friends list; a null player never is |
| Players.Player.AddFriendAsWritten | warzone/src/Player.cpp:128-141 | as written: only a player already on the list is appended (again); anyone else is ignored |
| Players.Player.AddFriend | warzone/src/Player.cpp:128-141 | as intended: a player not yet a friend is appended, a null or known one ignored; afterwards the player is a friend and the list has no duplicates |
| Players.Player.ClearFriends | warzone/src/Player.cpp:143-145 | the friends list is empty, so nobody is a friend |
| Players.Player.GetNextOrder | warzone/src/Player.cpp:59-61 | the oldest order comes out, or nothing from an empty list (RemoveAt at 0) |
| Players.Player.QueueOrder | warzone/src/Orders.cpp:568-575 | the order goes at the end of the player's list |
| Players.Player.DrawFromHand | warzone/src/Cards.cpp:137-146 | the player's hand is drawn as HandDraw says |
| Players.Player.PushToHand | warzone/src/Cards.cpp:148-150 | the card, null included, goes on top of the player's hand |
| Players.Player.SetStrategy | warzone/src/Player.cpp:152-155 | the player now uses the given strategy |
| Players.NegotiateAsWritten | warzone/src/Orders.cpp:514-521 | with addFriend as written, a negotiation between players who are not friends leaves both friend lists unchanged |
| Board.FindTerritory | warzone/src/Map.cpp:269-277 | the index of the first territory with that name, or None exactly when no territory has it |
| Board.FindContinent | warzone/src/Map.cpp:257-264 | the index of the first continent with that name, or None exactly when no continent has it |
| Board.AddToContinent | warzone/src/Map.cpp:247-267 | when both names are found, the first territory of that name is appended to the first continent of that name and nothing else changes; otherwise the continents stay as they are |
| Board.ResolveAdjacency | warzone/src/Map.cpp:315-329 | each adjacency name becomes the index of the first territory of that name, or the unresolved placeholder when there is none |
| Board.Associated | warzone/src/Map.cpp:315-329 | every territory keeps everything but its adjacency, which is its names resolved |
| Board.ResolveNames | warzone/src/Map.cpp:318-326 | the loop's result is ResolveAdjacency of the names |
| Board.InDegreeIgnoresOwners | warzone/src/Map.cpp:341-352 | the in-degrees counted by validate depend on adjacency only, not on owners |
| Board.IsValidIgnoresOwners | warzone/src/Map.cpp:332-377 | validate's answer does not depend on who owns what |
| Board.AcquiringLastMemberCompletes | warzone/src/Map.cpp:298-312 | a continent whose members are all p's but t is not p's yet, and becomes p's once t is |
| Board.RewardsDependOnOwnersOnly | warzone/src/Map.cpp:298-312 | the continent bonus of a player depends only on who owns the members |
| Board.SumInDegreesIsResolved | warzone/src/Map.cpp:341-352 | the in-degrees of all territories add up to the number of adjacency entries that name a territory of the map |
| Board.DegreesMatchResolvesAdjacency | warzone/src/Map.cpp:354-359 | a map that passes the degree check has no unresolved placeholder in any adjacency list |
| Board.ThreeCycleIsValid | warzone/src/Map.cpp:332-377 | the degree check is not a symmetry check: a directed three-cycle passes validate although no edge has its reverse |
| Board.RebuildMembers | warzone/src/Map.cpp:204-206 | rebuilding memberships keeps every continent's name and bonus |
| Board.EmptyMembers | warzone/src/Map.cpp:200-202 | the continents copied with their name and bonus and no members |
| Board.CopiedTerritories | warzone/src/Map.cpp:42-44 | each territory copied as Territory's copy constructor does, without its adjacency |
| Board.CopyNeverValid | warzone/src/Map.cpp:195-207 | a copy, as written, of a map with at least one territory never passes validate |
| Board.RebuildCountsHomed | warzone/src/Map.cpp:204-206 | the rebuilt continents count exactly the territories whose continent exists |
| Board.AllHomed | warzone/src/Map.cpp:247-267 | every territory is counted exactly when every territory names an existing continent |
| Board.CopyKeepingAdjacencyValid | warzone/src/Map.cpp:195-207 | a copy that keeps adjacency passes validate exactly when the map has territories, passes the degree check and every territory names an existing continent |
| Board.Map.constructor | warzone/src/Map.cpp:180-181 | a new map has no territories and no continents |
| Board.Map.Copy | warzone/src/Map.cpp:195-207 | as intended: the same territories with their adjacency, and the continents emptied then refilled in territory order |
| Board.Map.AddTerritory | warzone/src/Map.cpp:225-227 | a new territory with that name and continent, no armies, no owner and no adjacency goes last |
| Board.Map.SetTerritoryOwner | warzone/src/Map.cpp:243-245 | only that territory's owner changes |
| Board.Map.SetArmies | warzone/src/Map.cpp:59-61 | only that territory's armies change |
| Board.Map.AddContinent | warzone/src/Map.cpp:230-232 | a new continent with that name and bonus and no members goes last |
| Board.Map.AddTerritoryToContinent | warzone/src/Map.cpp:247-267 | the continents become AddToContinent of the names; the territories stay |
| Board.Map.AssociateTerritories | warzone/src/Map.cpp:315-329 | the territories become Associated: every adjacency name resolved to its territory |
| Board.Map.Validate | warzone/src/Map.cpp:332-377 | the nested loops decide IsValid: territories present, each in-degree equal to its non-zero out-degree, and the continent memberships adding up to the number of territories |
| Board.Map.ContinentRewards | warzone/src/Map.cpp:298-312 | the flag loop sums the bonuses of exactly the continents all of whose members p owns |
| Text.LeadingSpace | warzone/src/Map.cpp:385 | the length of the leading run of whitespace: all whitespace before it, none at it |
| Text.TrailingSpace | warzone/src/Map.cpp:385 | where the trailing run of whitespace starts: all whitespace after it, none just before it |
| Text.TrimIsSlice | warzone/src/Map.cpp:448 | trimming keeps a middle slice of the line, cuts only whitespace, and leaves no whitespace at either end |
| Text.IndexOf | warzone/src/Map.cpp:475 | the index of the first occurrence of the delimiter, or the length when there is none |
| Text.IndexOfAfter | warzone/src/Map.cpp:475 | the first delimiter in p + [c] + rest is the one right after p when p has none |
| Text.Split | warzone/src/GameEngine.cpp:359-366 | no piece holds the delimiter, and only empty text gives no pieces |
| Text.SplitJoin | warzone/src/GameEngine.cpp:359-366 | joining the pieces with the delimiter gives the text back when it does not end in a delimiter |
| Text.JoinSplit | warzone/src/GameEngine.cpp:359-366 | splitting joined pieces gives them back when none holds the delimiter and the last is not empty |
| Text.LeadingDigits | warzone/src/Map.cpp:551 | the length of the leading run of decimal digits |
| Text.ReadInt | warzone/src/Map.cpp:551 | a successful read gives a 32-bit value and consumes at least one character of the text, stopping before any further digit |
| Text.ReadChar | warzone/src/Map.cpp:500 | a successful read gives a non-space character and consumes it; it fails exactly on all-whitespace text |
| Text.Stoi | warzone/src/GameEngine.cpp:421 | a value, when there is one, fits 32 bits |
| Text.DecimalValueOfDigits | warzone/src/GameEngine.cpp:421 | reading a written-out natural number gives it back |
| Text.DecimalString | warzone/src/Map.cpp:551 | a decimal numeral is a non-empty run of digits |
| Text.ReadIntOfDecimal | warzone/src/Map.cpp:551 | `stream >> n` reads back a natural number written in decimal and followed by no digit |
| Text.ReadCharAt | warzone/src/Map.cpp:500 | `stream >> c` takes the next character when it is not whitespace |
| MapLoader.GetUntil | warzone/src/Map.cpp:473-487 | success gives a non-empty piece without the delimiter and the rest after it; it fails exactly when the delimiter is missing or comes first, with the source's two messages |
| MapLoader.GetRest | warzone/src/Map.cpp:489-496 | the rest of the line, failing exactly when it is empty |
| MapLoader.ExpectCharacter | warzone/src/Map.cpp:498-509 | success skips whitespace and exactly the expected character; all-whitespace text fails with "found end of line" |
| MapLoader.ContinentLine | warzone/src/Map.cpp:548-557 | a parsed continent has no members, a non-empty name without '=' taken from the line's start, and a 32-bit bonus |
| MapLoader.TerritoryLine | warzone/src/Map.cpp:562-582 | a parsed territory has a non-empty name and continent without commas and a non-empty list of comma-free adjacency names |
| MapLoader.AddEntry | warzone/src/Map.cpp:583-594 | the territory is added with no armies, no owner and no adjacency, and then added to its continent |
| MapLoader.Header | warzone/src/Map.cpp:456-468 | a recognised header always names a section |
| MapLoader.Value | warzone/src/Map.cpp:511-599 | a value line outside any section fails with "Values started without a section"; a successful line keeps the draft well shaped |
| MapLoader.RunWith | warzone/src/Map.cpp:444-600 | a failure is reported at the number of one of the lines read |
| MapLoader.RunWithKeepsShape | warzone/src/Map.cpp:444-600 | a successful run keeps the draft well shaped |
| MapLoader.Resolve | warzone/src/Map.cpp:601 | each territory's adjacency names resolved by associateTerritories |
| MapLoader.ParseText | warzone/src/Map.cpp:436-603 | a successful parse gives a well-shaped draft |
| MapLoader.RunSplit | warzone/src/Map.cpp:444-600 | parsing the lines is parsing a prefix and then resuming on the rest |
| MapLoader.FailsAtFirstBadLine | warzone/src/Map.cpp:440-442 | parsing stops at the first line that fails, with that line's number and message |
| MapLoader.UnknownSectionFails | warzone/src/Map.cpp:463-465 | an unknown bracketed header fails with "Unknown section" at its line |
| MapLoader.BlankLinesSkipped | warzone/src/Map.cpp:450-453 | blank lines change neither the section nor the draft |
| MapLoader.ValueBeforeSectionFails | warzone/src/Map.cpp:597-598 | a value line before any header fails with "Values started without a section" |
| MapLoader.ContinentLineRoundTrip | warzone/src/Map.cpp:548-557 | `name=armies` parses back to that continent |
| MapLoader.ContinentLineNeedsArmies | warzone/src/Map.cpp:551-553 | a continent line without a number fails with "Expected number of armies after `=`" |
| MapLoader.ContinentLineNeedsEnd | warzone/src/Map.cpp:554-556 | anything after the number fails with "Expected end of line after number of armies" |
| MapLoader.GetUntilPiece | warzone/src/Map.cpp:473-487 | a non-empty piece followed by the delimiter is read back with the rest |
| MapLoader.TerritoryLineRoundTrip | warzone/src/Map.cpp:562-582 | a territory line written out from its fields parses back to them |
| MapLoader.TerritoryLineNeedsAdjacency | warzone/src/Map.cpp:580-582 | a territory line with nothing after the continent fails with "Expected list of adjacent territories" |
| MapLoader.TerritoryFields | warzone/src/Map.cpp:562-582 | after the four fields, the adjacency is the comma split of the rest, and an empty split fails |
| MapLoader.ValidMapHasNoUnknownNames | warzone/src/Map.cpp:314-377 | a parsed map that passes validate names only territories it has in every adjacency list |
| MapLoader.Loader.constructor | warzone/src/Map.cpp:424-426 | a new loader is in no section |
| MapLoader.Loader.Parse | warzone/src/Map.cpp:436-603 | the loader ends in ParseText's section; a failure carries ParseText's line and message, a success is a new map of the resolved territories and the continents |
| MapLoader.Loader.ReadLine | warzone/src/Map.cpp:444-599 | one line applied to the map is Step of that line: its error, or the new section and draft |
| MapLoader.Step | warzone/src/Map.cpp:447-599 | a line is trimmed, then blank, header or value; a successful line keeps the draft well shaped |
| MapLoader.LineEffect | warzone/src/Map.cpp:447-599 | a line that is accepted keeps a well-shaped draft well shaped |
| Commands.Spelling | warzone/src/CommandProcessing.cpp:111-121 | every keyword is spelled as a non-empty word without white space |
| Commands.KeywordOf | warzone/src/CommandProcessing.cpp:110-121 | a recognised word is exactly the spelling of the keyword it yields |
| Commands.KeywordOfSpelling | warzone/src/CommandProcessing.cpp:110-121 | the spelling of every keyword is recognised as that keyword |
| Commands.WordLength | warzone/src/CommandProcessing.cpp:104-106 | the first word is the longest prefix without white space and ends at white space or at the end of the line |
| Commands.ParseCommand | warzone/src/CommandProcessing.cpp:102-133 | an error is one of "No command received", "Command requires an argument", "Unknown command"; a parsed command has no effect yet, an argument exactly when its keyword takes one, and that argument is non-empty, trimmed and on one line |
| Commands.TrimEnds | warzone/src/CommandProcessing.cpp:103 | trimming leaves no white space at either end and adds no character |
| Commands.TrimEmptyIffBlank | warzone/src/CommandProcessing.cpp:103 | a line trims to nothing exactly when it is all white space |
| Commands.ParseBlank | warzone/src/CommandProcessing.cpp:103-108 | "No command received" is raised exactly for an all-blank line |
| Commands.ParseBare | warzone/src/CommandProcessing.cpp:111-117 | validatemap, gamestart, replay and quit parse to a command without argument, whatever white space follows |
| Commands.ParseMissingArgument | warzone/src/CommandProcessing.cpp:118-128 | loadmap, addplayer and tournament followed only by white space raise "Command requires an argument" |
| Commands.ParseWithArgument | warzone/src/CommandProcessing.cpp:118-131 | loadmap, addplayer and tournament followed by a trimmed one-line argument parse to that command with that argument |
| Commands.ParseUnknown | warzone/src/CommandProcessing.cpp:110-132 | a first word that is not a keyword raises "Unknown command" |
| Commands.LegalStates | warzone/src/CommandProcessing.cpp:156-164 | every command is legal in at least one state |
| Commands.NothingLegalDuringPlay | warzone/src/CommandProcessing.cpp:156-164 | no command is legal while reinforcing, issuing or executing orders or running a tournament |
| Commands.OnlyReplayOrQuitAfterWin | warzone/src/CommandProcessing.cpp:156-164 | after a win exactly replay and quit are legal |
| Commands.Effect | warzone/src/CommandProcessing.cpp:169-177 | a legal command's effect starts with "Command valid: ", an illegal one's is "Command is invalid in the current state" |
| Commands.CommandProcessor.constructor | warzone/src/CommandProcessing.h:50 | a new processor holds no commands |
| Commands.CommandProcessor.SaveCommand | warzone/src/CommandProcessing.cpp:147-150 | the command is appended to the history |
| Commands.CommandProcessor.GetCommand | warzone/src/CommandProcessing.cpp:97-145 | the result is the parse of the line; a parsed command is appended, a parse error leaves the history unchanged |
| Commands.CommandProcessor.Validate | warzone/src/CommandProcessing.cpp:152-179 | the answer is whether the state is legal for the last command; only that command changes, gaining the matching effect |
| Engine.Reinforcements | warzone/src/GameEngine.cpp:205-211 | a player receives a third of their territories (rounded down) plus their continent rewards, and never fewer than 3 |
| Engine.ReinforcementsGrow | warzone/src/GameEngine.cpp:205-211 | owning more territories never lowers the reinforcements |
| Engine.FullListOwnsAll | warzone/src/GameEngine.cpp:271-281 | a player's list is as long as the map exactly when they own every territory, so gameEnded's count test means conquest of the map |
| Engine.Surviving | warzone/src/GameEngine.cpp:283-292 | removeDefeatedPlayers keeps a sub-list of the players, all still on the roster |
| Engine.SurvivingMembers | warzone/src/GameEngine.cpp:283-292 | a player survives exactly when they were in the list and still own a territory |
| Engine.SurvivingAppend | warzone/src/GameEngine.cpp:283-292 | the removal is stable: survivors keep their relative order |
| Engine.SurvivingAutomated | warzone/src/GameEngine.cpp:283-292 | removing players never brings a Human strategy into a list of computer players |
| Engine.SurvivingNoDup | warzone/src/GameEngine.cpp:283-292 | a list without repeats stays without repeats |
| Engine.AfterCommand | warzone/src/GameEngine.cpp:144-163 | validatemap reaches MapValidated exactly when the map is valid; tournament, replay and quit leave the state alone |
| Engine.AfterCommandAsWritten | warzone/src/GameEngine.cpp:149-155 | as written, validatemap always ends in MapValidated |
| Engine.InvalidMapStartsAsWritten | warzone/src/GameEngine.cpp:144-163 | as written, loadmap then a failed validatemap still lets addplayer and gamestart through |
| Engine.KeywordsLegalIn | warzone/src/CommandProcessing.cpp:156-164 | a keyword is legal in a state exactly when the validation table lists that state for it |
| Engine.AfterCommandVouched | warzone/src/GameEngine.cpp:144-163 | with the corrected transition, no legal command reaches MapValidated or later on a map that validate rejected |
| Engine.AfterCommandAsWrittenNotVouched | warzone/src/GameEngine.cpp:149-155 | as written, a rejected map is in MapValidated after validatemap |
| Engine.DealOne | warzone/src/GameEngine.cpp:119-120 | one draw consumes one random value when the deck holds a card; an empty deck gives no card, otherwise the card given plus the cards left are the old deck |
| Engine.DealConserves | warzone/src/GameEngine.cpp:116-122 | dealing loses and creates no card: cards dealt plus cards left are the old deck |
| Engine.DealCount | warzone/src/GameEngine.cpp:116-122 | n draws deal n cards, or all of the deck when it holds fewer |
| Engine.DropDeploysSplits | warzone/src/GameEngine.cpp:242-254 | what the intended deploy pass leaves of a queue is the suffix after its leading Deploy orders, with no Deploy at its head |
| Engine.IntendedDeployRoundQueues | warzone/src/GameEngine.cpp:245-252 | an intended deploy round pops a queue's head exactly when it is a Deploy and leaves every other queue alone |
| Engine.IntendedDeployRoundCounts | warzone/src/GameEngine.cpp:245-252 | an intended deploy round executes only Deploys and loses no order |
| Engine.IntendedDeployRoundFinds | warzone/src/GameEngine.cpp:243-254 | an intended round finds a Deploy exactly when some queue has one at its head, so the loop stops when none does |
| Engine.IntendedDeployPassLeavesRest | warzone/src/GameEngine.cpp:242-254 | the intended deploy pass leaves each queue exactly DropDeploys of it, executes only Deploys, and drops nothing |
| Engine.IntendedDeployPassKeepsAdvance | warzone/src/GameEngine.cpp:242-254 | on the queue Deploy then Advance, the intended pass leaves the Advance queued for the second pass |
| Engine.DeployRoundAsWritten | warzone/src/GameEngine.cpp:245-253 | one deploy round pops one order per player and leaves one queue per player |
| Engine.DeployRoundShrinks | warzone/src/GameEngine.cpp:243-254 | a round never adds orders and removes one when it found a Deploy, so the deploy loop ends |
| Engine.DeployRoundSorts | warzone/src/GameEngine.cpp:245-253 | orders executed by a deploy round are Deploy orders; orders it popped and dropped are not |
| Engine.DeployRoundConserves | warzone/src/GameEngine.cpp:245-253 | executed, dropped and remaining orders together are the queued orders |
| Engine.DeployPassSorts | warzone/src/GameEngine.cpp:243-254 | across the whole deploy loop only Deploy orders execute, the others popped are dropped, and no order is created or lost from the count |
| Engine.DeployPassDropsAdvance | warzone/src/GameEngine.cpp:243-254 | a queue Deploy then Advance has the Advance popped by the deploy loop and never executed |
| Engine.RoundCounts | warzone/src/GameEngine.cpp:259-267 | a round executes one order per non-empty queue, and found one exactly when it executed something |
| Engine.RoundFindsNothing | warzone/src/GameEngine.cpp:259-267 | a round finds no order exactly when every queue is empty |
| Engine.RoundIdleLeaves | warzone/src/GameEngine.cpp:259-267 | a round that finds nothing leaves the queues as they were |
| Engine.RoundConserves | warzone/src/GameEngine.cpp:259-267 | orders executed plus orders left are the orders queued |
| Engine.PassExecutesAll | warzone/src/GameEngine.cpp:256-268 | the second loop executes exactly the queued orders, each once |
| Engine.Swap | warzone/src/GameEngine.cpp:99-101 | the entries at i and j trade places and no other entry moves |
| Engine.SwapPermutes | warzone/src/GameEngine.cpp:99-101 | a swap keeps the same players |
| Engine.ShufflePermutes | warzone/src/GameEngine.cpp:99-101 | the shuffled player list is a permutation of the old one |
| Engine.Winner | warzone/src/GameEngine.cpp:192-202 | there is a winner exactly when one player is left, and it is that player |
| Engine.WinnerAsWritten | warzone/src/GameEngine.cpp:192-202 | as written, an empty list is read past its end |
| Engine.NoneSurvive | warzone/src/GameEngine.cpp:283-292 | when no listed player owns a territory, all of them are removed |
| Engine.EmptyListReadAsWritten | warzone/src/GameEngine.cpp:175-202 | when every player has lost every territory the list becomes empty, the loop stops, and the result as written reads past the end, where the corrected Winner reports none |
| GameEngine.Game.constructor | warzone/src/GameEngine.cpp:22-29 | a new game is in Start with an empty map, no players and a fresh deck of five cards |
| GameEngine.Game.Transition | warzone/src/GameEngine.cpp:65-68 | only the state changes |
| GameEngine.Game.DrawCard | warzone/src/GameEngine.cpp:119 | the card and the deck left are DealOne of the old deck |
| GameEngine.Game.AwardPools | warzone/src/GameEngine.cpp:104-107 | every listed player gets 50 armies in the pool, nobody else changes |
| GameEngine.Game.DealTerritories | warzone/src/GameEngine.cpp:110-114 | territory i goes to player i mod the number of players, and the players' lists agree with the owners |
| GameEngine.Game.DrawTwo | warzone/src/GameEngine.cpp:118-121 | two draws from the deck go on top of the player's hand, the null ones left out |
| GameEngine.Game.DealCards | warzone/src/GameEngine.cpp:116-122 | the k-th player in order receives draws 2k and 2k+1 of Deal over the old deck; players not listed keep their hands |
| GameEngine.Game.Gamestart | warzone/src/GameEngine.cpp:98-125 | the players are shuffled (a permutation), each gets 50 armies, territories are dealt round-robin, two cards each are dealt in turn order |
| GameEngine.Game.Setup | warzone/src/GameEngine.cpp:98-114 | the shuffle, the pools and the territories of gamestart, hands untouched |
| GameEngine.Game.ShufflePlayers | warzone/src/GameEngine.cpp:99-101 | the list becomes Shuffle of the old one, a permutation |
| GameEngine.Game.ClearFriends | warzone/src/GameEngine.cpp:178-180 | every listed player's friends are cleared and nobody else's |
| GameEngine.Game.ReinforcementPhase | warzone/src/GameEngine.cpp:213-224 | every listed player's pool grows by Reinforcements of their territories and continent rewards |
| GameEngine.Game.RemoveDefeatedPlayers | warzone/src/GameEngine.cpp:283-292 | the list becomes Surviving of the old one |
| GameEngine.Game.GameEnded | warzone/src/GameEngine.cpp:271-281 | the answer is Ended: at most one player, or one player's list as long as the map |
| GameEngine.Game.StartupPhase | warzone/src/GameEngine.cpp:127-169 | the loop ends in FirstReinforcements exactly when gamestart ran, and then the map is valid (by the corrected validatemap transition of Engine.AfterCommand), every player listed, and all human |
| GameEngine.Game.ReadLine | warzone/src/GameEngine.cpp:128-168 | a line that fails to parse or validate changes nothing but the command history; a started game is well formed |
| GameEngine.Game.RunCommand | warzone/src/GameEngine.cpp:140-166 | a legal command runs its action and transition, validatemap taking the corrected one (back to Start on a rejected map); only gamestart reaches FirstReinforcements |
| GameEngine.Game.LoadMap | warzone/src/GameEngine.cpp:144-148 | the state becomes MapLoaded with the parsed territories exactly when the file parses; otherwise the parse error is reported |
| GameEngine.Game.AddPlayer | warzone/src/GameEngine.cpp:156-160 | a fresh player with that name is appended and the state becomes PlayersAdded |
| GameEngine.Game.StartGame | warzone/src/GameEngine.cpp:161-166 | after gamestart the state is FirstReinforcements, the map valid (which holds by the corrected validatemap transition) and every player listed |
| GameEngine.Game.MainGameLoop | warzone/src/GameEngine.cpp:175-203 | the loop runs at most the given turns, stops early only when the game has ended, keeps only players it had, and reports Winner of the list |
| GameEngine.Game.PlayRound | warzone/src/GameEngine.cpp:178-189 | a turn ends in ExecuteOrders with every listed queue empty and no player added |
| GameEngine.Game.OrdersPhases | warzone/src/GameEngine.cpp:184-188 | reinforcement, issuing and execution leave every listed queue empty |
| GameEngine.Game.Prepare | warzone/src/GameEngine.cpp:178-183 | friends cleared and the defeated removed, keeping only listed players |
| GameEngine.Game.RunOrder | warzone/src/GameEngine.cpp:234 | executing an order reports whether it was valid, applies exactly its `Outcome` to the map when it was and leaves the map unchanged otherwise; a valid deploy pays from the pool and a valid negotiation makes both players friends; an attacking advance uses the battle's dice and may win a card as CardOfBattle states, and no other order touches deck, dice or hands; no other pool or friends list changes; the world stays consistent and no queue or strategy changes |
| GameEngine.Game.Drain | warzone/src/GameEngine.cpp:232-235 | the player's queue is executed to empty; other queues and all strategies are unchanged |
| GameEngine.Game.IssueOrdersPhase | warzone/src/GameEngine.cpp:226-237 | every listed player issues and then executes their orders, ending with all queues empty; a strategy only ever turns Aggressive |
| GameEngine.Game.IssueAndExecute | warzone/src/GameEngine.cpp:229-235 | the i-th player's queue ends empty and no other queue changes |
| GameEngine.Game.Issue | warzone/src/GameEngine.cpp:230 | issuing changes only the issuing player's queue |
| GameEngine.Game.DeployRound | warzone/src/GameEngine.cpp:245-253 | executed orders, dropped orders, the queues left and the flag are DeployRoundAsWritten of the old queues |
| GameEngine.Game.DeployPass | warzone/src/GameEngine.cpp:243-254 | the whole deploy loop is DeployPassAsWritten of the old queues |
| GameEngine.Game.Round | warzone/src/GameEngine.cpp:259-267 | one round is RoundAsWritten of the old queues |
| GameEngine.Game.Pass | warzone/src/GameEngine.cpp:257-268 | the second loop executes PassAsWritten of the old queues and empties every queue |
| GameEngine.Game.ExecuteOrdersPhase | warzone/src/GameEngine.cpp:239-269 | every listed queue ends empty and no strategy changes |
| GameEngine.Game.Turn | warzone/src/GameEngine.cpp:247-252 | the head of the i-th queue is popped, and executed exactly when it exists and, in the deploy loop, is a Deploy |
| GameEngine.Game.Pop | warzone/src/GameEngine.cpp:247 | an empty queue gives nothing; otherwise its head comes out and only that queue changes |
| Priorities.EnemyCount | warzone/src/PlayerStrategies.cpp:453-460 | the count of enemy neighbours never exceeds the adjacency list |
| Priorities.CountEnemies | warzone/src/PlayerStrategies.cpp:454-460 | the loop counts the neighbours owned by another player who is not a friend |
| Priorities.InsertSorts | warzone/src/PlayerStrategies.cpp:467-469 | inserting into a sorted ranking keeps it sorted and adds exactly the new entry |
| Priorities.SortByKeySorts | warzone/src/PlayerStrategies.cpp:467-469 | the sort's result is sorted by score and a permutation of its input |
| Priorities.InsertKeys | warzone/src/PlayerStrategies.cpp:467-475 | inserting adds exactly one territory to the ranking's territories |
| Priorities.SortKeepsTerritories | warzone/src/PlayerStrategies.cpp:467-475 | sorting keeps the same territories |
| Priorities.SortedByScore | warzone/src/PlayerStrategies.cpp:467-475 | after the sort the territories come in non-decreasing order of their scores |
| Priorities.DefenceRankingScores | warzone/src/PlayerStrategies.cpp:453-463 | the ranking lists the owned territories in order, each scored by its enemy neighbours |
| Priorities.DefendOrderPermutesOwned | warzone/src/PlayerStrategies.cpp:449-478 | toDefend is a permutation of the owned territories |
| Priorities.DefendOrderByThreat | warzone/src/PlayerStrategies.cpp:449-478 | toDefend lists the least threatened territory first, in non-decreasing order of enemy neighbours |
| Priorities.ToDefend | warzone/src/PlayerStrategies.cpp:449-478 | the loops compute DefendOrder of the player's territories |
| Priorities.EnemyNeighboursAreEnemies | warzone/src/PlayerStrategies.cpp:485-490 | each entry collected from an adjacency list is an enemy territory of that list, scored by its armies |
| Priorities.AttackRankingAreEnemies | warzone/src/PlayerStrategies.cpp:484-491 | each territory collected is an enemy territory next to one the player owns |
| Priorities.AttackOrderIsWeakestFirst | warzone/src/PlayerStrategies.cpp:480-499 | toAttack holds only enemy territories next to owned ones, in non-decreasing order of armies, and is a permutation of the territories the scan collected |
| Priorities.EnemyNeighboursCount | warzone/src/PlayerStrategies.cpp:485-490 | the scan of one adjacency list keeps each enemy entry exactly as often as it occurs there and no other territory |
| Priorities.AttackRankingCount | warzone/src/PlayerStrategies.cpp:484-491 | the collected list holds each enemy once per owned territory whose adjacency list names it |
| Priorities.MentionsPositive | warzone/src/PlayerStrategies.cpp:484-486 | a territory in the adjacency list of an owned territory is counted at least once |
| Priorities.AttackOrderIsComplete | warzone/src/PlayerStrategies.cpp:480-499 | toAttack misses no enemy: every enemy next to an owned territory is in it, as often as owned territories name it, and no other territory is |
| Priorities.ScanNeighbours | warzone/src/PlayerStrategies.cpp:486-490 | the loop collects EnemyNeighbours of the adjacency list |
| Priorities.ToAttack | warzone/src/PlayerStrategies.cpp:480-499 | the loops compute AttackOrder of the player's territories |
| Priorities.InsertUnique | warzone/src/PlayerStrategies.cpp:191 | std::set insertion keeps the list ascending and adds exactly the new element |
| Priorities.AddNotOwned | warzone/src/PlayerStrategies.cpp:189-193 | one adjacency list adds exactly its entries the player does not own |
| Priorities.AdjacentEnemies | warzone/src/PlayerStrategies.cpp:186-199 | the result is ascending, without repeats, and holds exactly the neighbours of owned territories the player does not own |
| Priorities.CollectNotOwned | warzone/src/PlayerStrategies.cpp:189-193 | the loop computes AddNotOwned |
| Priorities.ToAdjacentEnemies | warzone/src/PlayerStrategies.cpp:186-199 | the loops compute AdjacentEnemies |
| Priorities.SourcesOfAreOwnedNeighbours | warzone/src/PlayerStrategies.cpp:325-332 | the sources are exactly the owned territories in the target's adjacency list |
| Priorities.FindSources | warzone/src/PlayerStrategies.cpp:325-332 | the loop computes SourcesOf |
| Strategies.Deploys | warzone/src/PlayerStrategies.cpp:309-319 | one Deploy per toDefend territory, each drawing one random value |
| Strategies.DeploysEach | warzone/src/PlayerStrategies.cpp:309-319 | the i-th Deploy is the player's, targets the i-th territory and names between 1 and the pool |
| Strategies.DeploysToOwned | warzone/src/PlayerStrategies.cpp:309-319 | deploying along a permutation of the owned territories deploys only to owned territories, one order each |
| Strategies.Advances | warzone/src/PlayerStrategies.cpp:321-349 | at most one Advance per target, and the random draws only move forward |
| Strategies.AttackStep | warzone/src/PlayerStrategies.cpp:325-348 | one target gives at most one Advance |
| Strategies.AdvancesFromOwnedNeighbours | warzone/src/PlayerStrategies.cpp:321-349 | every Advance is the player's, with a deck, from an owned territory in the target's adjacency list, to a chosen target, with 1 to pool armies |
| Strategies.OneWayMapIsValid | warzone/src/Map.cpp:332-377 | a one-way cycle of three territories passes validate |
| Strategies.OneWayMapLeavesAttackWithoutSource | warzone/src/PlayerStrategies.cpp:325-334 | on that map the aggressive player has a target with no source, where the source reads adjacent[0] of an empty vector |
| Strategies.ForeignCount | warzone/src/PlayerStrategies.cpp:410-414 | the count of neighbours the player does not own never exceeds the adjacency list |
| Strategies.MostExposed | warzone/src/PlayerStrategies.cpp:405-419 | when no candidate beats 0 the initial target is kept |
| Strategies.MostExposedIsMost | warzone/src/PlayerStrategies.cpp:405-419 | the target chosen has the most neighbours not owned by the player among the candidates, the skipped source excluded; ties keep the first |
| Strategies.AirliftPlay | warzone/src/PlayerStrategies.cpp:395-423 | an Airlift card gives at most one order and no bonus |
| Strategies.BombPlay | warzone/src/PlayerStrategies.cpp:359-369 | a Bomb card gives at most one order and no bonus |
| Strategies.BlockadePlay | warzone/src/PlayerStrategies.cpp:374-394 | a Blockade card gives at most one order and no bonus |
| Strategies.DiplomacyPlay | warzone/src/PlayerStrategies.cpp:424-441 | a Diplomacy card gives at most one order and no bonus |
| Strategies.AttackOrderNeedsTerritory | warzone/src/PlayerStrategies.cpp:480-499 | a player without territories has nothing to attack |
| Strategies.AggressivePlayOrders | warzone/src/PlayerStrategies.cpp:357-442 | a played card gives at most one card order, issued by the player |
| Strategies.BenevolentPlayOrders | warzone/src/PlayerStrategies.cpp:518-578 | the benevolent player's card gives at most an Airlift or a Negotiate; Bomb and Blockade give nothing |
| Strategies.CardStepOrders | warzone/src/PlayerStrategies.cpp:351-446 | the card step issues only card orders of the player, and for the benevolent player only Airlift or Negotiate |
| Strategies.AggressiveTurnUnfolds | warzone/src/PlayerStrategies.cpp:307-447 | an aggressive turn is its deploys, then its advances, then the card step, each drawing after the last |
| Strategies.BenevolentTurnUnfolds | warzone/src/PlayerStrategies.cpp:501-583 | a benevolent turn is its deploys, then the card step |
| Strategies.JoinTurn | warzone/src/PlayerStrategies.cpp:307-447 | deploys to owned territories, advances from owned neighbours and a card order make a well-formed turn |
| Strategies.AggressiveTurnShape | warzone/src/PlayerStrategies.cpp:307-447 | an aggressive turn deploys only to owned territories, advances only from owned neighbours to targets of toAttack, and adds at most one card order |
| Strategies.BenevolentTurnShape | warzone/src/PlayerStrategies.cpp:501-583 | a benevolent turn deploys only to owned territories, never advances, and adds at most one Airlift or Negotiate |
| Strategies.EmptyPoolStallsTurn | warzone/src/PlayerStrategies.cpp:309-311 | with territories and an empty pool, both turns return at once: no order, no draw, the hand kept |
| Strategies.CardStepKeepsHand | warzone/src/PlayerStrategies.cpp:351-446 | an empty hand changes nothing; otherwise the top card is either put back or used, and any order or bonus means it was used |
| Strategies.AirliftFromFirst | warzone/src/PlayerStrategies.cpp:395-423 | with two or more territories the Airlift goes from the first to another territory with the most neighbours not owned, leaving one army behind |
| Strategies.AirliftMovesToMostExposed | warzone/src/PlayerStrategies.cpp:395-423 | the Airlift leaves from the least threatened owned territory to the most exposed other owned territory with all armies but one |
| Strategies.BombTargetsStrongest | warzone/src/PlayerStrategies.cpp:359-369 | the Bomb targets the enemy neighbour with the most armies |
| Strategies.Rival | warzone/src/PlayerStrategies.cpp:426-437 | a rival found is a player on the roster |
| Strategies.RivalIsLargest | warzone/src/PlayerStrategies.cpp:426-437 | there is no rival exactly when no other non-friend is listed; otherwise it is one with the most territories |
| Strategies.Fortified | warzone/src/PlayerStrategies.cpp:640-642 | the map keeps its size |
| Strategies.FortifiedSetsArmies | warzone/src/PlayerStrategies.cpp:640-642 | every owned territory gets 9999999 armies and nothing else changes |
| Strategies.AdvancesTo | warzone/src/PlayerStrategies.cpp:645-651 | one Advance per source |
| Strategies.AdvancesToEach | warzone/src/PlayerStrategies.cpp:645-651 | the i-th order advances 999 armies without a deck from the i-th source to the target |
| Strategies.CheaterAdvancesFromOwned | warzone/src/PlayerStrategies.cpp:644-652 | every cheater order is an Advance of 999 from an owned territory in the target's adjacency list to one of the targets |
| Strategies.CheaterAttacksEveryNeighbour | warzone/src/PlayerStrategies.cpp:644-652 | every pair of target and owned territory in its adjacency list gets an Advance |
| Strategies.CheaterAdvancesInclude | warzone/src/PlayerStrategies.cpp:644-652 | the j-th target gets an Advance from each owned territory in its adjacency list |
| Strategies.StrategiesDefendOwnAttackForeign | warzone/src/PlayerStrategies.cpp:449-661 | for every computer strategy toDefend lists owned territories only and toAttack only territories of others next to owned ones |
| Strategies.QueueDeploys | warzone/src/PlayerStrategies.cpp:309-319 | with territories and an empty pool the loop stops at once; otherwise the queue gains Deploys of the targets |
| Strategies.QueueAdvances | warzone/src/PlayerStrategies.cpp:321-349 | the queue gains Advances of the targets |
| Strategies.QueueAttack | warzone/src/PlayerStrategies.cpp:325-348 | the queue gains the AttackStep of one target |
| Strategies.CountForeign | warzone/src/PlayerStrategies.cpp:410-414 | the loop computes ForeignCount |
| Strategies.FindMostExposed | warzone/src/PlayerStrategies.cpp:405-419 | the loop computes MostExposed |
| Strategies.FindRival | warzone/src/PlayerStrategies.cpp:426-437 | the loop computes Rival |
| Strategies.PlayCard | warzone/src/PlayerStrategies.cpp:351-446 | the hand, pool, queue and draws after the card step are CardStep of the old ones |
| Strategies.PlayDrawn | warzone/src/PlayerStrategies.cpp:357-442 | a played card adds the play's orders and bonus |
| Strategies.PlayBomb | warzone/src/PlayerStrategies.cpp:359-369 | the queue gains BombPlay's order |
| Strategies.PlayBlockade | warzone/src/PlayerStrategies.cpp:374-394 | the queue gains BlockadePlay's order |
| Strategies.PlayAirlift | warzone/src/PlayerStrategies.cpp:395-423 | the queue gains AirliftPlay's order |
| Strategies.PlayDiplomacy | warzone/src/PlayerStrategies.cpp:424-441 | the queue gains DiplomacyPlay's order |
| Strategies.IssueAggressive | warzone/src/PlayerStrategies.cpp:307-447 | the new queue, pool, hand and draws are AggressiveTurn of the old ones |
| Strategies.AttackThenPlay | warzone/src/PlayerStrategies.cpp:321-446 | the advances, then the card step |
| Strategies.IssueBenevolent | warzone/src/PlayerStrategies.cpp:501-583 | the new queue, pool, hand and draws are BenevolentTurn of the old ones |
| Strategies.IssueNeutral | warzone/src/PlayerStrategies.cpp:616-625 | with a pool of exactly 50 nothing changes; otherwise the player turns Aggressive and takes an aggressive turn |
| Strategies.Fortify | warzone/src/PlayerStrategies.cpp:640-642 | the map becomes Fortified of the old one |
| Strategies.QueueCheaterAdvances | warzone/src/PlayerStrategies.cpp:645-651 | the queue gains AdvancesTo from the target's owned neighbours |
| Strategies.QueueCheaterAttacks | warzone/src/PlayerStrategies.cpp:644-652 | the queue gains CheaterAdvances of the targets |
| Strategies.IssueCheater | warzone/src/PlayerStrategies.cpp:639-653 | the owned territories are fortified and the queue gains an Advance to every adjacent territory of others |
| Strategies.IssueOrder | warzone/src/PlayerStrategies.cpp:307-653 | each computer strategy issues its own turn; only the cheater changes the map, and only armies; a neutral player with a pool of 50 issues nothing and keeps its pool, hand and strategy, while one with any other pool turns Aggressive and takes the aggressive turn at once |
| Indexer.Without | reuters-21578_indexer/indices.py:152 | deleting a key removes exactly that key, keeps the others in order and without repeats, and shortens the key order by one |
| Indexer.Index.constructor | reuters-21578_indexer/indices.py:21 | a new dictionary is empty |
| Indexer.Index.Put | reuters-21578_indexer/indices.py:24 | the term maps to the list; a new term goes at the end of the insertion order, an old one keeps its place |
| Indexer.Index.Append | reuters-21578_indexer/indices.py:26 | the id goes at the end of the term's postings; nothing else changes |
| Indexer.Index.Delete | reuters-21578_indexer/indices.py:152 | the term leaves both the mapping and the insertion order |
| Indexer.WordPairs | reuters-21578_indexer/indices.py:14-15 | one (word, id) pair per word of the article, in order |
| Indexer.PairsMembers | reuters-21578_indexer/indices.py:13-15 | (t, d) is collected exactly when some article with id d has the word t |
| Indexer.ColumnMembers | reuters-21578_indexer/indices.py:22-26 | an id is in a term's postings exactly when the pair was in the sorted list |
| Indexer.TermThenIdIsStrictTotal | reuters-21578_indexer/indices.py:20 | tuple order (term, then id) is a strict total order |
| Indexer.SortedColumnIncreases | reuters-21578_indexer/indices.py:20-26 | postings built from the sorted, de-duplicated pairs are strictly increasing |
| Indexer.ColumnsIndex | reuters-21578_indexer/indices.py:12-28 | postings that are the columns of the collected pairs form an inverted index of the articles |
| Indexer.TotalAfterPut | reuters-21578_indexer/indices.py:103-113 | replacing a term's list changes the postings total by the difference in length |
| Indexer.Record | reuters-21578_indexer/indices.py:22-26 | adding a pair keeps the table equal to the pairs read so far, term by term |
| Indexer.CollectPairs | reuters-21578_indexer/indices.py:12-15 | the loops collect every (word, id) pair in article order |
| Indexer.FirstOccurrences | reuters-21578_indexer/indices.py:16 | dict.fromkeys keeps each pair once and loses none |
| Indexer.RecordPair | reuters-21578_indexer/indices.py:22-26 | one pass of the loop turns the table of the first k pairs into the table of the first k + 1 |
| Indexer.Tabulate | reuters-21578_indexer/indices.py:21-26 | the table maps each term to its ids in the order of the list |
| Indexer.NaiveIndex | reuters-21578_indexer/indices.py:6-28 | the result is an inverted index of the articles, every postings list strictly increasing, with one posting per distinct pair |
| Indexer.SpimiIndex | reuters-21578_indexer/indices.py:30-44 | the result is an inverted index whose postings list every occurrence in reading order, one posting per word read |
| Indexer.IndexesAgree | reuters-21578_indexer/indices.py:6-44 | both methods index the same terms with the same ids |
| Indexer.SingleQueryFindsArticles | reuters-21578_indexer/indices.py:46-57 | the query finds a list exactly when some article has the word, and the list holds exactly those articles' ids |
| Indexer.Least | reuters-21578_indexer/indices.py:77 | the smallest id of a non-empty set |
| Indexer.SortedSet | reuters-21578_indexer/indices.py:77 | sorted() of a set lists exactly its elements in strictly increasing order |
| Indexer.AndQuery | reuters-21578_indexer/indices.py:59-77 | an empty query raises TypeError; a term missing from the index gives None; otherwise the ids in every term's postings, sorted |
| Indexer.CalculateSize | reuters-21578_indexer/indices.py:103-113 | the number of terms and the total length of the postings lists |
| Indexer.KeysCount | reuters-21578_indexer/indices.py:109 | len(index) is the number of keys in insertion order |
| Indexer.BeforeIsStrictTotal | reuters-21578_indexer/indices.py:93 | the descending tuple order of words.sort(reverse=True) is a strict total order |
| Indexer.SortedDistinct | reuters-21578_indexer/indices.py:93 | a list sorted strictly has no repeats |
| Indexer.LastIsLeast | reuters-21578_indexer/indices.py:91 | words[-1] holds the fewest postings of the sorted list |
| Indexer.ChosenAppend | reuters-21578_indexer/indices.py:89-90 | appending while the list is short keeps it the top terms seen |
| Indexer.ChosenReplace | reuters-21578_indexer/indices.py:91-92 | replacing the last tuple by a term with more postings keeps the list the top terms seen |
| Indexer.ChosenSkip | reuters-21578_indexer/indices.py:91 | a term with no more postings than the last tuple is rightly left out |
| Indexer.ChosenStep | reuters-21578_indexer/indices.py:87-93 | each pass of the loop, sort included, keeps the list the top terms seen |
| Indexer.ChosenAreTop | reuters-21578_indexer/indices.py:86-100 | at the end the terms are distinct index terms, by non-increasing postings, and no term left out has more postings than one chosen |
| Indexer.Stopwords | reuters-21578_indexer/indices.py:79-100 | a size of 0 or less on a non-empty index raises IndexError; otherwise min(size, terms) distinct terms with the most postings, most first |
| Ordering.BelowIrreflexive | reuters-21578_indexer/indices.py:20 | no string is below itself in Python's string order |
| Ordering.BelowTransitive | reuters-21578_indexer/indices.py:20 | Python's string order is transitive |
| Ordering.BelowTotal | reuters-21578_indexer/indices.py:20 | of two different strings one is below the other |
| Ordering.Insert | reuters-21578_indexer/indices.py:20 | inserting adds exactly the one element |
| Ordering.SortBy | reuters-21578_indexer/indices.py:20 | list.sort() is a permutation |
| Ordering.InsertSorted | reuters-21578_indexer/indices.py:20 | inserting into a sorted list keeps it sorted |
| Ordering.SortBySorts | reuters-21578_indexer/indices.py:20 | list.sort() with a strict total order sorts a list without repeats |
| Compression.NumberFree | reuters-21578_indexer/indices.py:150-152 | a key survives exactly when it holds no digit |
| Compression.RemoveStep | reuters-21578_indexer/indices.py:150-152 | after key j, the keys are the number-free keys up to j followed by the keys not yet looked at |
| Compression.RemoveKey | reuters-21578_indexer/indices.py:151-152 | a key with a digit is deleted, any other kept; no other postings change |
| Compression.RemoveNumbers | reuters-21578_indexer/indices.py:149-152 | the keys become the number-free ones in their old order, and every surviving term keeps its postings |
| Compression.Lower | reuters-21578_indexer/indices.py:159 | lower() maps every character and keeps the length |
| Compression.LowerOfLower | reuters-21578_indexer/indices.py:159-161 | lower() is idempotent, so a folded key is skipped when the loop reaches it |
| Compression.GatheredMembers | reuters-21578_indexer/indices.py:162-171 | after folding some keys, a lower-case term holds its own ids and those of every folded key mapping to it |
| Compression.FoldDone | reuters-21578_indexer/indices.py:157-173 | after the whole loop every key is lower-case, the keys are the lower-cased old keys, and each holds the union of the postings folded into it |
| Compression.FoldKey | reuters-21578_indexer/indices.py:159-173 | one key is folded as the loop body says, and the number of keys never grows |
| Compression.FoldCase | reuters-21578_indexer/indices.py:157-173 | every key lower-case, exactly the lower-cased old keys, each holding exactly the ids of the old keys that fold to it, increasing when they were, and no more keys than before |
| CChars.ToChar | filecypher/cypher.c:30-32 | storing an int into a signed char keeps it congruent modulo 256 |
| CChars.ToCharOfChar | filecypher/cypher.c:30-32 | a value already in char range is stored unchanged |
| CChars.ShiftBack | filecypher/cypher.c:30-32 | adding then subtracting the same amount in char arithmetic gives back the char, and the other way round |
| CChars.SameClass | filecypher/cypher.c:30-32 | ints congruent modulo 256 store as the same char |
| FileCipher.Hash | filecypher/cypher.c:5-8 | the hash is below the key length, and is (i + c) mod length when i + c does not wrap |
| FileCipher.Crypt | filecypher/cypher.c:27-33 | the buffer becomes the old buffer shifted up (state 0) or down (otherwise) byte by byte by the hashed key character |
| FileCipher.CryptRoundTrip | filecypher/cypher.c:27-33 | decrypting with the same key undoes encrypting, and encrypting undoes decrypting |
| FileCipher.CryptIsBytewise | filecypher/cypher.c:27-33 | each output byte depends only on the input byte at the same position, and the length is kept |
| FileCipher.Strcmp | filecypher/cypher.c:54 | strcmp answers 0 exactly for equal strings |
| FileCipher.Run | filecypher/cypher.c:48-63 | without exactly three arguments the program exits with 1 and the file is untouched; otherwise it encrypts when the mode argument is "0" and decrypts for anything else |
| TextCipher.DecodedUndoesShift | txtcypher/decypher.c:15 | the shift by key + i mod 3 is undone by the opposite shift, both ways |
| TextCipher.StopFrom | txtcypher/decypher.c:7-14 | the first newline or NUL at or after a position, or size when there is none |
| TextCipher.Decypher | txtcypher/decypher.c:4-20 | a buffer of size + 1; before the first newline or NUL every char is shifted back by key + i mod 3; a stop found writes newline then NUL; the rest is left as malloc gave it |
| Tournaments.LoadMaps | warzone/src/GameEngine.cpp:386-391 | the maps load exactly when every file parses and validates; a map that parses but fails validate gives "Invalid map loaded" |
| Tournaments.StrategyNamed | warzone/src/GameEngine.cpp:400-414 | a recognised name is exactly the name of the strategy it yields |
| Tournaments.StrategyName | warzone/src/GameEngine.cpp:402-411 | every strategy name is a non-empty word without spaces or commas |
| Tournaments.StrategyNamedName | warzone/src/GameEngine.cpp:400-414 | every strategy's name is recognised as that strategy |
| Tournaments.StrategiesNamed | warzone/src/GameEngine.cpp:399-417 | the names give their strategies one by one; the list fails exactly when some name is unknown, with "Invalid strategy " and that name |
| Tournaments.Number | warzone/src/GameEngine.cpp:421 | std::stoi gives a value exactly when the token starts with a number in int range, and throws "stoi" otherwise |
| Tournaments.PlayersToken | warzone/src/GameEngine.cpp:395-418 | an accepted player token names one to four strategies |
| Tournaments.NumbersTokens | warzone/src/GameEngine.cpp:420-432 | accepted numbers are 1 to 5 games and 10 to 50 turns |
| Tournaments.ParseTournament | warzone/src/GameEngine.cpp:368-435 | other than eight tokens gives "Invalid command argument"; an accepted setup has 1 to 5 maps that all parse and validate, 1 to 4 strategies, 1 to 5 games and 10 to 50 turns |
| Tournaments.SplitsBack | warzone/src/GameEngine.cpp:358-366 | splitString undoes joining pieces that avoid the delimiter |
| Tournaments.NumberOfDecimal | warzone/src/GameEngine.cpp:421 | stoi reads back the decimal spelling of a number in int range |
| Tournaments.ArgumentTokens | warzone/src/GameEngine.cpp:358-376 | the argument written for a setup splits into its eight tokens |
| Tournaments.PlayersTokenOf | warzone/src/GameEngine.cpp:395-418 | the comma-joined names of one to four strategies are read back as those strategies |
| Tournaments.NumbersTokensOf | warzone/src/GameEngine.cpp:420-432 | games and turns in range, written in decimal, are read back |
| Tournaments.ArgumentAccepted | warzone/src/GameEngine.cpp:368-435 | every acceptable setup, written as an argument, is accepted as exactly that setup |
| Tournaments.TokensAccepted | warzone/src/GameEngine.cpp:368-435 | eight tokens whose maps, players and numbers read as the setup give exactly that setup |
| Tournaments.StrategiesNamedBack | warzone/src/GameEngine.cpp:399-417 | the names of a list of strategies are read back as that list |

## Left out

- Human players and console input: `HumanPlayer` and the `readLine`/`readInt`/`readBool`/`readOption` helpers are not modelled. The engine's phases require that no listed player is Human. `CommandProcessor::readCommand` is not modelled either; `Commands.CommandProcessor.GetCommand` takes the line it would have read as a parameter.
- Logging: the observers, `notify`, every `operator<<`, `prettyPrint`, `stringToLog` and `ParsingException::inStream` are not modelled.
- Files and process exit: `Game::loadmap` and the tournament's map files are not modelled as file access. Map text comes in as a parameter mapping file names to contents. `executeTournament`, `exit(0)` and the `fopen`/`remove`/`fwrite` calls of cypher.c are not modelled.
- Memory: pointer ownership, `delete` and aliasing between copies are not modelled. Territories and players are referred to by index.
- Random engines: `std::random_device`, `mt19937`, `srand(time)` and `rand()` become a stream of naturals. `std::shuffle` becomes a Fisher–Yates shuffle driven by that stream, so the model proves it yields a permutation but does not reproduce the library's exact order.
- Sorting in the strategies: the model sorts stably by key, while `std::sort` may order equal keys either way. The model therefore proves the order by key and the permutation, not where equal keys end up.
- Strategies.AggressivePlay: a Blockade card with nothing to defend queues nothing. The source reads the first element of an empty vector there, which is undefined.
- Strategies.AttackWithoutSourceAsWritten: an attack target with no adjacent owned source is skipped. The source indexes an empty vector there, which is undefined.
- GameEngine.Game.RunOrder: an order naming a territory or player index that does not exist is skipped as invalid. In the source, orders hold pointers to existing territories and players, so this branch has no counterpart there. The model does not prove that every queued order names existing ones.
- Priorities.AdjacentEnemies: the source collects the neighbours in a `std::set<Territory*>`, so they come out in the order of their heap addresses, which the program does not fix. The model lists them in increasing territory index. The set of territories and its lack of repeats are the same, but the order of the Cheater's advances is stated only for index order.
- Board.Map.AddTerritoryToContinent: the source's test of `continents.front()` on an empty vector is undefined; the model simply finds no matching continent when there are none.
- Orders.OrdersList.Move: requires both indices to be in range, because the source's bounds test has an empty body and then swaps past the vector.
- Indexer: Porter stemming, the stopword-removal steps after the first two of `compressionSteps`, and every file read and write in indices.py are not modelled.
- Indexer: article ids are natural numbers throughout. indices.py keeps them as strings until `int()` converts them for sorting and for the postings, so the model agrees with it only when no two id strings of a collection read as the same integer (such as "7" and "07") and every id string is a decimal numeral.
- Indexer.NaiveIndex and Indexer.SpimiIndex: the order of the keys of the resulting dict is not stated. It is sorted term order for the naive index and first-appearance order for SPIMI. Only the terms, their postings and the order within each postings list are stated. `Stopwords` breaks ties between equally long postings by that key order. Its contract is stated for whatever table it is given, so the tie-breaking that follows from the two indexes' key orders is not stated.
- Compression: `str.lower` and the regex `\d` are modelled on ASCII only.
- Indexer and Ordering: Python's `sort` is modelled as insertion sort, and its result is stated only for lists without repeats (where it is unique).
- Compression.FoldCase: the order of the keys after case folding is not stated, only which keys remain and what they hold.
- FileCipher and TextCipher: `char` is taken as signed 8-bit and `size_t` as 64-bit.
- Army arithmetic: armies, pools and continent bonuses are C++ `int` but unbounded in the model. A Blockade's doubling (Orders.cpp:381) or the Cheater's 9999999 armies (PlayerStrategies.cpp:641) could in principle overflow 32 bits, which the model does not capture.
- FileCipher.Run: requires a non-empty key when the buffer is non-empty. With an empty key the source divides by zero.
- TextCipher.Decypher: requires `size` to be non-negative (it is a `nat`, where the C signature takes an `int`), `size + 1` and `key` to fit in an `int`, and `key` to keep `str[i] - key - i % 3` within `int` (`KeyFits`: from 128 - 2^31 to 2^31 - 130), because signed overflow there is undefined in C. The unspecified contents of the `malloc`ed buffer are a parameter.

## Findings

| source | as written | input that shows it | evidently intended | confidence | as-written member | corrected member |
|---|---|---|---|---|---|---|
| warzone/src/Player.cpp:128-141 | `addFriend` appends a player only when it is already a friend, so Negotiate never makes two players friends | two players with no friends negotiate; both friend lists stay empty | append the player when it is not yet a friend | high, not executed | Players.NegotiateAsWritten | Players.Player.AddFriend |
| warzone/src/GameEngine.cpp:149-155 | a `validatemap` that fails still moves the game to MapValidated, so players can be added and the game started on the rejected map | loadmap, then validatemap on an invalid map, then addplayer and gamestart are all accepted | return to Start when validation fails, as the message "Please load another map" asks | high, not executed | Engine.InvalidMapStartsAsWritten | Engine.AfterCommand |
| warzone/src/GameEngine.cpp:192-202 | `mainGameLoop` returns `players[0]` even when the list is empty | every listed player has lost its last territory (a Blockade hands territories to nobody), so removeDefeatedPlayers empties the list | return no winner when no player remains | high, not executed | Engine.EmptyListReadAsWritten | Engine.Winner |
| warzone/src/GameEngine.cpp:242-254 | the deploy loop of `executeOrdersPhase` pops the head of every queue and throws away any head that is not a Deploy, so that order never executes | one player whose queue is a Deploy then an Advance: the Advance is popped in the second round and dropped | pop only Deploy heads and leave other orders for the second loop | high, not executed | Engine.DeployPassDropsAdvance | Engine.IntendedDeployPassLeavesRest |
| warzone/src/Map.cpp:195-207 | the copy constructor copies territories without their adjacency, so a copied map never validates (the tournament plays on copies) | any map with at least one territory | copy the adjacency, re-pointed into the copy | high, not executed | Board.CopyNeverValid | Board.Map.Copy |
| warzone/src/Orders.cpp:244-247 | when both sides fall on an ownerless target, the target owner's name is read through a null pointer before the null check | a blockaded territory of 2 armies attacked by 2, every roll a 1 | test for a null owner before reading it | medium, not executed | OrderRules.StalemateOnNeutralCrashes | OrderRules.DropBoth |
| warzone/src/Orders.cpp:229-230 | a conquest draws a card from the order's deck, which is null in the Cheater's Advance orders | the Cheater's Advance of 999 armies onto an empty territory | give no card when the order has no deck | medium, not executed | OrderRules.CheaterConquestDrawsFromNullDeck | OrderRules.RewardCard |
