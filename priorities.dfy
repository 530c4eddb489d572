/**
 * The territory lists the strategies of PlayerStrategies.cpp compute:
 * toDefend and toAttack of the aggressive and benevolent players (sorted by
 * a score with std::sort), adjacentEnemyTerritories (a std::set) and the
 * list of owned territories an attack can start from. Each list is given by
 * a function, proved to be what the source promises, and computed by a
 * method with the source's loops.
 */
module Priorities {
  import opened Wrappers
  import opened Board
  import opened Players

  /** The owner behind an adjacency entry; an entry naming no territory has none. */
  function OwnerOf(ts: seq<Territory>, a: nat): Option<PlayerId> {
    if a < |ts| then ts[a].owner else None
  }

  /** The adjacency list of an owned-list entry. */
  function AdjacentOf(ts: seq<Territory>, t: nat): seq<nat> {
    if t < |ts| then ts[t].adjacent else []
  }

  // ----- scores -----

  /** The toDefend test: owned by another player, not null, and not a friend. */
  predicate Enemy(ts: seq<Territory>, p: PlayerId, friends: seq<PlayerId>, a: nat) {
    var o := OwnerOf(ts, a);
    o.Some? && o.value != p && o.value !in friends
  }

  /** How many entries of adj are enemies. */
  function EnemyCount(ts: seq<Territory>, p: PlayerId, friends: seq<PlayerId>, adj: seq<nat>): (n: nat)
    ensures n <= |adj|
  {
    if adj == [] then 0
    else EnemyCount(ts, p, friends, adj[..|adj| - 1]) + (if Enemy(ts, p, friends, adj[|adj| - 1]) then 1 else 0)
  }

  /** The inner loop of toDefend. */
  method CountEnemies(m: Map, player: Player, adj: seq<nat>) returns (n: nat)
    ensures n == EnemyCount(m.territories, player.id, player.friends, adj)
  {
    n := 0;
    var j := 0;
    while j < |adj|
      invariant 0 <= j <= |adj|
      invariant n == EnemyCount(m.territories, player.id, player.friends, adj[..j])
    {
      assert adj[..j + 1][..j] == adj[..j];
      var owner := if adj[j] < |m.territories| then m.territories[adj[j]].owner else None;
      if owner != Some(player.id) && owner.Some? && !player.IsFriendsWith(owner) {
        n := n + 1;
      }
      j := j + 1;
    }
    assert adj[..|adj|] == adj;
  }

  // ----- a stable sort by score -----

  /** A territory with the score it is sorted by. */
  datatype Ranked = Ranked(territory: nat, key: int)

  predicate SortedByKey(s: seq<Ranked>) {
    forall i, j :: 0 <= i < j < |s| ==> s[i].key <= s[j].key
  }

  /** The territories of a ranking, in its order. */
  function Keys(s: seq<Ranked>): (r: seq<nat>)
    ensures |r| == |s|
  {
    seq(|s|, i requires 0 <= i < |s| => s[i].territory)
  }

  /** x placed after every entry whose key is not greater. */
  function Insert(x: Ranked, s: seq<Ranked>): (r: seq<Ranked>)
    ensures |r| == |s| + 1
  {
    if s == [] || s[|s| - 1].key <= x.key then s + [x]
    else Insert(x, s[..|s| - 1]) + [s[|s| - 1]]
  }

  /** Inserting into a sorted ranking keeps it sorted and adds just x. */
  lemma {:induction false} InsertSorts(x: Ranked, s: seq<Ranked>)
    requires SortedByKey(s)
    ensures SortedByKey(Insert(x, s))
    ensures multiset(Insert(x, s)) == multiset(s) + multiset{x}
  {
    if s != [] && x.key < s[|s| - 1].key {
      var init := s[..|s| - 1];
      var last := s[|s| - 1];
      assert s == init + [last];
      InsertSorts(x, init);
      var rest := Insert(x, init);
      forall i | 0 <= i < |rest|
        ensures rest[i].key <= last.key
      {
        assert rest[i] in multiset(init) + multiset{x};
        if rest[i] != x {
          assert rest[i] in init;
        }
      }
    }
  }

  /**
   * std::sort by key. The source's sort is not stable, so the order of equal
   * keys is unspecified there; this one keeps the input order.
   */
  function SortByKey(s: seq<Ranked>): (r: seq<Ranked>)
    ensures |r| == |s|
  {
    if s == [] then []
    else Insert(s[|s| - 1], SortByKey(s[..|s| - 1]))
  }

  /** The sort's result is sorted and a permutation of its input. */
  lemma {:induction false} SortByKeySorts(s: seq<Ranked>)
    ensures SortedByKey(SortByKey(s))
    ensures multiset(SortByKey(s)) == multiset(s)
  {
    if s != [] {
      var init := s[..|s| - 1];
      SortByKeySorts(init);
      InsertSorts(s[|s| - 1], SortByKey(init));
      assert s == init + [s[|s| - 1]];
    }
  }

  lemma KeysSnoc(s: seq<Ranked>, x: Ranked)
    ensures Keys(s + [x]) == Keys(s) + [x.territory]
  {
    assert (s + [x])[..|s|] == s;
  }

  lemma {:induction false} InsertKeys(x: Ranked, s: seq<Ranked>)
    ensures multiset(Keys(Insert(x, s))) == multiset(Keys(s)) + multiset{x.territory}
  {
    if s == [] || s[|s| - 1].key <= x.key {
      assert Insert(x, s) == s + [x];
      KeysSnoc(s, x);
    } else {
      var init := s[..|s| - 1];
      var last := s[|s| - 1];
      var rest := Insert(x, init);
      InsertKeys(x, init);
      KeysSnoc(rest, last);
      assert s == init + [last];
      KeysSnoc(init, last);
    }
  }

  /** Sorting never changes which territories are listed, nor how often. */
  lemma {:induction false} SortKeepsTerritories(s: seq<Ranked>)
    ensures multiset(Keys(SortByKey(s))) == multiset(Keys(s))
  {
    if s != [] {
      var init, last := s[..|s| - 1], s[|s| - 1];
      assert SortByKey(s) == Insert(last, SortByKey(init));
      SortKeepsTerritories(init);
      InsertKeys(last, SortByKey(init));
      assert s == init + [last];
      KeysSnoc(init, last);
      assert multiset(Keys(s)) == multiset(Keys(init)) + multiset{last.territory};
    }
  }

  /** Every entry of s carries the score `score` gives its territory. */
  predicate ScoredBy(s: seq<Ranked>, score: map<nat, int>) {
    forall i :: 0 <= i < |s| ==> s[i].territory in score && s[i].key == score[s[i].territory]
  }

  /** A sorted ranking whose keys are the scores lists its territories by nondecreasing score. */
  lemma {:induction false} SortedByScore(s: seq<Ranked>, score: map<nat, int>)
    requires ScoredBy(s, score)
    ensures ScoredBy(SortByKey(s), score)
    ensures forall i, j :: 0 <= i < j < |s| ==>
      score[Keys(SortByKey(s))[i]] <= score[Keys(SortByKey(s))[j]]
  {
    var r := SortByKey(s);
    SortByKeySorts(s);
    forall i | 0 <= i < |r|
      ensures r[i].territory in score && r[i].key == score[r[i].territory]
    {
      assert r[i] in multiset(s);
      var k :| 0 <= k < |s| && s[k] == r[i];
    }
  }

  // ----- toDefend of the aggressive and benevolent players -----

  /** Each owned territory with its number of enemy neighbours, in list order. */
  function DefenceRanking(ts: seq<Territory>, p: PlayerId, friends: seq<PlayerId>, owned: seq<nat>): (r: seq<Ranked>)
    ensures |r| == |owned|
  {
    if owned == [] then []
    else
      var t := owned[|owned| - 1];
      DefenceRanking(ts, p, friends, owned[..|owned| - 1]) + [Ranked(t, EnemyCount(ts, p, friends, AdjacentOf(ts, t)))]
  }

  /** The ranking lists the owned territories in order, each scored by its enemy neighbours. */
  lemma {:induction false} DefenceRankingScores(ts: seq<Territory>, p: PlayerId, friends: seq<PlayerId>, owned: seq<nat>)
    ensures Keys(DefenceRanking(ts, p, friends, owned)) == owned
    ensures forall i :: 0 <= i < |owned| ==>
      DefenceRanking(ts, p, friends, owned)[i].key == EnemyCount(ts, p, friends, AdjacentOf(ts, owned[i]))
  {
    if owned != [] {
      var init := owned[..|owned| - 1];
      DefenceRankingScores(ts, p, friends, init);
      var rest := DefenceRanking(ts, p, friends, init);
      var r := DefenceRanking(ts, p, friends, owned);
      assert r == rest + [Ranked(owned[|owned| - 1], EnemyCount(ts, p, friends, AdjacentOf(ts, owned[|owned| - 1])))];
      forall i | 0 <= i < |owned|
        ensures Keys(r)[i] == owned[i]
        ensures r[i].key == EnemyCount(ts, p, friends, AdjacentOf(ts, owned[i]))
      {
        if i < |init| {
          assert r[i] == rest[i];
          assert Keys(rest)[i] == init[i];
        }
      }
    }
  }

  /** AggressivePlayer::toDefend and BenevolentPlayer::toDefend: the owned territories, fewest enemy neighbours first. */
  function DefendOrder(ts: seq<Territory>, p: PlayerId, friends: seq<PlayerId>, owned: seq<nat>): (r: seq<nat>)
    ensures |r| == |owned|
  {
    Keys(SortByKey(DefenceRanking(ts, p, friends, owned)))
  }

  /** The score toDefend sorts by, as a map over the owned territories. */
  function Threat(ts: seq<Territory>, p: PlayerId, friends: seq<PlayerId>, owned: seq<nat>): map<nat, int> {
    map t | t in owned :: EnemyCount(ts, p, friends, AdjacentOf(ts, t))
  }

  /** toDefend lists exactly the owned territories, as often as owned. */
  lemma DefendOrderPermutesOwned(ts: seq<Territory>, p: PlayerId, friends: seq<PlayerId>, owned: seq<nat>)
    ensures multiset(DefendOrder(ts, p, friends, owned)) == multiset(owned)
    ensures |DefendOrder(ts, p, friends, owned)| == |owned|
    ensures forall t :: t in DefendOrder(ts, p, friends, owned) <==> t in owned
  {
    var r := DefenceRanking(ts, p, friends, owned);
    SortKeepsTerritories(r);
    DefenceRankingScores(ts, p, friends, owned);
    var d := DefendOrder(ts, p, friends, owned);
    assert |d| == |owned| by {
      assert |multiset(d)| == |multiset(owned)|;
    }
    forall t
      ensures t in d <==> t in owned
    {
      assert t in d <==> t in multiset(d);
      assert t in owned <==> t in multiset(owned);
    }
  }

  /** toDefend puts the owned territories in order of nondecreasing enemy count. */
  lemma DefendOrderByThreat(ts: seq<Territory>, p: PlayerId, friends: seq<PlayerId>, owned: seq<nat>)
    ensures forall i, j :: 0 <= i < j < |DefendOrder(ts, p, friends, owned)| ==>
      EnemyCount(ts, p, friends, AdjacentOf(ts, DefendOrder(ts, p, friends, owned)[i]))
        <= EnemyCount(ts, p, friends, AdjacentOf(ts, DefendOrder(ts, p, friends, owned)[j]))
  {
    var r := DefenceRanking(ts, p, friends, owned);
    var score := Threat(ts, p, friends, owned);
    DefenceRankingScores(ts, p, friends, owned);
    assert ScoredBy(r, score) by {
      forall i | 0 <= i < |r|
        ensures r[i].territory in score && r[i].key == score[r[i].territory]
      {
        assert r[i].territory == Keys(r)[i] == owned[i];
      }
    }
    DefendOrderPermutesOwned(ts, p, friends, owned);
    SortedByScore(r, score);
    var d := DefendOrder(ts, p, friends, owned);
    forall i | 0 <= i < |d|
      ensures d[i] in score && score[d[i]] == EnemyCount(ts, p, friends, AdjacentOf(ts, d[i]))
    {
      assert d[i] in owned;
    }
  }

  /** The loops of toDefend: score every owned territory, then sort. */
  method ToDefend(m: Map, player: Player) returns (r: seq<nat>)
    ensures r == DefendOrder(m.territories, player.id, player.friends, player.territories)
  {
    var owned := player.territories;
    var ranking: seq<Ranked> := [];
    var i := 0;
    while i < |owned|
      invariant 0 <= i <= |owned|
      invariant ranking == DefenceRanking(m.territories, player.id, player.friends, owned[..i])
    {
      var adj := if owned[i] < |m.territories| then m.territories[owned[i]].adjacent else [];
      var n := CountEnemies(m, player, adj);
      assert owned[..i + 1][..i] == owned[..i];
      ranking := ranking + [Ranked(owned[i], n)];
      i := i + 1;
    }
    assert owned[..|owned|] == owned;
    r := Keys(SortByKey(ranking));
  }

  // ----- toAttack of the aggressive player -----

  /** The enemy entries of one adjacency list, each with its armies. */
  function EnemyNeighbours(ts: seq<Territory>, p: PlayerId, friends: seq<PlayerId>, adj: seq<nat>): (r: seq<Ranked>)
    ensures |r| <= |adj|
  {
    if adj == [] then []
    else
      var a := adj[|adj| - 1];
      var rest := EnemyNeighbours(ts, p, friends, adj[..|adj| - 1]);
      if Enemy(ts, p, friends, a) then rest + [Ranked(a, ts[a].armies)] else rest
  }

  /** An entry of EnemyNeighbours is an enemy territory of adj, ranked by its armies. */
  predicate RankedEnemy(x: Ranked, ts: seq<Territory>, p: PlayerId, friends: seq<PlayerId>) {
    Enemy(ts, p, friends, x.territory) && x.territory < |ts| && x.key == ts[x.territory].armies
  }

  lemma {:induction false} EnemyNeighboursAreEnemies(ts: seq<Territory>, p: PlayerId, friends: seq<PlayerId>, adj: seq<nat>)
    ensures forall i :: 0 <= i < |EnemyNeighbours(ts, p, friends, adj)| ==>
      var x := EnemyNeighbours(ts, p, friends, adj)[i];
      x.territory in adj && RankedEnemy(x, ts, p, friends)
  {
    if adj != [] {
      var init := adj[..|adj| - 1];
      EnemyNeighboursAreEnemies(ts, p, friends, init);
      assert adj == init + [adj[|adj| - 1]];
    }
  }

  /** Every enemy neighbour of every owned territory, repeats kept, in list order. */
  function AttackRanking(ts: seq<Territory>, p: PlayerId, friends: seq<PlayerId>, owned: seq<nat>): seq<Ranked> {
    if owned == [] then []
    else
      var t := owned[|owned| - 1];
      AttackRanking(ts, p, friends, owned[..|owned| - 1]) + EnemyNeighbours(ts, p, friends, AdjacentOf(ts, t))
  }

  /** The attack ranking holds enemy territories next to an owned one, each with its armies. */
  lemma {:induction false} AttackRankingAreEnemies(ts: seq<Territory>, p: PlayerId, friends: seq<PlayerId>, owned: seq<nat>)
    ensures forall i :: 0 <= i < |AttackRanking(ts, p, friends, owned)| ==>
      var x := AttackRanking(ts, p, friends, owned)[i];
      RankedEnemy(x, ts, p, friends) && exists k :: 0 <= k < |owned| && x.territory in AdjacentOf(ts, owned[k])
  {
    if owned != [] {
      var n := |owned| - 1;
      var init := owned[..n];
      AttackRankingAreEnemies(ts, p, friends, init);
      var rest := AttackRanking(ts, p, friends, init);
      var more := EnemyNeighbours(ts, p, friends, AdjacentOf(ts, owned[n]));
      EnemyNeighboursAreEnemies(ts, p, friends, AdjacentOf(ts, owned[n]));
      var r := AttackRanking(ts, p, friends, owned);
      assert r == rest + more;
      forall i | 0 <= i < |r|
        ensures RankedEnemy(r[i], ts, p, friends) && exists k :: 0 <= k < |owned| && r[i].territory in AdjacentOf(ts, owned[k])
      {
        if i < |rest| {
          assert r[i] == rest[i];
          var k :| 0 <= k < |init| && rest[i].territory in AdjacentOf(ts, init[k]);
          assert init[k] == owned[k];
        } else {
          assert r[i] == more[i - |rest|];
          assert r[i].territory in AdjacentOf(ts, owned[n]);
        }
      }
    }
  }

  /** AggressivePlayer::toAttack: the enemy neighbours, fewest armies first. */
  function AttackOrder(ts: seq<Territory>, p: PlayerId, friends: seq<PlayerId>, owned: seq<nat>): seq<nat> {
    Keys(SortByKey(AttackRanking(ts, p, friends, owned)))
  }

  /** toAttack lists only enemy territories next to an owned one, by nondecreasing armies. */
  lemma AttackOrderIsWeakestFirst(ts: seq<Territory>, p: PlayerId, friends: seq<PlayerId>, owned: seq<nat>)
    ensures forall i :: 0 <= i < |AttackOrder(ts, p, friends, owned)| ==>
      var t := AttackOrder(ts, p, friends, owned)[i];
      Enemy(ts, p, friends, t) && t < |ts| && exists k :: 0 <= k < |owned| && t in AdjacentOf(ts, owned[k])
    ensures forall i, j :: 0 <= i < j < |AttackOrder(ts, p, friends, owned)| ==>
      ts[AttackOrder(ts, p, friends, owned)[i]].armies <= ts[AttackOrder(ts, p, friends, owned)[j]].armies
    ensures multiset(AttackOrder(ts, p, friends, owned)) == multiset(Keys(AttackRanking(ts, p, friends, owned)))
  {
    var r := AttackRanking(ts, p, friends, owned);
    var s := SortByKey(r);
    SortByKeySorts(r);
    SortKeepsTerritories(r);
    AttackRankingAreEnemies(ts, p, friends, owned);
    forall i | 0 <= i < |s|
      ensures RankedEnemy(s[i], ts, p, friends) && exists k :: 0 <= k < |owned| && s[i].territory in AdjacentOf(ts, owned[k])
    {
      assert s[i] in multiset(r);
      var j :| 0 <= j < |r| && r[j] == s[i];
    }
  }

  /** How many times a occurs in the adjacency lists of the owned territories, counted per owned entry. */
  function Mentions(ts: seq<Territory>, owned: seq<nat>, a: nat): nat {
    if owned == [] then 0
    else Mentions(ts, owned[..|owned| - 1], a) + multiset(AdjacentOf(ts, owned[|owned| - 1]))[a]
  }

  /** A territory in the adjacency list of some owned territory is mentioned at least once. */
  lemma {:induction false} MentionsPositive(ts: seq<Territory>, owned: seq<nat>, a: nat, k: nat)
    requires k < |owned| && a in AdjacentOf(ts, owned[k])
    ensures Mentions(ts, owned, a) > 0
  {
    var n := |owned| - 1;
    if k < n {
      assert owned[..n][k] == owned[k];
      MentionsPositive(ts, owned[..n], a, k);
    }
  }

  lemma KeysAppend(s: seq<Ranked>, u: seq<Ranked>)
    ensures Keys(s + u) == Keys(s) + Keys(u)
  {
  }

  /** The inner loop of toAttack keeps each enemy entry of adj, as often as it occurs, and nothing else. */
  lemma {:induction false} EnemyNeighboursCount(ts: seq<Territory>, p: PlayerId, friends: seq<PlayerId>, adj: seq<nat>, a: nat)
    ensures multiset(Keys(EnemyNeighbours(ts, p, friends, adj)))[a] == if Enemy(ts, p, friends, a) then multiset(adj)[a] else 0
  {
    if adj != [] {
      var n := |adj| - 1;
      var rest := EnemyNeighbours(ts, p, friends, adj[..n]);
      EnemyNeighboursCount(ts, p, friends, adj[..n], a);
      assert adj == adj[..n] + [adj[n]];
      if Enemy(ts, p, friends, adj[n]) {
        KeysSnoc(rest, Ranked(adj[n], ts[adj[n]].armies));
      }
    }
  }

  /** The attack ranking holds each enemy once per owned territory it is adjacent to. */
  lemma {:induction false} AttackRankingCount(ts: seq<Territory>, p: PlayerId, friends: seq<PlayerId>, owned: seq<nat>, a: nat)
    ensures multiset(Keys(AttackRanking(ts, p, friends, owned)))[a] == if Enemy(ts, p, friends, a) then Mentions(ts, owned, a) else 0
  {
    if owned != [] {
      var n := |owned| - 1;
      var rest := AttackRanking(ts, p, friends, owned[..n]);
      var more := EnemyNeighbours(ts, p, friends, AdjacentOf(ts, owned[n]));
      AttackRankingCount(ts, p, friends, owned[..n], a);
      EnemyNeighboursCount(ts, p, friends, AdjacentOf(ts, owned[n]), a);
      KeysAppend(rest, more);
    }
  }

  /**
   * toAttack misses no enemy: every enemy territory next to an owned one is listed,
   * once per owned territory it is adjacent to, and a territory that is not an enemy never is.
   */
  lemma AttackOrderIsComplete(ts: seq<Territory>, p: PlayerId, friends: seq<PlayerId>, owned: seq<nat>, a: nat)
    ensures multiset(AttackOrder(ts, p, friends, owned))[a] == if Enemy(ts, p, friends, a) then Mentions(ts, owned, a) else 0
    ensures Enemy(ts, p, friends, a) && (exists k :: 0 <= k < |owned| && a in AdjacentOf(ts, owned[k])) ==>
      a in AttackOrder(ts, p, friends, owned)
  {
    SortKeepsTerritories(AttackRanking(ts, p, friends, owned));
    AttackRankingCount(ts, p, friends, owned, a);
    if Enemy(ts, p, friends, a) && exists k :: 0 <= k < |owned| && a in AdjacentOf(ts, owned[k]) {
      var k :| 0 <= k < |owned| && a in AdjacentOf(ts, owned[k]);
      MentionsPositive(ts, owned, a, k);
    }
  }

  /** The inner loop of toAttack. */
  method ScanNeighbours(m: Map, player: Player, adj: seq<nat>) returns (r: seq<Ranked>)
    ensures r == EnemyNeighbours(m.territories, player.id, player.friends, adj)
  {
    r := [];
    var j := 0;
    while j < |adj|
      invariant 0 <= j <= |adj|
      invariant r == EnemyNeighbours(m.territories, player.id, player.friends, adj[..j])
    {
      assert adj[..j + 1][..j] == adj[..j];
      var a := adj[j];
      var owner := if a < |m.territories| then m.territories[a].owner else None;
      if owner != Some(player.id) && owner.Some? && !player.IsFriendsWith(owner) {
        r := r + [Ranked(a, m.territories[a].armies)];
      }
      j := j + 1;
    }
    assert adj[..|adj|] == adj;
  }

  /** The loops of AggressivePlayer::toAttack, then the sort. */
  method ToAttack(m: Map, player: Player) returns (r: seq<nat>)
    ensures r == AttackOrder(m.territories, player.id, player.friends, player.territories)
  {
    var owned := player.territories;
    var ranking: seq<Ranked> := [];
    var i := 0;
    while i < |owned|
      invariant 0 <= i <= |owned|
      invariant ranking == AttackRanking(m.territories, player.id, player.friends, owned[..i])
    {
      var adj := if owned[i] < |m.territories| then m.territories[owned[i]].adjacent else [];
      var more := ScanNeighbours(m, player, adj);
      assert owned[..i + 1][..i] == owned[..i];
      ranking := ranking + more;
      i := i + 1;
    }
    assert owned[..|owned|] == owned;
    r := Keys(SortByKey(ranking));
  }

  // ----- adjacentEnemyTerritories -----

  predicate Ascending(s: seq<nat>) {
    forall i, j :: 0 <= i < j < |s| ==> s[i] < s[j]
  }

  /** std::set::insert on an ascending list: a is added unless already present. */
  function InsertUnique(s: seq<nat>, a: nat): (r: seq<nat>)
    requires Ascending(s)
    ensures Ascending(r)
    ensures forall x :: x in r <==> x in s || x == a
  {
    if s == [] then [a]
    else if a == s[0] then s
    else if a < s[0] then [a] + s
    else
      var rest := InsertUnique(s[1..], a);
      assert forall x :: x in s <==> x == s[0] || x in s[1..];
      assert forall i :: 0 <= i < |rest| ==> s[0] < rest[i] by {
        forall i | 0 <= i < |rest|
          ensures s[0] < rest[i]
        {
          assert rest[i] in rest;
          if rest[i] != a {
            var k :| 0 <= k < |s[1..]| && s[1..][k] == rest[i];
            assert s[k + 1] == rest[i];
          }
        }
      }
      [s[0]] + rest
  }

  /** The entries of adj not owned by p (null owners and unresolved entries included) added to s. */
  function AddNotOwned(ts: seq<Territory>, p: PlayerId, s: seq<nat>, adj: seq<nat>): (r: seq<nat>)
    requires Ascending(s)
    ensures Ascending(r)
    ensures forall x :: x in r <==> (x in s || (x in adj && OwnerOf(ts, x) != Some(p)))
  {
    if adj == [] then s
    else
      var a := adj[|adj| - 1];
      var rest := AddNotOwned(ts, p, s, adj[..|adj| - 1]);
      assert forall x :: x in adj <==> x in adj[..|adj| - 1] || x == a;
      if OwnerOf(ts, a) != Some(p) then InsertUnique(rest, a) else rest
  }

  /** adjacentEnemyTerritories: each neighbour of an owned territory that p does not own, once, in increasing order. */
  function AdjacentEnemies(ts: seq<Territory>, p: PlayerId, owned: seq<nat>): (r: seq<nat>)
    ensures Ascending(r)
    ensures forall a :: a in r <==>
      (exists k :: 0 <= k < |owned| && a in AdjacentOf(ts, owned[k]) && OwnerOf(ts, a) != Some(p))
  {
    if owned == [] then []
    else
      var init := owned[..|owned| - 1];
      var rest := AdjacentEnemies(ts, p, init);
      assert forall k :: 0 <= k < |init| ==> init[k] == owned[k];
      AddNotOwned(ts, p, rest, AdjacentOf(ts, owned[|owned| - 1]))
  }

  /** The inner loop of adjacentEnemyTerritories. */
  method CollectNotOwned(m: Map, p: PlayerId, adj: seq<nat>, found: seq<nat>) returns (r: seq<nat>)
    requires Ascending(found)
    ensures r == AddNotOwned(m.territories, p, found, adj)
  {
    r := found;
    var j := 0;
    while j < |adj|
      invariant 0 <= j <= |adj|
      invariant r == AddNotOwned(m.territories, p, found, adj[..j])
    {
      assert adj[..j + 1][..j] == adj[..j];
      var a := adj[j];
      var owner := if a < |m.territories| then m.territories[a].owner else None;
      if owner != Some(p) {
        r := InsertUnique(r, a);
      }
      j := j + 1;
    }
    assert adj[..|adj|] == adj;
  }

  /** The loops of adjacentEnemyTerritories. */
  method ToAdjacentEnemies(m: Map, player: Player) returns (r: seq<nat>)
    ensures r == AdjacentEnemies(m.territories, player.id, player.territories)
  {
    var owned := player.territories;
    r := [];
    var i := 0;
    while i < |owned|
      invariant 0 <= i <= |owned|
      invariant r == AdjacentEnemies(m.territories, player.id, owned[..i])
    {
      var adj := if owned[i] < |m.territories| then m.territories[owned[i]].adjacent else [];
      assert owned[..i + 1][..i] == owned[..i];
      r := CollectNotOwned(m, player.id, adj, r);
      i := i + 1;
    }
    assert owned[..|owned|] == owned;
  }

  // ----- where an attack starts -----

  /** The owned territories that appear in t's adjacency list, in list order. */
  function SourcesOf(ts: seq<Territory>, owned: seq<nat>, t: nat): (r: seq<nat>)
    ensures |r| <= |owned|
  {
    if owned == [] then []
    else
      var s := owned[|owned| - 1];
      var rest := SourcesOf(ts, owned[..|owned| - 1], t);
      if s in AdjacentOf(ts, t) then rest + [s] else rest
  }

  /** The sources of t are exactly the owned territories in t's adjacency list. */
  lemma {:induction false} SourcesOfAreOwnedNeighbours(ts: seq<Territory>, owned: seq<nat>, t: nat)
    ensures forall i :: 0 <= i < |SourcesOf(ts, owned, t)| ==>
      SourcesOf(ts, owned, t)[i] in owned && SourcesOf(ts, owned, t)[i] in AdjacentOf(ts, t)
    ensures forall s :: s in owned && s in AdjacentOf(ts, t) ==> s in SourcesOf(ts, owned, t)
  {
    if owned != [] {
      var init := owned[..|owned| - 1];
      SourcesOfAreOwnedNeighbours(ts, init, t);
      assert owned == init + [owned[|owned| - 1]];
    }
  }

  /** The `adjacent` loop of issueOrder. */
  method FindSources(m: Map, owned: seq<nat>, t: nat) returns (r: seq<nat>)
    ensures r == SourcesOf(m.territories, owned, t)
  {
    var adj := if t < |m.territories| then m.territories[t].adjacent else [];
    r := [];
    var i := 0;
    while i < |owned|
      invariant 0 <= i <= |owned|
      invariant r == SourcesOf(m.territories, owned[..i], t)
    {
      assert owned[..i + 1][..i] == owned[..i];
      if owned[i] in adj {
        r := r + [owned[i]];
      }
      i := i + 1;
    }
    assert owned[..|owned|] == owned;
  }
}
