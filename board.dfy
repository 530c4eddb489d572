/**
 * The territory graph of Map.cpp. Territories and continents live in the
 * Map's arena and refer to each other by index. An adjacency entry that is
 * not an index of the map (>= the number of territories) stands for the
 * name-only placeholder territory the loader leaves behind when a name
 * matches no territory; it is never equal to a territory of the map.
 */
module Board {
  import opened Wrappers

  /** The index of a player record in the game's roster (the C++ Player*). */
  type PlayerId = nat

  /** A territory: its owner is None when the C++ pointer is null. */
  datatype Territory = Territory(
    name: string,
    armies: int,
    owner: Option<PlayerId>,
    continent: string,
    adjacent: seq<nat>)

  /** A continent: `bonus` is the C++ field `armies`, `members` the territories added to it. */
  datatype Continent = Continent(name: string, bonus: int, members: seq<nat>)

  /** Every continent member names a territory of the map. */
  predicate MembersOnMap(ts: seq<Territory>, cs: seq<Continent>) {
    forall c, m :: 0 <= c < |cs| && 0 <= m < |cs[c].members| ==> cs[c].members[m] < |ts|
  }

  // ----- Map::findTerritory -----

  /** The index of the first territory called `name`, or None. */
  function FindTerritory(ts: seq<Territory>, name: string): (r: Option<nat>)
    ensures r.Some? ==> r.value < |ts| && ts[r.value].name == name
    ensures r.Some? ==> forall k :: 0 <= k < r.value ==> ts[k].name != name
    ensures r.None? <==> forall k :: 0 <= k < |ts| ==> ts[k].name != name
  {
    if ts == [] then None
    else if ts[0].name == name then Some(0)
    else match FindTerritory(ts[1..], name)
      case None => None
      case Some(k) => Some(k + 1)
  }

  /** The index of the first continent called `name`, or None. */
  function FindContinent(cs: seq<Continent>, name: string): (r: Option<nat>)
    ensures r.Some? ==> r.value < |cs| && cs[r.value].name == name
    ensures r.Some? ==> forall k :: 0 <= k < r.value ==> cs[k].name != name
    ensures r.None? <==> forall k :: 0 <= k < |cs| ==> cs[k].name != name
  {
    if cs == [] then None
    else if cs[0].name == name then Some(0)
    else match FindContinent(cs[1..], name)
      case None => None
      case Some(k) => Some(k + 1)
  }

  // ----- Map::addTerritoryToContinent -----

  /**
   * The continents after Map::addTerritoryToContinent(territory, continent):
   * the first territory called `territory` is appended to the first continent
   * called `continent`; nothing changes when either name is unknown.
   */
  function AddToContinent(ts: seq<Territory>, cs: seq<Continent>, territory: string, continent: string): (r: seq<Continent>)
    ensures |r| == |cs|
    ensures FindTerritory(ts, territory).None? || FindContinent(cs, continent).None? ==> r == cs
    ensures FindTerritory(ts, territory).Some? && FindContinent(cs, continent).Some? ==>
      var t, c := FindTerritory(ts, territory).value, FindContinent(cs, continent).value;
      && r[c].members == cs[c].members + [t]
      && r[c].name == cs[c].name && r[c].bonus == cs[c].bonus
      && forall k :: 0 <= k < |cs| && k != c ==> r[k] == cs[k]
  {
    match FindTerritory(ts, territory)
    case None => cs
    case Some(t) =>
      match FindContinent(cs, continent)
      case None => cs
      case Some(c) => cs[c := cs[c].(members := cs[c].members + [t])]
  }

  // ----- Map::associateTerritories -----

  /**
   * Resolves adjacency names: each name becomes the index of the first
   * territory with that name, or the placeholder index |ts| when there is none.
   */
  function ResolveAdjacency(ts: seq<Territory>, names: seq<string>): (r: seq<nat>)
    ensures |r| == |names|
    ensures forall j :: 0 <= j < |names| ==>
      (if FindTerritory(ts, names[j]).Some? then r[j] == FindTerritory(ts, names[j]).value else r[j] == |ts|)
  {
    if names == [] then []
    else
      var head := match FindTerritory(ts, names[0]) case Some(k) => k case None => |ts|;
      [head] + ResolveAdjacency(ts, names[1..])
  }

  /** Every territory's adjacency names resolved (Map::associateTerritories over the whole map). */
  function Associated(ts: seq<Territory>, names: seq<seq<string>>): (r: seq<Territory>)
    requires |names| == |ts|
    ensures |r| == |ts|
    ensures forall i :: 0 <= i < |ts| ==> r[i] == ts[i].(adjacent := ResolveAdjacency(ts, names[i]))
  {
    seq(|ts|, i requires 0 <= i < |ts| => ts[i].(adjacent := ResolveAdjacency(ts, names[i])))
  }

  lemma ResolveAdjacencySnoc(ts: seq<Territory>, names: seq<string>, name: string)
    ensures ResolveAdjacency(ts, names + [name]) ==
      ResolveAdjacency(ts, names) + [match FindTerritory(ts, name) case Some(k) => k case None => |ts|]
  {
  }

  /** The inner loop of Map::associateTerritories: each name looked up in turn. */
  method ResolveNames(ts: seq<Territory>, names: seq<string>) returns (resolved: seq<nat>)
    ensures resolved == ResolveAdjacency(ts, names)
  {
    resolved := [];
    var j := 0;
    while j < |names|
      invariant 0 <= j <= |names|
      invariant resolved == ResolveAdjacency(ts, names[..j])
    {
      var target := match FindTerritory(ts, names[j]) case Some(k) => k case None => |ts|;
      ResolveAdjacencySnoc(ts, names[..j], names[j]);
      assert names[..j + 1] == names[..j] + [names[j]];
      resolved := resolved + [target];
      j := j + 1;
    }
    assert names[..|names|] == names;
  }

  // ----- Map::validate -----

  /** How many entries of s equal k. */
  function Occurrences(s: seq<nat>, k: nat): nat {
    if s == [] then 0 else Occurrences(s[..|s| - 1], k) + (if s[|s| - 1] == k then 1 else 0)
  }

  /** How many adjacency entries of the first n territories point at territory k. */
  function InDegreeUpTo(ts: seq<Territory>, n: nat, k: nat): nat
    requires n <= |ts|
  {
    if n == 0 then 0 else InDegreeUpTo(ts, n - 1, k) + Occurrences(ts[n - 1].adjacent, k)
  }

  /** The count Map::validate accumulates in visitedTerrs[k]. */
  function InDegree(ts: seq<Territory>, k: nat): nat {
    InDegreeUpTo(ts, |ts|, k)
  }

  /** The first check of Map::validate: in-degree equals out-degree and neither is zero. */
  predicate DegreesMatch(ts: seq<Territory>) {
    forall l :: 0 <= l < |ts| ==> InDegree(ts, l) == |ts[l].adjacent| && InDegree(ts, l) != 0
  }

  /** The sum of the continents' membership sizes. */
  function MembershipTotal(cs: seq<Continent>): nat {
    if cs == [] then 0 else MembershipTotal(cs[..|cs| - 1]) + |cs[|cs| - 1].members|
  }

  /** What Map::validate decides. */
  predicate IsValid(ts: seq<Territory>, cs: seq<Continent>) {
    |ts| > 0 && DegreesMatch(ts) && MembershipTotal(cs) == |ts|
  }

  /** The in-degrees count adjacency entries only: who owns what does not change them. */
  lemma {:induction false} InDegreeIgnoresOwners(ts: seq<Territory>, us: seq<Territory>, n: nat, k: nat)
    requires n <= |ts| == |us|
    requires forall t :: 0 <= t < |ts| ==> us[t].adjacent == ts[t].adjacent
    ensures InDegreeUpTo(ts, n, k) == InDegreeUpTo(us, n, k)
  {
    if n > 0 {
      InDegreeIgnoresOwners(ts, us, n - 1, k);
    }
  }

  /** Map::validate looks at the adjacency and the continents only: who owns what does not change its answer. */
  lemma IsValidIgnoresOwners(ts: seq<Territory>, us: seq<Territory>, cs: seq<Continent>)
    requires |ts| == |us|
    requires forall t :: 0 <= t < |ts| ==> us[t].adjacent == ts[t].adjacent
    ensures IsValid(ts, cs) <==> IsValid(us, cs)
  {
    forall l | 0 <= l < |ts|
      ensures InDegree(ts, l) == InDegree(us, l)
    {
      InDegreeIgnoresOwners(ts, us, |ts|, l);
    }
  }

  // ----- Map::continentRewards -----

  /** Every member of the continent is owned by p (vacuously true for no members). */
  predicate OwnsContinent(ts: seq<Territory>, c: Continent, p: PlayerId) {
    forall m :: 0 <= m < |c.members| ==> c.members[m] < |ts| && ts[c.members[m]].owner == Some(p)
  }

  /** The sum of the bonuses of the continents p owns entirely. */
  function Rewards(ts: seq<Territory>, cs: seq<Continent>, p: PlayerId): int {
    if cs == [] then 0
    else Rewards(ts, cs[..|cs| - 1], p) + (if OwnsContinent(ts, cs[|cs| - 1], p) then cs[|cs| - 1].bonus else 0)
  }

  /**
   * A continent p does not own entirely yet, all of whose members but t are
   * p's, becomes p's once t is: acquiring its last member is what adds a bonus.
   */
  lemma AcquiringLastMemberCompletes(ts: seq<Territory>, c: Continent, p: PlayerId, t: nat)
    requires t < |ts| && t in c.members
    requires forall m :: 0 <= m < |c.members| ==> c.members[m] < |ts|
    requires forall m :: 0 <= m < |c.members| && c.members[m] != t ==> ts[c.members[m]].owner == Some(p)
    requires ts[t].owner != Some(p)
    ensures !OwnsContinent(ts, c, p)
    ensures OwnsContinent(ts[t := ts[t].(owner := Some(p))], c, p)
  {
    var m :| 0 <= m < |c.members| && c.members[m] == t;
  }

  /** Rewards depend only on who owns the continents' members. */
  lemma {:induction false} RewardsDependOnOwnersOnly(ts: seq<Territory>, us: seq<Territory>, cs: seq<Continent>, p: PlayerId)
    requires |ts| == |us|
    requires forall i :: 0 <= i < |ts| ==> ts[i].owner == us[i].owner
    ensures Rewards(ts, cs, p) == Rewards(us, cs, p)
  {
    if cs != [] {
      RewardsDependOnOwnersOnly(ts, us, cs[..|cs| - 1], p);
      assert OwnsContinent(ts, cs[|cs| - 1], p) == OwnsContinent(us, cs[|cs| - 1], p);
    }
  }

  // ----- the degree check is not a symmetry check -----

  /** How many entries of s name a territory of a map with n territories. */
  function CountBelow(s: seq<nat>, n: nat): nat
    ensures CountBelow(s, n) <= |s|
  {
    if s == [] then 0 else CountBelow(s[..|s| - 1], n) + (if s[|s| - 1] < n then 1 else 0)
  }

  function SumOccurrences(s: seq<nat>, n: nat): nat {
    if n == 0 then 0 else SumOccurrences(s, n - 1) + Occurrences(s, n - 1)
  }

  lemma {:induction false} SumOccurrencesSnoc(s: seq<nat>, x: nat, n: nat)
    ensures SumOccurrences(s + [x], n) == SumOccurrences(s, n) + (if x < n then 1 else 0)
  {
    if n > 0 {
      SumOccurrencesSnoc(s, x, n - 1);
      assert (s + [x])[..|s + [x]| - 1] == s;
    }
  }

  /** Summing the occurrence counts of 0..n-1 counts the entries below n. */
  lemma {:induction false} SumOccurrencesIsCountBelow(s: seq<nat>, n: nat)
    ensures SumOccurrences(s, n) == CountBelow(s, n)
    decreases |s|
  {
    if s == [] {
      SumOfEmpty(n);
    } else {
      var init := s[..|s| - 1];
      assert s == init + [s[|s| - 1]];
      SumOccurrencesSnoc(init, s[|s| - 1], n);
      SumOccurrencesIsCountBelow(init, n);
    }
  }

  lemma {:induction false} SumOfEmpty(n: nat)
    ensures SumOccurrences([], n) == 0
  {
    if n > 0 {
      SumOfEmpty(n - 1);
    }
  }

  /** Sum over k < n of the in-degree counted over the first m territories. */
  function SumInDegrees(ts: seq<Territory>, m: nat, n: nat): nat
    requires m <= |ts|
  {
    if n == 0 then 0 else SumInDegrees(ts, m, n - 1) + InDegreeUpTo(ts, m, n - 1)
  }

  /** Sum over i < m of the entries of territory i that name a territory (index below n). */
  function ResolvedEntries(ts: seq<Territory>, m: nat, n: nat): nat
    requires m <= |ts|
  {
    if m == 0 then 0 else ResolvedEntries(ts, m - 1, n) + CountBelow(ts[m - 1].adjacent, n)
  }

  /** Sum over k < n of the adjacency-list lengths. */
  function OutDegrees(ts: seq<Territory>, n: nat): nat
    requires n <= |ts|
  {
    if n == 0 then 0 else OutDegrees(ts, n - 1) + |ts[n - 1].adjacent|
  }

  lemma {:induction false} SumInDegreesStep(ts: seq<Territory>, m: nat, n: nat)
    requires 0 < m <= |ts|
    ensures SumInDegrees(ts, m, n) == SumInDegrees(ts, m - 1, n) + SumOccurrences(ts[m - 1].adjacent, n)
  {
    if n > 0 {
      SumInDegreesStep(ts, m, n - 1);
    }
  }

  /** The in-degrees of all territories add up to the number of entries that name a territory. */
  lemma {:induction false} SumInDegreesIsResolved(ts: seq<Territory>, m: nat, n: nat)
    requires m <= |ts|
    ensures SumInDegrees(ts, m, n) == ResolvedEntries(ts, m, n)
  {
    if m == 0 {
      ZeroInDegrees(ts, n);
    } else {
      SumInDegreesStep(ts, m, n);
      SumOccurrencesIsCountBelow(ts[m - 1].adjacent, n);
      SumInDegreesIsResolved(ts, m - 1, n);
    }
  }

  lemma {:induction false} ZeroInDegrees(ts: seq<Territory>, n: nat)
    ensures SumInDegrees(ts, 0, n) == 0
  {
    if n > 0 {
      ZeroInDegrees(ts, n - 1);
    }
  }

  lemma {:induction false} MatchedSums(ts: seq<Territory>, n: nat)
    requires n <= |ts|
    requires forall l :: 0 <= l < |ts| ==> InDegree(ts, l) == |ts[l].adjacent|
    ensures SumInDegrees(ts, |ts|, n) == OutDegrees(ts, n)
  {
    if n > 0 {
      MatchedSums(ts, n - 1);
    }
  }

  lemma {:induction false} ResolvedAtMostOut(ts: seq<Territory>, m: nat, n: nat)
    requires m <= |ts|
    ensures ResolvedEntries(ts, m, n) <= OutDegrees(ts, m)
    ensures ResolvedEntries(ts, m, n) == OutDegrees(ts, m) ==>
      forall i :: 0 <= i < m ==> CountBelow(ts[i].adjacent, n) == |ts[i].adjacent|
  {
    if m > 0 {
      ResolvedAtMostOut(ts, m - 1, n);
    }
  }

  lemma {:induction false} FullCountBelow(s: seq<nat>, n: nat)
    requires CountBelow(s, n) == |s|
    ensures forall j :: 0 <= j < |s| ==> s[j] < n
  {
    if s != [] {
      var init := s[..|s| - 1];
      FullCountBelow(init, n);
      assert forall j :: 0 <= j < |init| ==> s[j] == init[j];
    }
  }

  /**
   * A map that passes the degree check has no placeholder left in any
   * adjacency list: every entry names a territory of the map, because the
   * in-degrees only count entries that do, and they add up to all entries.
   */
  lemma DegreesMatchResolvesAdjacency(ts: seq<Territory>)
    requires DegreesMatch(ts)
    ensures forall i, j :: 0 <= i < |ts| && 0 <= j < |ts[i].adjacent| ==> ts[i].adjacent[j] < |ts|
  {
    var n := |ts|;
    SumInDegreesIsResolved(ts, n, n);
    MatchedSums(ts, n);
    ResolvedAtMostOut(ts, n, n);
    forall i | 0 <= i < n
      ensures forall j :: 0 <= j < |ts[i].adjacent| ==> ts[i].adjacent[j] < n
    {
      FullCountBelow(ts[i].adjacent, n);
    }
  }

  /**
   * The degree check is not a symmetry check: a directed three-cycle passes
   * Map::validate although no edge of it has its reverse.
   */
  lemma ThreeCycleIsValid()
    ensures var ts := [
      Territory("a", 0, None, "k", [1]),
      Territory("b", 0, None, "k", [2]),
      Territory("c", 0, None, "k", [0])];
      IsValid(ts, [Continent("k", 1, [0, 1, 2])]) && 0 !in ts[1].adjacent
  {
    var ts := [
      Territory("a", 0, None, "k", [1]),
      Territory("b", 0, None, "k", [2]),
      Territory("c", 0, None, "k", [0])];
    assert [1][..0] == [] && [2][..0] == [] && [0][..0] == [];
    forall k: nat | k < 3
      ensures InDegree(ts, k) == 1
    {
      assert Occurrences([1], k) == (if k == 1 then 1 else 0);
      assert Occurrences([2], k) == (if k == 2 then 1 else 0);
      assert Occurrences([0], k) == (if k == 0 then 1 else 0);
      assert InDegreeUpTo(ts, 1, k) == Occurrences([1], k);
      assert InDegreeUpTo(ts, 2, k) == Occurrences([1], k) + Occurrences([2], k);
    }
    var cs := [Continent("k", 1, [0, 1, 2])];
    assert cs[..0] == [];
    assert MembershipTotal(cs) == 3;
  }

  // ----- Map copy constructor -----

  /** A territory as Territory's copy constructor makes it: everything but the adjacency. */
  function CopyTerritory(t: Territory): Territory {
    Territory(t.name, t.armies, t.owner, t.continent, [])
  }

  /** Continents rebuilt by calling addTerritoryToContinent for the first n territories in turn. */
  function RebuildMembers(ts: seq<Territory>, cs: seq<Continent>, n: nat): (r: seq<Continent>)
    requires n <= |ts|
    ensures |r| == |cs|
    ensures forall c :: 0 <= c < |cs| ==> r[c].name == cs[c].name && r[c].bonus == cs[c].bonus
  {
    if n == 0 then cs
    else AddToContinent(ts, RebuildMembers(ts, cs, n - 1), ts[n - 1].name, ts[n - 1].continent)
  }

  function EmptyMembers(cs: seq<Continent>): (r: seq<Continent>)
    ensures |r| == |cs|
    ensures forall c :: 0 <= c < |cs| ==> r[c] == Continent(cs[c].name, cs[c].bonus, [])
  {
    seq(|cs|, c requires 0 <= c < |cs| => Continent(cs[c].name, cs[c].bonus, []))
  }

  /** The territories a copy of the map holds, as Map's copy constructor writes them. */
  function CopiedTerritories(ts: seq<Territory>): (r: seq<Territory>)
    ensures |r| == |ts|
    ensures forall i :: 0 <= i < |ts| ==> r[i] == CopyTerritory(ts[i])
  {
    seq(|ts|, i requires 0 <= i < |ts| => CopyTerritory(ts[i]))
  }

  /** A copy of a map that has at least one territory never passes Map::validate. */
  lemma {:induction false} CopyNeverValid(ts: seq<Territory>, cs: seq<Continent>)
    requires |ts| > 0
    ensures !IsValid(CopiedTerritories(ts), RebuildMembers(CopiedTerritories(ts), EmptyMembers(cs), |ts|))
  {
    var copy := CopiedTerritories(ts);
    NoEdgesNoInDegree(copy, |copy|, 0);
    assert InDegree(copy, 0) == 0;
  }

  lemma {:induction false} NoEdgesNoInDegree(ts: seq<Territory>, m: nat, k: nat)
    requires m <= |ts|
    requires forall i :: 0 <= i < |ts| ==> ts[i].adjacent == []
    ensures InDegreeUpTo(ts, m, k) == 0
  {
    if m > 0 {
      NoEdgesNoInDegree(ts, m - 1, k);
    }
  }

  /** How many of the first n territories name a continent of cs as theirs. */
  function Homed(ts: seq<Territory>, cs: seq<Continent>, n: nat): (r: nat)
    requires n <= |ts|
    ensures r <= n
  {
    if n == 0 then 0 else Homed(ts, cs, n - 1) + (if HasContinent(cs, ts[n - 1].continent) then 1 else 0)
  }

  predicate HasContinent(cs: seq<Continent>, name: string) {
    exists c :: 0 <= c < |cs| && cs[c].name == name
  }

  lemma {:induction false} SameNamesSameFind(cs: seq<Continent>, ds: seq<Continent>, name: string)
    requires |cs| == |ds|
    requires forall c :: 0 <= c < |cs| ==> cs[c].name == ds[c].name
    ensures FindContinent(cs, name) == FindContinent(ds, name)
  {
    if cs != [] && cs[0].name != name {
      SameNamesSameFind(cs[1..], ds[1..], name);
    }
  }

  lemma {:induction false} MembershipTotalGrows(cs: seq<Continent>, c: nat, t: nat)
    requires c < |cs|
    ensures MembershipTotal(cs[c := cs[c].(members := cs[c].members + [t])]) == MembershipTotal(cs) + 1
    decreases |cs|
  {
    var ds := cs[c := cs[c].(members := cs[c].members + [t])];
    var last := |cs| - 1;
    assert ds[..last] == if c < last then cs[..last][c := cs[c].(members := cs[c].members + [t])] else cs[..last];
    if c < last {
      MembershipTotalGrows(cs[..last], c, t);
    }
  }

  lemma {:induction false} EmptyMembershipTotal(cs: seq<Continent>)
    ensures MembershipTotal(EmptyMembers(cs)) == 0
    decreases |cs|
  {
    if cs != [] {
      EmptyMembershipTotal(cs[..|cs| - 1]);
      assert EmptyMembers(cs)[..|cs| - 1] == EmptyMembers(cs[..|cs| - 1]);
    }
  }

  /** Rebuilding the continents counts exactly the territories whose continent exists. */
  lemma {:induction false} RebuildCountsHomed(ts: seq<Territory>, cs: seq<Continent>, n: nat)
    requires n <= |ts|
    ensures MembershipTotal(RebuildMembers(ts, EmptyMembers(cs), n)) == Homed(ts, cs, n)
  {
    if n == 0 {
      EmptyMembershipTotal(cs);
      assert RebuildMembers(ts, EmptyMembers(cs), n) == EmptyMembers(cs);
    } else {
      RebuildCountsHomed(ts, cs, n - 1);
      RebuildStep(ts, cs, n);
    }
  }

  /** Re-adding the n-th territory adds one membership exactly when its continent exists. */
  lemma RebuildStep(ts: seq<Territory>, cs: seq<Continent>, n: nat)
    requires 0 < n <= |ts|
    ensures MembershipTotal(RebuildMembers(ts, EmptyMembers(cs), n))
      == MembershipTotal(RebuildMembers(ts, EmptyMembers(cs), n - 1)) + (if HasContinent(cs, ts[n - 1].continent) then 1 else 0)
  {
    var before := RebuildMembers(ts, EmptyMembers(cs), n - 1);
    var name, home := ts[n - 1].name, ts[n - 1].continent;
    SameNamesSameFind(before, cs, home);
    assert FindTerritory(ts, name).Some? by {
      assert ts[n - 1].name == name;
    }
    assert HasContinent(cs, home) <==> FindContinent(cs, home).Some?;
    var after := RebuildMembers(ts, EmptyMembers(cs), n);
    assert after == AddToContinent(ts, before, name, home);
    if FindContinent(before, home).Some? {
      var c, t := FindContinent(before, home).value, FindTerritory(ts, name).value;
      assert after == before[c := before[c].(members := before[c].members + [t])];
      MembershipTotalGrows(before, c, t);
    } else {
      assert after == before;
    }
  }

  lemma {:induction false} AllHomed(ts: seq<Territory>, cs: seq<Continent>, n: nat)
    requires n <= |ts|
    ensures Homed(ts, cs, n) == n <==> forall i :: 0 <= i < n ==> HasContinent(cs, ts[i].continent)
  {
    if n > 0 {
      AllHomed(ts, cs, n - 1);
    }
  }

  /**
   * A copy that keeps each territory's adjacency (as the copy constructor
   * evidently intends) passes Map::validate exactly when the original has
   * territories, passes the degree check, and every territory's continent is
   * one of the map's continents.
   */
  lemma CopyKeepingAdjacencyValid(ts: seq<Territory>, cs: seq<Continent>)
    ensures IsValid(ts, RebuildMembers(ts, EmptyMembers(cs), |ts|)) <==>
      |ts| > 0 && DegreesMatch(ts) && forall i :: 0 <= i < |ts| ==> HasContinent(cs, ts[i].continent)
  {
    RebuildCountsHomed(ts, cs, |ts|);
    AllHomed(ts, cs, |ts|);
  }

  // ----- the Map object -----

  class Map {
    var territories: seq<Territory>
    var continents: seq<Continent>

    constructor ()
      ensures territories == [] && continents == []
    {
      territories := [];
      continents := [];
    }

    /**
     * Map's copy constructor as evidently intended: every territory copied
     * with its adjacency (indices name the copies), continents copied empty and
     * refilled by addTerritoryToContinent in territory order. The source's
     * copy, which loses the adjacency, is CopiedTerritories.
     */
    constructor Copy(other: Map)
      ensures territories == other.territories
      ensures continents == RebuildMembers(territories, EmptyMembers(other.continents), |territories|)
    {
      var ts := other.territories;
      var cs := EmptyMembers(other.continents);
      ghost var empty := cs;
      var i := 0;
      while i < |ts|
        invariant 0 <= i <= |ts|
        invariant cs == RebuildMembers(ts, empty, i)
      {
        assert RebuildMembers(ts, empty, i + 1) == AddToContinent(ts, cs, ts[i].name, ts[i].continent);
        cs := AddToContinent(ts, cs, ts[i].name, ts[i].continent);
        i := i + 1;
      }
      territories := ts;
      continents := cs;
    }

    /** Map::addTerritory: a new territory with no armies, no owner and no adjacency. */
    method AddTerritory(name: string, continent: string)
      modifies this
      ensures territories == old(territories) + [Territory(name, 0, None, continent, [])]
      ensures continents == old(continents)
    {
      territories := territories + [Territory(name, 0, None, continent, [])];
    }

    /** Map::setTerritoryOwner on one of the map's territories (Territory::setOwner). */
    method SetTerritoryOwner(t: nat, owner: Option<PlayerId>)
      requires t < |territories|
      modifies this
      ensures territories == old(territories)[t := old(territories)[t].(owner := owner)]
      ensures continents == old(continents)
    {
      territories := territories[t := territories[t].(owner := owner)];
    }

    /** Territory::setArmies on one of the map's territories. */
    method SetArmies(t: nat, armies: int)
      requires t < |territories|
      modifies this
      ensures territories == old(territories)[t := old(territories)[t].(armies := armies)]
      ensures continents == old(continents)
    {
      territories := territories[t := territories[t].(armies := armies)];
    }

    /** Map::addContinent: a new continent with no members. */
    method AddContinent(bonus: int, name: string)
      modifies this
      ensures continents == old(continents) + [Continent(name, bonus, [])]
      ensures territories == old(territories)
    {
      continents := continents + [Continent(name, bonus, [])];
    }

    method AddTerritoryToContinent(territory: string, continent: string)
      modifies this
      ensures continents == AddToContinent(territories, old(continents), territory, continent)
      ensures territories == old(territories)
    {
      var t := FindTerritory(territories, territory);
      if t.None? {
        return;
      }
      var j := 0;
      while j < |continents|
        invariant 0 <= j <= |continents|
        invariant forall k :: 0 <= k < j ==> continents[k].name != continent
        invariant continents == old(continents)
      {
        if continents[j].name == continent {
          continents := continents[j := continents[j].(members := continents[j].members + [t.value])];
          return;
        }
        j := j + 1;
      }
    }

    /**
     * Map::associateTerritories: the placeholder adjacency read for each
     * territory (here its names) replaced by the first territory of that name.
     */
    method AssociateTerritories(names: seq<seq<string>>)
      requires |names| == |territories|
      modifies this
      ensures territories == Associated(old(territories), names)
      ensures continents == old(continents)
    {
      var ts := territories;
      var i := 0;
      while i < |ts|
        invariant 0 <= i <= |ts|
        invariant |territories| == |ts| && continents == old(continents)
        invariant forall k :: 0 <= k < i ==> territories[k] == ts[k].(adjacent := ResolveAdjacency(ts, names[k]))
        invariant forall k :: i <= k < |ts| ==> territories[k] == ts[k]
      {
        var resolved := ResolveNames(ts, names[i]);
        territories := territories[i := ts[i].(adjacent := resolved)];
        i := i + 1;
      }
    }

    /** Map::validate, with the nested counting loops of the source. */
    method Validate() returns (valid: bool)
      ensures valid == IsValid(territories, continents)
    {
      var n := |territories|;
      if n == 0 {
        return false;
      }
      var visited := new nat[n](_ => 0);
      var i := 0;
      while i < n
        invariant 0 <= i <= n
        invariant forall k :: 0 <= k < n ==> visited[k] == InDegreeUpTo(territories, i, k)
      {
        var adjacent := territories[i].adjacent;
        var j := 0;
        while j < |adjacent|
          invariant 0 <= j <= |adjacent|
          invariant forall k :: 0 <= k < n ==> visited[k] == InDegreeUpTo(territories, i, k) + Occurrences(adjacent[..j], k)
        {
          // the search for the territory this entry points at finds its index, if it is one of the map's
          var a := adjacent[j];
          if a < n {
            visited[a] := visited[a] + 1;
          }
          assert adjacent[..j + 1][..j] == adjacent[..j];
          j := j + 1;
        }
        assert adjacent[..|adjacent|] == adjacent;
        i := i + 1;
      }
      var l := 0;
      while l < n
        invariant 0 <= l <= n
        invariant forall m :: 0 <= m < n ==> visited[m] == InDegree(territories, m)
        invariant forall m :: 0 <= m < l ==> InDegree(territories, m) == |territories[m].adjacent| && InDegree(territories, m) != 0
      {
        if visited[l] != |territories[l].adjacent| || visited[l] == 0 {
          return false;
        }
        l := l + 1;
      }
      var total := 0;
      var c := 0;
      while c < |continents|
        invariant 0 <= c <= |continents|
        invariant total == MembershipTotal(continents[..c])
      {
        assert continents[..c + 1][..c] == continents[..c];
        total := total + |continents[c].members|;
        c := c + 1;
      }
      assert continents[..|continents|] == continents;
      valid := total == n;
    }

    /** Map::continentRewards, with the source's flag loop. */
    method ContinentRewards(p: PlayerId) returns (reinforcements: int)
      requires MembersOnMap(territories, continents)
      ensures reinforcements == Rewards(territories, continents, p)
    {
      reinforcements := 0;
      var i := 0;
      while i < |continents|
        invariant 0 <= i <= |continents|
        invariant reinforcements == Rewards(territories, continents[..i], p)
      {
        var members := continents[i].members;
        var condition := true;
        var j := 0;
        while j < |members|
          invariant 0 <= j <= |members|
          invariant condition <==> forall m :: 0 <= m < j ==> territories[members[m]].owner == Some(p)
        {
          if territories[members[j]].owner != Some(p) {
            condition := false;
          }
          j := j + 1;
        }
        assert continents[..i + 1][..i] == continents[..i];
        if condition {
          reinforcements := reinforcements + continents[i].bonus;
        }
        i := i + 1;
      }
      assert continents[..|continents|] == continents;
    }
  }
}
