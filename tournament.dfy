/**
 * The argument of the `tournament` command, checked the way the Tournament
 * constructor checks it: eight space-separated tokens, of which the 2nd,
 * 4th, 6th and 8th are the map list, the strategy list, the number of games
 * and the number of turns. The flag tokens between them are not looked at.
 */
module Tournaments {
  import opened Wrappers
  import opened Text
  import opened Players
  import opened Board
  import opened MapLoader

  /** What a tournament is set up with, once every check has passed. */
  datatype Setup = Setup(maps: seq<string>, strategies: seq<Strategy>, games: int, turns: int)

  /**
   * Why the constructor gave up: an exception with a message, or the
   * ParsingException a map file raised (`file` is the map's name).
   */
  datatype Refusal = Invalid(message: string) | Unreadable(file: string, error: ParseError)

  /**
   * A map file that a fresh MapLoader parses and whose map validates.
   * `text` is the content of the file; a file that cannot be opened reads
   * as empty text.
   */
  predicate MapAccepted(text: string) {
    var p := ParseText(NoSection, text);
    p.1.Ok? && IsValid(Resolve(p.1.value), p.1.value.continents)
  }

  /** Loading the maps one by one: the first that fails to parse or to validate stops the constructor. */
  function LoadMaps(names: seq<string>, files: string -> string): (r: Option<Refusal>)
    ensures r.None? <==> forall k :: 0 <= k < |names| ==> MapAccepted(files(names[k]))
    ensures r.Some? && r.value.Invalid? ==> r.value.message == "Invalid map loaded"
  {
    if names == [] then None
    else
      var p := ParseText(NoSection, files(names[0]));
      if p.1.Err? then Some(Unreadable(names[0], p.1.error))
      else if !IsValid(Resolve(p.1.value), p.1.value.continents) then Some(Invalid("Invalid map loaded"))
      else LoadMaps(names[1..], files)
  }

  /** The strategy each player name of the command stands for. */
  function StrategyNamed(name: string): (r: Option<Strategy>)
    ensures r.Some? ==> StrategyName(r.value) == name
  {
    if name == "human" then Some(Human)
    else if name == "aggressive" then Some(Aggressive)
    else if name == "benevolent" then Some(Benevolent)
    else if name == "neutral" then Some(Neutral)
    else if name == "cheater" then Some(Cheater)
    else None
  }

  function StrategyName(s: Strategy): (name: string)
    ensures name != [] && ' ' !in name && ',' !in name
  {
    match s
    case Human => "human"
    case Aggressive => "aggressive"
    case Benevolent => "benevolent"
    case Neutral => "neutral"
    case Cheater => "cheater"
  }

  /** Every strategy is read back from its own name. */
  lemma StrategyNamedName(s: Strategy)
    ensures StrategyNamed(StrategyName(s)) == Some(s)
  {
  }

  /** The player list: each name must be a strategy; the first that is not is reported. */
  function StrategiesNamed(names: seq<string>): (r: Result<seq<Strategy>, string>)
    ensures r.Ok? ==> |r.value| == |names| && forall k :: 0 <= k < |names| ==> StrategyNamed(names[k]) == Some(r.value[k])
    ensures r.Err? <==> exists k :: 0 <= k < |names| && StrategyNamed(names[k]).None?
    ensures r.Err? ==> exists k :: 0 <= k < |names| && StrategyNamed(names[k]).None? && r.error == "Invalid strategy " + names[k]
  {
    if names == [] then Ok([])
    else
      match StrategyNamed(names[0])
      case None => Err("Invalid strategy " + names[0])
      case Some(s) =>
        match StrategiesNamed(names[1..])
        case Err(e) => Err(e)
        case Ok(rest) => Ok([s] + rest)
  }

  /** std::stoi(token, 0, 10), whose failure throws with the message "stoi". */
  function Number(token: string): (r: Result<int, Refusal>)
    ensures r.Err? ==> r.error == Invalid("stoi")
    ensures r.Ok? <==> Stoi(token).Some?
  {
    match Stoi(token)
    case None => Err(Invalid("stoi"))
    case Some(v) => Ok(v)
  }

  /** The player list token: one to four strategy names separated by commas. */
  function PlayersToken(token: string): (r: Result<seq<Strategy>, Refusal>)
    ensures r.Ok? ==> 1 <= |r.value| <= 4
  {
    var names := Split(token, ',');
    if |names| > 4 || |names| < 1 then Err(Invalid("Invalid number of players"))
    else
      match StrategiesNamed(names)
      case Err(e) => Err(Invalid(e))
      case Ok(strategies) => Ok(strategies)
  }

  /** The number of games, then the number of turns, each read by std::stoi and range-checked. */
  function NumbersTokens(games: string, turns: string): (r: Result<(int, int), Refusal>)
    ensures r.Ok? ==> 1 <= r.value.0 <= 5 && 10 <= r.value.1 <= 50
  {
    match Number(games)
    case Err(e) => Err(e)
    case Ok(g) =>
      if g < 1 || g > 5 then Err(Invalid("Invalid number of games"))
      else
        match Number(turns)
        case Err(e) => Err(e)
        case Ok(t) =>
          if t < 10 || t > 50 then Err(Invalid("Invalid number of games"))
          else Ok((g, t))
  }

  /**
   * The Tournament constructor's checks, in the order the source makes them,
   * with `files` giving the text of each map file; the result is the first
   * exception, or the setup. Both range checks on numbers report "Invalid
   * number of games", as the source does.
   */
  function ParseTournament(argument: string, files: string -> string): (r: Result<Setup, Refusal>)
    ensures r.Ok? ==> 1 <= |r.value.maps| <= 5 && 1 <= |r.value.strategies| <= 4
    ensures r.Ok? ==> 1 <= r.value.games <= 5 && 10 <= r.value.turns <= 50
    ensures r.Ok? ==> forall k :: 0 <= k < |r.value.maps| ==> MapAccepted(files(r.value.maps[k]))
    ensures |Split(argument, ' ')| != 8 ==> r == Err(Invalid("Invalid command argument"))
  {
    var tokens := Split(argument, ' ');
    if |tokens| != 8 then Err(Invalid("Invalid command argument"))
    else
      var maps := Split(tokens[1], ',');
      if |maps| > 5 || |maps| < 1 then Err(Invalid("Invalid number of maps"))
      else
        match LoadMaps(maps, files)
        case Some(e) => Err(e)
        case None =>
          match PlayersToken(tokens[3])
          case Err(e) => Err(e)
          case Ok(strategies) =>
            match NumbersTokens(tokens[5], tokens[7])
            case Err(e) => Err(e)
            case Ok((games, turns)) => Ok(Setup(maps, strategies, games, turns))
  }

  /** The names of a list of strategies. */
  function StrategyNames(ss: seq<Strategy>): (r: seq<string>)
    ensures |r| == |ss| && forall k :: 0 <= k < |ss| ==> r[k] == StrategyName(ss[k])
  {
    if ss == [] then [] else [StrategyName(ss[0])] + StrategyNames(ss[1..])
  }

  /** The command argument that describes a setup, with the flags of the documented syntax. */
  function Argument(s: Setup): string
    requires s.games >= 0 && s.turns >= 0
  {
    Join(["-M", Join(s.maps, ','), "-P", Join(StrategyNames(s.strategies), ','),
          "-G", DecimalString(s.games), "-D", DecimalString(s.turns)], ' ')
  }

  /** A setup the constructor accepts, with map names it can split apart again and map files that load. */
  predicate Acceptable(s: Setup, files: string -> string) {
    && 1 <= |s.maps| <= 5 && 1 <= |s.strategies| <= 4
    && 1 <= s.games <= 5 && 10 <= s.turns <= 50
    && (forall k :: 0 <= k < |s.maps| ==> s.maps[k] != [] && ' ' !in s.maps[k] && ',' !in s.maps[k])
    && forall k :: 0 <= k < |s.maps| ==> MapAccepted(files(s.maps[k]))
  }

  /** Joining pieces none of which holds c gives text without c. */
  lemma {:induction false} JoinAvoids(pieces: seq<string>, d: char, c: char)
    requires c != d
    requires forall k :: 0 <= k < |pieces| ==> c !in pieces[k]
    ensures c !in Join(pieces, d)
    decreases |pieces|
  {
    if |pieces| > 1 {
      JoinAvoids(pieces[1..], d, c);
      assert c !in pieces[0];
    }
  }

  /** A list of pieces free of d, the last one non-empty, is split back into itself. */
  lemma SplitsBack(pieces: seq<string>, d: char)
    requires pieces != [] && pieces[|pieces| - 1] != []
    requires forall k :: 0 <= k < |pieces| ==> d !in pieces[k]
    ensures Split(Join(pieces, d), d) == pieces
  {
    forall k, m | 0 <= k < |pieces| && 0 <= m < |pieces[k]|
      ensures pieces[k][m] != d
    {
      assert pieces[k][m] in pieces[k];
    }
    JoinSplit(pieces, d);
  }

  lemma NumberOfDecimal(v: nat)
    requires v <= IntMax
    ensures Number(DecimalString(v)) == Ok(v)
  {
    ReadIntOfDecimal(v, []);
    assert DecimalString(v) + [] == DecimalString(v);
  }

  lemma DecimalAvoids(v: nat, c: char)
    requires !IsDigit(c)
    ensures c !in DecimalString(v)
  {
    var ds := DecimalString(v);
    assert forall k :: 0 <= k < |ds| ==> IsDigit(ds[k]);
  }

  /** The argument splits into its eight tokens. */
  lemma ArgumentTokens(s: Setup)
    requires 1 <= |s.maps| && 1 <= s.games && 1 <= s.turns
    requires forall k :: 0 <= k < |s.maps| ==> ' ' !in s.maps[k]
    ensures Split(Argument(s), ' ') ==
      ["-M", Join(s.maps, ','), "-P", Join(StrategyNames(s.strategies), ','), "-G", DecimalString(s.games), "-D", DecimalString(s.turns)]
  {
    var names := StrategyNames(s.strategies);
    JoinAvoids(s.maps, ',', ' ');
    JoinAvoids(names, ',', ' ');
    DecimalAvoids(s.games, ' ');
    DecimalAvoids(s.turns, ' ');
    var tokens := ["-M", Join(s.maps, ','), "-P", Join(names, ','), "-G", DecimalString(s.games), "-D", DecimalString(s.turns)];
    SplitsBack(tokens, ' ');
  }

  /** A written-out list of strategies passes the player checks. */
  lemma PlayersTokenOf(ss: seq<Strategy>)
    requires 1 <= |ss| <= 4
    ensures PlayersToken(Join(StrategyNames(ss), ',')) == Ok(ss)
  {
    var names := StrategyNames(ss);
    SplitsBack(names, ',');
    StrategiesNamedBack(ss);
  }

  /** Written-out numbers in range pass the number checks. */
  lemma NumbersTokensOf(games: nat, turns: nat)
    requires 1 <= games <= 5 && 10 <= turns <= 50
    ensures NumbersTokens(DecimalString(games), DecimalString(turns)) == Ok((games, turns))
  {
    NumberOfDecimal(games);
    NumberOfDecimal(turns);
  }

  /**
   * The argument written for an acceptable setup is accepted, and gives the
   * setup back: the checks refuse nothing they should let through.
   */
  lemma ArgumentAccepted(s: Setup, files: string -> string)
    requires Acceptable(s, files)
    ensures ParseTournament(Argument(s), files) == Ok(s)
  {
    ArgumentTokens(s);
    SplitsBack(s.maps, ',');
    PlayersTokenOf(s.strategies);
    NumbersTokensOf(s.games, s.turns);
    TokensAccepted(Argument(s), s, files);
  }

  /** The constructor accepts an argument whose eight tokens each pass their check. */
  lemma TokensAccepted(argument: string, s: Setup, files: string -> string)
    requires Acceptable(s, files)
    requires var tokens := Split(argument, ' ');
      && |tokens| == 8 && Split(tokens[1], ',') == s.maps
      && PlayersToken(tokens[3]) == Ok(s.strategies)
      && NumbersTokens(tokens[5], tokens[7]) == Ok((s.games, s.turns))
    ensures ParseTournament(argument, files) == Ok(s)
  {
  }

  lemma {:induction false} StrategiesNamedBack(ss: seq<Strategy>)
    ensures StrategiesNamed(StrategyNames(ss)) == Ok(ss)
  {
    if ss != [] {
      StrategyNamedName(ss[0]);
      StrategiesNamedBack(ss[1..]);
      assert StrategyNames(ss)[1..] == StrategyNames(ss[1..]);
      assert [ss[0]] + ss[1..] == ss;
    }
  }
}
