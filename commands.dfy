/**
 * The command processor: parsing one console or file line into a command,
 * the table of game states in which each command may be given, and the
 * history of the commands read so far. The game states are those of the
 * game engine, which walks through them as the accepted commands arrive.
 */
module Commands {
  import opened Wrappers
  import opened Text

  /** Game::GameState. */
  datatype GameState =
    | Start
    | MapLoaded
    | MapValidated
    | PlayersAdded
    | FirstReinforcements
    | AssignReinforcements
    | IssueOrders
    | ExecuteOrders
    | Win
    | Tournament

  /** The seven command words the parser knows. */
  datatype Keyword = LoadMap | ValidateMap | AddPlayer | GameStart | Replay | Quit | TournamentMode

  function Spelling(k: Keyword): (s: string)
    ensures s != [] && forall i :: 0 <= i < |s| ==> !IsSpace(s[i])
  {
    match k
    case LoadMap => "loadmap"
    case ValidateMap => "validatemap"
    case AddPlayer => "addplayer"
    case GameStart => "gamestart"
    case Replay => "replay"
    case Quit => "quit"
    case TournamentMode => "tournament"
  }

  /** The keyword a word spells, if any. */
  function KeywordOf(word: string): (r: Option<Keyword>)
    ensures r.Some? ==> Spelling(r.value) == word
  {
    if word == "loadmap" then Some(LoadMap)
    else if word == "validatemap" then Some(ValidateMap)
    else if word == "addplayer" then Some(AddPlayer)
    else if word == "gamestart" then Some(GameStart)
    else if word == "replay" then Some(Replay)
    else if word == "quit" then Some(Quit)
    else if word == "tournament" then Some(TournamentMode)
    else None
  }

  /** Every keyword is read back from its own spelling. */
  lemma KeywordOfSpelling(k: Keyword)
    ensures KeywordOf(Spelling(k)) == Some(k)
  {
  }

  /** loadmap, addplayer and tournament take the rest of the line as their argument. */
  predicate TakesArgument(k: Keyword) {
    k == LoadMap || k == AddPlayer || k == TournamentMode
  }

  /** A Command: its word, its argument when it takes one, and the effect validation wrote. */
  datatype Command = Command(keyword: Keyword, argument: Option<string>, effect: Option<string>)

  const NoCommand: string := "No command received"
  const RequiresArgument: string := "Command requires an argument"
  const UnknownCommand: string := "Unknown command"

  /** The length of the leading run of non-whitespace: what `stream >> word` takes. */
  function WordLength(s: string): (n: nat)
    ensures n <= |s|
    ensures forall k :: 0 <= k < n ==> !IsSpace(s[k])
    ensures n < |s| ==> IsSpace(s[n])
  {
    if s == [] || IsSpace(s[0]) then 0 else 1 + WordLength(s[1..])
  }

  /**
   * CommandProcessor::parseCommand. The line is trimmed and its first word
   * read; validatemap, gamestart, replay and quit ignore what follows it,
   * loadmap, addplayer and tournament take the trimmed text up to the next
   * newline as their argument, and anything else is refused. The results
   * are the exception messages of the source.
   */
  function ParseCommand(line: string): (r: Result<Command, string>)
    ensures r.Err? ==> r.error in {NoCommand, RequiresArgument, UnknownCommand}
    ensures r.Ok? ==> r.value.effect.None?
    ensures r.Ok? ==> (r.value.argument.Some? <==> TakesArgument(r.value.keyword))
    ensures r.Ok? && r.value.argument.Some? ==> var a := r.value.argument.value;
      a != [] && !IsSpace(a[0]) && !IsSpace(a[|a| - 1]) && '\n' !in a
  {
    var t := Trim(line);
    if t == [] then Err(NoCommand)
    else
      var word := t[..WordLength(t)];
      match KeywordOf(word)
      case None => Err(UnknownCommand)
      case Some(k) =>
        if !TakesArgument(k) then Ok(Command(k, None, None))
        else
          var rest := t[WordLength(t)..];
          var argument := Trim(rest[..IndexOf(rest, '\n')]);
          TrimEnds(rest[..IndexOf(rest, '\n')]);
          if argument == [] then Err(RequiresArgument) else Ok(Command(k, Some(argument), None))
  }

  /** The trimmed text has whitespace at neither end and is a piece of the text. */
  lemma TrimEnds(s: string)
    ensures var t := Trim(s); t == [] || (!IsSpace(t[0]) && !IsSpace(t[|t| - 1]))
    ensures forall c :: c in Trim(s) ==> c in s
  {
    TrimIsSlice(s);
  }

  /** Only the trimmed text matters: a line is blank exactly when trimming leaves nothing. */
  lemma TrimEmptyIffBlank(s: string)
    ensures Trim(s) == [] <==> AllSpace(s)
  {
    var i := LeadingSpace(s);
    var j := TrailingSpace(s, i);
    if Trim(s) == [] {
      assert i == j;
      assert forall k :: 0 <= k < |s| ==> IsSpace(s[k]);
    }
  }

  /** A blank or whitespace-only line, and only such a line, gives "No command received". */
  lemma ParseBlank(line: string)
    ensures ParseCommand(line) == Err(NoCommand) <==> AllSpace(line)
  {
    TrimEmptyIffBlank(line);
  }

  /**
   * A line that starts with a word followed by whitespace or nothing: after
   * trimming the word still comes first and is what `>> word` reads; the
   * text after it is trimmed away when it is blank and kept whole when it
   * ends in a visible character.
   */
  lemma {:induction false} TrimAfterWord(a: string, b: string)
    requires a != [] && forall k :: 0 <= k < |a| ==> !IsSpace(a[k])
    requires b == [] || IsSpace(b[0])
    ensures var t := Trim(a + b);
      && |a| <= |t| && t[..|a|] == a && WordLength(t) == |a|
      && (AllSpace(b) ==> t == a)
      && (b != [] && !IsSpace(b[|b| - 1]) ==> t == a + b)
  {
    var s := a + b;
    assert s[0] == a[0];
    var i := LeadingSpace(s);
    assert i == 0;
    var j := TrailingSpace(s, 0);
    assert s[|a| - 1] == a[|a| - 1];
    assert |a| <= j;
    var t := Trim(a + b);
    assert t == s[..j];
    assert t[..|a|] == a;
    assert forall k :: 0 <= k < |a| ==> t[k] == a[k];
    assert |a| < |t| ==> t[|a|] == b[0];
    assert j > |a| ==> s[j - 1] == b[j - 1 - |a|];
    assert b != [] ==> s[|s| - 1] == b[|b| - 1];
  }

  /** validatemap, gamestart, replay and quit ignore whatever follows them on the line. */
  lemma ParseBare(k: Keyword, tail: string)
    requires !TakesArgument(k)
    requires tail == [] || IsSpace(tail[0])
    ensures ParseCommand(Spelling(k) + tail) == Ok(Command(k, None, None))
  {
    TrimAfterWord(Spelling(k), tail);
    KeywordOfSpelling(k);
    var t := Trim(Spelling(k) + tail);
    assert t[..WordLength(t)] == Spelling(k);
  }

  /** loadmap, addplayer and tournament with nothing but whitespace after them are refused. */
  lemma ParseMissingArgument(k: Keyword, tail: string)
    requires TakesArgument(k)
    requires AllSpace(tail)
    ensures ParseCommand(Spelling(k) + tail) == Err(RequiresArgument)
  {
    TrimAfterWord(Spelling(k), tail);
    KeywordOfSpelling(k);
    var t := Trim(Spelling(k) + tail);
    assert t == Spelling(k);
    assert t[WordLength(t)..] == [];
    assert IndexOf([], '\n') == 0;
    assert Trim([]) == [];
  }

  /**
   * Writing a command with an argument as `word argument` and parsing the
   * line gives the command back, for every argument the parser can produce.
   */
  lemma ParseWithArgument(k: Keyword, argument: string)
    requires TakesArgument(k)
    requires argument != [] && !IsSpace(argument[0]) && !IsSpace(argument[|argument| - 1]) && '\n' !in argument
    ensures ParseCommand(Spelling(k) + " " + argument) == Ok(Command(k, Some(argument), None))
  {
    var b := " " + argument;
    assert Spelling(k) + " " + argument == Spelling(k) + b;
    assert b[|b| - 1] == argument[|argument| - 1];
    TrimAfterWord(Spelling(k), b);
    KeywordOfSpelling(k);
    var t := Trim(Spelling(k) + b);
    assert t[..WordLength(t)] == Spelling(k);
    assert t[WordLength(t)..] == b;
    NoNewlineAfterSpace(argument);
    assert b[..IndexOf(b, '\n')] == b;
    TrimSpaceThen(argument);
  }

  lemma NoNewlineAfterSpace(argument: string)
    requires '\n' !in argument
    ensures IndexOf(" " + argument, '\n') == |" " + argument|
  {
    var b := " " + argument;
    assert forall i :: 1 <= i < |b| ==> b[i] == argument[i - 1] && argument[i - 1] in argument;
  }

  lemma TrimSpaceThen(argument: string)
    requires argument != [] && !IsSpace(argument[0]) && !IsSpace(argument[|argument| - 1])
    ensures Trim(" " + argument) == argument
  {
    var b := " " + argument;
    assert b[1..] == argument;
    assert LeadingSpace(b[1..]) == 0;
    assert LeadingSpace(b) == 1;
    assert b[|b| - 1] == argument[|argument| - 1];
    assert TrailingSpace(b, 1) == |b|;
  }

  /** A first word that is not one of the seven command words gives "Unknown command". */
  lemma ParseUnknown(word: string, tail: string)
    requires word != [] && forall k :: 0 <= k < |word| ==> !IsSpace(word[k])
    requires KeywordOf(word).None?
    requires tail == [] || IsSpace(tail[0])
    ensures ParseCommand(word + tail) == Err(UnknownCommand)
  {
    TrimAfterWord(word, tail);
    var t := Trim(word + tail);
    assert t[..WordLength(t)] == word;
  }

  /** The states in which each command may be given. */
  function LegalStates(k: Keyword): (r: seq<GameState>)
    ensures r != []
  {
    match k
    case LoadMap => [Start, MapLoaded]
    case ValidateMap => [MapLoaded]
    case AddPlayer => [MapValidated, PlayersAdded]
    case GameStart => [PlayersAdded]
    case Replay => [Win]
    case Quit => [Win]
    case TournamentMode => [Start]
  }

  /** No command is accepted while a game is being played. */
  lemma NothingLegalDuringPlay(k: Keyword, s: GameState)
    requires s in {FirstReinforcements, AssignReinforcements, IssueOrders, ExecuteOrders, Tournament}
    ensures s !in LegalStates(k)
  {
  }

  /** Once the game is won, replay and quit are the only commands accepted. */
  lemma OnlyReplayOrQuitAfterWin(k: Keyword)
    ensures Win in LegalStates(k) <==> k in {Replay, Quit}
  {
  }

  /** The effect CommandProcessor::validate writes: the command and its argument, or a refusal. */
  function Effect(c: Command, legal: bool): (e: string)
    ensures legal ==> "Command valid: " <= e
    ensures !legal ==> e == "Command is invalid in the current state"
  {
    if legal then
      "Command valid: " + Spelling(c.keyword) + " " + (if c.argument.Some? then c.argument.value else "")
    else "Command is invalid in the current state"
  }

  /** A CommandProcessor holds the history of the commands read, oldest first. */
  class CommandProcessor {
    var commands: seq<Command>

    constructor ()
      ensures commands == []
    {
      commands := [];
    }

    /** CommandProcessor::saveCommand: the command goes to the end of the history. */
    method SaveCommand(c: Command)
      modifies this
      ensures commands == old(commands) + [c]
    {
      commands := commands + [c];
    }

    /**
     * CommandProcessor::getCommand on the line readCommand obtained: the
     * parsed command is saved and returned; a parse failure propagates
     * before anything is saved.
     */
    method GetCommand(line: string) returns (r: Result<Command, string>)
      modifies this
      ensures r == ParseCommand(line)
      ensures r.Ok? ==> commands == old(commands) + [r.value]
      ensures r.Err? ==> commands == old(commands)
    {
      r := ParseCommand(line);
      if r.Ok? {
        SaveCommand(r.value);
      }
    }

    /**
     * CommandProcessor::validate: whether the state is one the last command
     * may be given in. The last command records the verdict as its effect;
     * the history keeps its length and its other entries.
     */
    method Validate(state: GameState) returns (legal: bool)
      requires commands != []
      modifies this
      ensures legal <==> state in LegalStates(old(commands)[|old(commands)| - 1].keyword)
      ensures |commands| == |old(commands)|
      ensures commands[..|commands| - 1] == old(commands)[..|commands| - 1]
      ensures var c := old(commands)[|old(commands)| - 1];
        commands[|commands| - 1] == c.(effect := Some(Effect(c, legal)))
    {
      var c := commands[|commands| - 1];
      legal := state in LegalStates(c.keyword);
      commands := commands[|commands| - 1 := c.(effect := Some(Effect(c, legal)))];
    }
  }
}
