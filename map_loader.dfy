/**
 * MapLoader::parse (Map.cpp): the INI-like map format. A file is a list of
 * lines; blank lines are skipped, `[Map]`, `[Continents]` and
 * `[Territories]` open sections, and every other line is a value of the
 * current section. The first bad line aborts parsing with its 0-indexed
 * line number.
 */
module MapLoader {
  import opened Wrappers
  import opened Text
  import opened Board

  datatype Section = NoSection | MapInfo | ContinentList | TerritoryList

  /** ParsingException: the 0-indexed line and the reason. */
  datatype ParseError = ParseError(line: nat, reason: string)

  /** A line of the [Territories] section. */
  datatype TerritoryEntry = TerritoryEntry(name: string, x: int, y: int, continent: string, adjacent: seq<string>)

  /**
   * The map while it is being read: territories and continents as added so
   * far, and for each territory the adjacency names read for it, which stay
   * placeholders until they are resolved at the end.
   */
  datatype Draft = Draft(territories: seq<Territory>, continents: seq<Continent>, adjacency: seq<seq<string>>)

  predicate Shaped(d: Draft) {
    && |d.adjacency| == |d.territories|
    && (forall i :: 0 <= i < |d.territories| ==> d.territories[i].owner.None?)
    && (forall c, m :: 0 <= c < |d.continents| && 0 <= m < |d.continents[c].members| ==> d.continents[c].members[m] < |d.territories|)
  }

  const EmptyDraft := Draft([], [], [])

  // ----- the line readers of parse -----

  /**
   * getUntil(c) on the unread text s: a non-empty piece before the next c,
   * and the text after that c.
   */
  function GetUntil(s: string, c: char): (r: Result<(string, string), string>)
    ensures r.Ok? ==> r.value.0 != [] && c !in r.value.0 && s == r.value.0 + [c] + r.value.1
    ensures r.Err? <==> c !in s || s[0] == c
    ensures r.Err? ==> r.error == (if c in s then "Expected something before delimiter `" + [c] + "`" else "Expected delimiter `" + [c] + "`")
  {
    var i := IndexOf(s, c);
    if i == |s| then Err("Expected delimiter `" + [c] + "`")
    else if i == 0 then Err("Expected something before delimiter `" + [c] + "`")
    else
      assert s == s[..i] + [c] + s[i + 1..];
      Ok((s[..i], s[i + 1..]))
  }

  /** getRest(): the non-empty rest of the line. */
  function GetRest(s: string): (r: Result<string, string>)
    ensures r.Ok? <==> s != []
    ensures r.Ok? ==> r.value == s
  {
    if s == [] then Err("Unexpected end of line") else Ok(s)
  }

  /** expectCharacter(c): the next non-blank character must be c; the text after it. */
  function ExpectCharacter(s: string, c: char): (r: Result<string, string>)
    ensures r.Ok? ==> |r.value| < |s| && s[|s| - |r.value| - 1] == c && r.value == s[|s| - |r.value|..]
    ensures r.Ok? ==> AllSpace(s[..|s| - |r.value| - 1])
    ensures AllSpace(s) ==> r == Err("Expected `" + [c] + "` found end of line")
  {
    match ReadChar(s)
    case None => Err("Expected `" + [c] + "` found end of line")
    case Some((found, rest)) =>
      if found != c then Err("Expected `" + [c] + "` found `" + [found] + "`")
      else
        assert |s| - |rest| - 1 == LeadingSpace(s);
        Ok(rest)
  }

  /** A [Map] line: `key=value` with a known key and, for wrap, scroll and warn, a known value. */
  function MapEntryError(line: string): (r: Option<string>)
  {
    match GetUntil(line, '=')
    case Err(e) => Some(e)
    case Ok((key, rest)) =>
      match GetRest(rest)
      case Err(e) => Some(e)
      case Ok(value) =>
        if key == "image" || key == "author" then None
        else if key == "wrap" then
          if value == "yes" || value == "no" then None else Some("Unexpected value for `wrap`")
        else if key == "scroll" then
          if value == "horizontal" || value == "vertical" || value == "none" then None
          else Some("Unexpected value for `scroll`")
        else if key == "warn" then
          if value == "yes" || value == "no" then None else Some("Unexpected value for `warn`")
        else Some("Unexpected key for `[Map]` section")
  }

  /** A [Continents] line: `name=armies` with nothing after the number. */
  function ContinentLine(line: string): (r: Result<Continent, string>)
    ensures r.Ok? ==> r.value.members == [] && r.value.name != [] && '=' !in r.value.name
    ensures r.Ok? ==> |r.value.name| < |line| && line[..|r.value.name| + 1] == r.value.name + "="
    ensures r.Ok? ==> IntMin <= r.value.bonus <= IntMax
  {
    var (name, rest) :- GetUntil(line, '=');
    assert line[..|name| + 1] == name + "=";
    match ReadInt(rest)
    case None => Err("Expected number of armies after `=`")
    case Some((armies, after)) =>
      if after != [] then Err("Expected end of line after number of armies")
      else Ok(Continent(name, armies, []))
  }

  /** A [Territories] line: `name,x,y,continent,adjacent,...` with at least one adjacent name. */
  function TerritoryLine(line: string): (r: Result<TerritoryEntry, string>)
    ensures r.Ok? ==> r.value.adjacent != [] && r.value.name != [] && r.value.continent != []
    ensures r.Ok? ==> ',' !in r.value.name && ',' !in r.value.continent
    ensures r.Ok? ==> forall k, m :: 0 <= k < |r.value.adjacent| && 0 <= m < |r.value.adjacent[k]| ==> r.value.adjacent[k][m] != ','
  {
    var (name, r1) :- GetUntil(line, ',');
    match ReadInt(r1)
    case None => Err("Expected X coordinate")
    case Some((x, r2)) =>
      var r3 :- ExpectCharacter(r2, ',');
      match ReadInt(r3)
      case None => Err("Expected Y coordinate")
      case Some((y, r4)) =>
        var r5 :- ExpectCharacter(r4, ',');
        var (continent, r6) :- GetUntil(r5, ',');
        var adjacent := Split(r6, ',');
        if adjacent == [] then Err("Expected list of adjacent territories")
        else Ok(TerritoryEntry(name, x, y, continent, adjacent))
  }

  // ----- one line, then the whole file -----

  /**
   * A territory line's effect: addTerritory, addTerritoryToContinent, and its
   * adjacency names appended to the first territory with its name.
   */
  function AddEntry(d: Draft, t: TerritoryEntry): (r: Draft)
    ensures Shaped(d) ==> Shaped(r)
    ensures r.territories == d.territories + [Territory(t.name, 0, None, t.continent, [])]
    ensures r.continents == AddToContinent(r.territories, d.continents, t.name, t.continent)
  {
    var ts := d.territories + [Territory(t.name, 0, None, t.continent, [])];
    assert ts[|ts| - 1].name == t.name;
    var k := FindTerritory(ts, t.name).value;
    var adjacency := d.adjacency + [[]];
    var adjacency' := if k < |adjacency| then adjacency[k := adjacency[k] + t.adjacent] else adjacency;
    Draft(ts, AddToContinent(ts, d.continents, t.name, t.continent), adjacency')
  }

  /** A `[...]` line: the section it opens. */
  function Header(line: string): (r: Result<Section, string>)
    ensures r.Ok? ==> r.value != NoSection
  {
    if line == "[Map]" then Ok(MapInfo)
    else if line == "[Continents]" then Ok(ContinentList)
    else if line == "[Territories]" then Ok(TerritoryList)
    else Err("Unknown section")
  }

  /** A value line's effect on the draft in the current section. */
  function Value(section: Section, d: Draft, line: string): (r: Result<Draft, string>)
    ensures Shaped(d) && r.Ok? ==> Shaped(r.value)
    ensures section == NoSection ==> r == Err("Values started without a section")
  {
    match section
    case NoSection => Err("Values started without a section")
    case MapInfo =>
      (match MapEntryError(line)
       case Some(e) => Err(e)
       case None => Ok(d))
    case ContinentList =>
      var c :- ContinentLine(line);
      Ok(d.(continents := d.continents + [c]))
    case TerritoryList =>
      var t :- TerritoryLine(line);
      Ok(AddEntry(d, t))
  }

  predicate IsHeader(line: string) {
    line != [] && line[0] == '[' && line[|line| - 1] == ']'
  }

  /** The effect of one line, trimmed, in the current section. */
  function Step(section: Section, d: Draft, line: string): (r: Result<(Section, Draft), string>)
    ensures Shaped(d) && r.Ok? ==> Shaped(r.value.1)
  {
    LineEffect(section, d, Trim(line))
  }

  /** The effect of one trimmed line in the current section, or the reason it is rejected. */
  function LineEffect(section: Section, d: Draft, line: string): (r: Result<(Section, Draft), string>)
    ensures Shaped(d) && r.Ok? ==> Shaped(r.value.1)
  {
    if line == [] then Ok((section, d))
    else if IsHeader(line) then
      var next :- Header(line);
      Ok((next, d))
    else
      var d' :- Value(section, d, line);
      Ok((section, d'))
  }

  /** The effect of a line on the loader's section and draft. */
  type LineStep = (Section, Draft, string) -> Result<(Section, Draft), string>

  /**
   * Lines from number `first` on, each handed to `step`, in
   * `section` with `d` read so far: the section in effect at the end (or at
   * the failing line) and the draft, or the error.
   */
  function RunWith(step: LineStep, lines: seq<string>, first: nat, section: Section, d: Draft): (r: (Section, Result<Draft, ParseError>))
    ensures r.1.Err? ==> first <= r.1.error.line < first + |lines|
    decreases |lines|
  {
    if lines == [] then (section, Ok(d))
    else
      var next := step(section, d, lines[0]);
      if next.Err? then (section, Err(ParseError(first, next.error)))
      else RunWith(step, lines[1..], first + 1, next.value.0, next.value.1)
  }

  /** The parse loop of MapLoader::parse. */
  function Run(lines: seq<string>, first: nat, section: Section, d: Draft): (r: (Section, Result<Draft, ParseError>))
  {
    RunWith(Step, lines, first, section, d)
  }

  lemma {:induction false} RunWithKeepsShape(lines: seq<string>, first: nat, section: Section, d: Draft)
    requires Shaped(d)
    ensures RunWith(Step, lines, first, section, d).1.Ok? ==> Shaped(RunWith(Step, lines, first, section, d).1.value)
    decreases |lines|
  {
    if lines != [] {
      var next := Step(section, d, lines[0]);
      if next.Ok? {
        RunWithKeepsShape(lines[1..], first + 1, next.value.0, next.value.1);
      }
    }
  }

  /** The territories of a draft with their adjacency names resolved (associateTerritories). */
  function Resolve(d: Draft): (ts: seq<Territory>)
    requires Shaped(d)
    ensures |ts| == |d.territories|
    ensures forall i :: 0 <= i < |ts| ==> ts[i] == d.territories[i].(adjacent := ResolveAdjacency(d.territories, d.adjacency[i]))
  {
    Associated(d.territories, d.adjacency)
  }

  /** The whole of parse on the text of a map file, starting in `section`. */
  function ParseText(section: Section, text: string): (r: (Section, Result<Draft, ParseError>))
    ensures r.1.Ok? ==> Shaped(r.1.value)
  {
    RunWithKeepsShape(Split(text, '\n'), 0, section, EmptyDraft);
    Run(Split(text, '\n'), 0, section, EmptyDraft)
  }

  // ----- properties -----

  /** Going on from the outcome of a run over earlier lines. */
  function Resume(step: LineStep, earlier: (Section, Result<Draft, ParseError>), lines: seq<string>, first: nat): (Section, Result<Draft, ParseError>) {
    if earlier.1.Err? then earlier else RunWith(step, lines, first, earlier.0, earlier.1.value)
  }

  /** A run over a file is a run over its first k lines followed, if they pass, by a run over the rest. */
  lemma {:induction false} RunSplit(step: LineStep, lines: seq<string>, first: nat, section: Section, d: Draft, k: nat)
    requires k <= |lines|
    ensures RunWith(step, lines, first, section, d) == Resume(step, RunWith(step, lines[..k], first, section, d), lines[k..], first + k)
    decreases k
  {
    if k == 0 {
      assert lines[..k] == [] && lines[k..] == lines;
    } else {
      var prefix := lines[..k];
      assert prefix[0] == lines[0];
      assert prefix[1..] == lines[1..][..k - 1];
      assert lines[1..][k - 1..] == lines[k..];
      var next := step(section, d, lines[0]);
      if next.Ok? {
        assert RunWith(step, lines, first, section, d) == RunWith(step, lines[1..], first + 1, next.value.0, next.value.1);
        assert RunWith(step, prefix, first, section, d) == RunWith(step, prefix[1..], first + 1, next.value.0, next.value.1);
        RunSplit(step, lines[1..], first + 1, next.value.0, next.value.1, k - 1);
      } else {
        assert RunWith(step, lines, first, section, d) == (section, Err(ParseError(first, next.error)));
        assert RunWith(step, prefix, first, section, d) == (section, Err(ParseError(first, next.error)));
      }
    }
  }

  /** Parsing stops at the first rejected line and reports that line's number and reason. */
  lemma FailsAtFirstBadLine(lines: seq<string>, first: nat, section: Section, d: Draft, k: nat)
    requires k < |lines|
    requires Run(lines[..k], first, section, d).1.Ok?
    requires var (s, r) := Run(lines[..k], first, section, d); Step(s, r.value, lines[k]).Err?
    ensures var (s, r) := Run(lines[..k], first, section, d);
      Run(lines, first, section, d) == (s, Err(ParseError(first + k, Step(s, r.value, lines[k]).error)))
  {
    RunSplit(Step, lines, first, section, d, k);
    assert lines[k..][0] == lines[k];
  }

  /** A bracketed line other than the three known sections fails with its line number. */
  lemma UnknownSectionFails(text: string, section: Section, k: nat)
    requires var lines := Split(text, '\n'); k < |lines| && Run(lines[..k], 0, section, EmptyDraft).1.Ok?
    requires var line := Trim(Split(text, '\n')[k]);
      line != [] && line[0] == '[' && line[|line| - 1] == ']' && line != "[Map]" && line != "[Continents]" && line != "[Territories]"
    ensures ParseText(section, text).1 == Err(ParseError(k, "Unknown section"))
  {
    FailsAtFirstBadLine(Split(text, '\n'), 0, section, EmptyDraft, k);
  }

  /** Blank lines change nothing: a run over blank lines only is where it started. */
  lemma {:induction false} BlankLinesSkipped(lines: seq<string>, first: nat, section: Section, d: Draft)
    requires forall k :: 0 <= k < |lines| ==> Trim(lines[k]) == []
    ensures Run(lines, first, section, d) == (section, Ok(d))
    decreases |lines|
  {
    if lines != [] {
      BlankLinesSkipped(lines[1..], first + 1, section, d);
    }
  }

  /** A file whose first non-blank line is a value, not a section header, fails on that line. */
  lemma ValueBeforeSectionFails(text: string, k: nat)
    requires var lines := Split(text, '\n'); k < |lines| && forall j :: 0 <= j < k ==> Trim(lines[j]) == []
    requires var line := Trim(Split(text, '\n')[k]); line != [] && !(line[0] == '[' && line[|line| - 1] == ']')
    ensures ParseText(NoSection, text).1 == Err(ParseError(k, "Values started without a section"))
  {
    var lines := Split(text, '\n');
    BlankLinesSkipped(lines[..k], 0, NoSection, EmptyDraft);
    FailsAtFirstBadLine(lines, 0, NoSection, EmptyDraft, k);
  }

  /** A continent written as `name=armies` reads back as that continent. */
  lemma ContinentLineRoundTrip(name: string, armies: nat)
    requires name != [] && '=' !in name
    requires armies <= IntMax
    ensures ContinentLine(name + "=" + DecimalString(armies)) == Ok(Continent(name, armies, []))
  {
    var ds := DecimalString(armies);
    GetUntilPiece(name, '=', ds);
    ReadIntOfDecimal(armies, []);
    assert ds + [] == ds;
  }

  /** A continent line with nothing after `=` is rejected. */
  lemma ContinentLineNeedsArmies(name: string)
    requires name != [] && '=' !in name
    ensures ContinentLine(name + "=") == Err("Expected number of armies after `=`")
  {
    GetUntilPiece(name, '=', []);
    assert name + "=" == name + ['='] + [];
  }

  /** A continent line with text after the number is rejected. */
  lemma ContinentLineNeedsEnd(name: string, armies: nat, rest: string)
    requires name != [] && '=' !in name
    requires armies <= IntMax
    requires rest != [] && !IsDigit(rest[0])
    ensures ContinentLine(name + "=" + DecimalString(armies) + rest) == Err("Expected end of line after number of armies")
  {
    var ds := DecimalString(armies);
    GetUntilPiece(name, '=', ds + rest);
    assert name + "=" + ds + rest == name + ['='] + (ds + rest);
    ReadIntOfDecimal(armies, rest);
  }

  /** getUntil(c) on a piece p without c that is followed by c. */
  lemma GetUntilPiece(p: string, c: char, rest: string)
    requires p != [] && c !in p
    ensures GetUntil(p + [c] + rest, c) == Ok((p, rest))
  {
    var s := p + [c] + rest;
    IndexOfAfter(p, c, rest);
    assert s[..|p|] == p && s[|p| + 1..] == rest;
  }

  /** `stream >> n` then expectCharacter(c) on a number written in decimal and followed by c. */
  lemma NumberThen(n: nat, c: char, rest: string)
    requires n <= IntMax && !IsSpace(c) && !IsDigit(c)
    ensures ReadInt(DecimalString(n) + ([c] + rest)) == Some((n, [c] + rest))
    ensures ExpectCharacter([c] + rest, c) == Ok(rest)
  {
    ReadIntOfDecimal(n, [c] + rest);
    ReadCharAt(c, rest);
  }

  /** A territory written as `name,x,y,continent,a1,...,an` reads back as that entry. */
  lemma TerritoryLineRoundTrip(name: string, x: nat, y: nat, continent: string, adjacent: seq<string>)
    requires name != [] && ',' !in name && continent != [] && ',' !in continent
    requires x <= IntMax && y <= IntMax
    requires adjacent != [] && adjacent[|adjacent| - 1] != []
    requires forall k, m :: 0 <= k < |adjacent| && 0 <= m < |adjacent[k]| ==> adjacent[k][m] != ','
    ensures TerritoryLine(name + "," + DecimalString(x) + "," + DecimalString(y) + "," + continent + "," + Join(adjacent, ','))
      == Ok(TerritoryEntry(name, x, y, continent, adjacent))
  {
    TerritoryFields(name, x, y, continent, Join(adjacent, ','));
    JoinSplit(adjacent, ',');
  }

  /** A territory line that ends right after its continent has no adjacency and is rejected. */
  lemma TerritoryLineNeedsAdjacency(name: string, x: nat, y: nat, continent: string)
    requires name != [] && ',' !in name && continent != [] && ',' !in continent
    requires x <= IntMax && y <= IntMax
    ensures TerritoryLine(name + "," + DecimalString(x) + "," + DecimalString(y) + "," + continent + ",")
      == Err("Expected list of adjacent territories")
  {
    TerritoryFields(name, x, y, continent, "");
    assert name + "," + DecimalString(x) + "," + DecimalString(y) + "," + continent + "," + "" ==
      name + "," + DecimalString(x) + "," + DecimalString(y) + "," + continent + ",";
  }

  /** The fields before the adjacency list read back, and the adjacency list is split from what follows. */
  lemma TerritoryFields(name: string, x: nat, y: nat, continent: string, rest: string)
    requires name != [] && ',' !in name && continent != [] && ',' !in continent
    requires x <= IntMax && y <= IntMax
    ensures var line := name + "," + DecimalString(x) + "," + DecimalString(y) + "," + continent + "," + rest;
      TerritoryLine(line) == if Split(rest, ',') == [] then Err("Expected list of adjacent territories")
        else Ok(TerritoryEntry(name, x, y, continent, Split(rest, ',')))
  {
    var xs, ys := DecimalString(x), DecimalString(y);
    var r5 := continent + [','] + rest;
    var r4 := [','] + r5;
    var r3 := ys + r4;
    var r2 := [','] + r3;
    var r1 := xs + r2;
    assert name + "," + xs + "," + ys + "," + continent + "," + rest == name + [','] + r1;
    GetUntilPiece(name, ',', r1);
    NumberThen(x, ',', r3);
    NumberThen(y, ',', r5);
    GetUntilPiece(continent, ',', rest);
  }

  /**
   * If the map read from a file passes Map::validate, every adjacency name in
   * the file named one of its territories: no placeholder survives.
   */
  lemma ValidMapHasNoUnknownNames(d: Draft)
    requires Shaped(d)
    requires IsValid(Resolve(d), d.continents)
    ensures forall i, j :: 0 <= i < |d.adjacency| && 0 <= j < |d.adjacency[i]| ==>
      FindTerritory(d.territories, d.adjacency[i][j]).Some?
  {
    var ts := Resolve(d);
    DegreesMatchResolvesAdjacency(ts);
    forall i, j | 0 <= i < |d.adjacency| && 0 <= j < |d.adjacency[i]|
      ensures FindTerritory(d.territories, d.adjacency[i][j]).Some?
    {
      assert ts[i].adjacent[j] < |ts|;
    }
  }

  // ----- the loader object -----

  class Loader {
    /** The section in effect; it persists between calls, as MapLoader's member does. */
    var section: Section

    constructor ()
      ensures section == NoSection
    {
      section := NoSection;
    }

    /** MapLoader::parse, line by line, building a fresh Map. */
    method Parse(text: string) returns (r: Result<Map, ParseError>)
      modifies this
      ensures section == ParseText(old(section), text).0
      ensures ParseText(old(section), text).1.Err? ==> r.Err? && r.error == ParseText(old(section), text).1.error
      ensures ParseText(old(section), text).1.Ok? ==>
        var d := ParseText(old(section), text).1.value;
        r.Ok? && fresh(r.value) && r.value.territories == Resolve(d) && r.value.continents == d.continents
    {
      var lines := Split(text, '\n');
      var m := new Map();
      var adjacency: seq<seq<string>> := [];
      var i := 0;
      while i < |lines|
        invariant 0 <= i <= |lines|
        invariant fresh(m)
        invariant Shaped(Draft(m.territories, m.continents, adjacency))
        invariant Run(lines, 0, old(section), EmptyDraft) == Run(lines[i..], i, section, Draft(m.territories, m.continents, adjacency))
      {
        assert lines[i..][0] == lines[i] && lines[i..][1..] == lines[i + 1..];
        var failure;
        adjacency, failure := ReadLine(m, adjacency, lines[i]);
        if failure.Some? {
          return Err(ParseError(i, failure.value));
        }
        i := i + 1;
      }
      m.AssociateTerritories(adjacency);
      r := Ok(m);
    }

    /** The body of the parse loop: one line read into the map under construction. */
    method ReadLine(m: Map, adjacency: seq<seq<string>>, raw: string) returns (adjacency': seq<seq<string>>, failure: Option<string>)
      requires Shaped(Draft(m.territories, m.continents, adjacency))
      modifies this, m
      ensures var e := Step(old(section), Draft(old(m.territories), old(m.continents), adjacency), raw);
        && (e.Err? ==> failure == Some(e.error) && section == old(section))
        && (e.Ok? ==> failure == None && section == e.value.0 && Draft(m.territories, m.continents, adjacency') == e.value.1)
      ensures failure.None? ==> Shaped(Draft(m.territories, m.continents, adjacency'))
    {
      adjacency' := adjacency;
      failure := None;
      var line := Trim(raw);
      if line == [] {
        return;
      }
      if line[0] == '[' && line[|line| - 1] == ']' {
        if line == "[Map]" {
          section := MapInfo;
        } else if line == "[Continents]" {
          section := ContinentList;
        } else if line == "[Territories]" {
          section := TerritoryList;
        } else {
          failure := Some("Unknown section");
        }
        return;
      }
      match section {
        case NoSection =>
          failure := Some("Values started without a section");
        case MapInfo =>
          failure := MapEntryError(line);
        case ContinentList =>
          var c := ContinentLine(line);
          if c.Err? {
            failure := Some(c.error);
            return;
          }
          m.AddContinent(c.value.bonus, c.value.name);
        case TerritoryList =>
          var t := TerritoryLine(line);
          if t.Err? {
            failure := Some(t.error);
            return;
          }
          ghost var d := Draft(m.territories, m.continents, adjacency);
          var entry := t.value;
          m.AddTerritory(entry.name, entry.continent);
          m.AddTerritoryToContinent(entry.name, entry.continent);
          assert m.territories[|m.territories| - 1].name == entry.name;
          var k := FindTerritory(m.territories, entry.name).value;
          adjacency' := adjacency + [[]];
          adjacency' := adjacency'[k := adjacency'[k] + entry.adjacent];
          assert Draft(m.territories, m.continents, adjacency') == AddEntry(d, entry);
      }
    }
  }
}
