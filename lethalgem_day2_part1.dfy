/**
 * lethalgem/day_2/part_1: cube games.  Each line is a game: an id, then
 * sets of cubes drawn from a bag, separated by `;`, each set a
 * comma-separated list of colour counts.  A game is possible when no set
 * shows more than 12 red, 13 green or 14 blue cubes; the answer is the sum of
 * the ids of the possible games.
 */
module LethalgemDay2Part1 {
  import opened Text

  datatype Day2Error = NoNumberFound | ParseIntFailed | NoColonFound

  /** `Set`: the cubes of each colour shown at once. */
  datatype CubeSet = CubeSet(redCount: int, greenCount: int, blueCount: int)

  /** `Set::new`: no cubes of any colour. */
  const EmptySet := CubeSet(0, 0, 0)

  /** `Game::POSSIBLE_SET`: the bag's contents. */
  const PossibleSet := CubeSet(12, 13, 14)

  datatype Game = Game(id: int, sets: seq<CubeSet>, isPossible: Option<bool>)

  predicate WithinLimits(s: CubeSet)
  {
    s.redCount <= PossibleSet.redCount && s.greenCount <= PossibleSet.greenCount &&
    s.blueCount <= PossibleSet.blueCount
  }

  predicate AllWithinLimits(sets: seq<CubeSet>)
  {
    forall i :: 0 <= i < |sets| ==> WithinLimits(sets[i])
  }

  /** The game `new_with_values` builds. */
  function GameOf(id: int, sets: seq<CubeSet>): Game
  {
    Game(id, sets, Some(AllWithinLimits(sets)))
  }

  /**
   * `Game::new_with_values`: the game is possible exactly when no set goes
   * over the bag's count of any colour, and the flag is always set.
   */
  method NewWithValues(id: int, sets: seq<CubeSet>) returns (game: Game)
    ensures game.id == id && game.sets == sets
    ensures game.isPossible == Some(true) <==> forall i :: 0 <= i < |sets| ==> WithinLimits(sets[i])
    ensures game.isPossible != None
    ensures game == GameOf(id, sets)
  {
    var isPossible := true;
    for i := 0 to |sets|
      invariant isPossible == AllWithinLimits(sets[..i])
    {
      assert forall k :: 0 <= k < i ==> sets[..i + 1][k] == sets[..i][k];
      var cubes := sets[i];
      if cubes.redCount > PossibleSet.redCount
        || cubes.greenCount > PossibleSet.greenCount
        || cubes.blueCount > PossibleSet.blueCount
      {
        isPossible := false;
      }
    }
    assert sets[..|sets|] == sets;
    game := Game(id, sets, Some(isPossible));
  }

  // ---------------------------------------------------------------------
  // Numbers

  /** The ASCII digits of `s`, in order. */
  function Digits(s: string): (d: string)
    ensures AllDigits(d) && |d| <= |s|
    decreases |s|
  {
    if s == [] then []
    else Digits(s[..|s| - 1]) + if IsDigit(s[|s| - 1]) then [s[|s| - 1]] else []
  }

  lemma {:induction false} DigitsAppend(a: string, b: string)
    ensures Digits(a + b) == Digits(a) + Digits(b)
    decreases |b|
  {
    if b == [] {
      assert a + b == a;
    } else {
      DigitsAppend(a, b[..|b| - 1]);
      assert (a + b)[..|a + b| - 1] == a + b[..|b| - 1];
    }
  }

  /** A string of digits keeps them all; a string without digits has none. */
  lemma {:induction false} DigitsOfDigits(s: string)
    requires AllDigits(s)
    ensures Digits(s) == s
    decreases |s|
  {
    if s != [] {
      DigitsOfDigits(s[..|s| - 1]);
    }
  }

  lemma {:induction false} DigitsOfNonDigits(s: string)
    requires forall i :: 0 <= i < |s| ==> !IsDigit(s[i])
    ensures Digits(s) == []
    decreases |s|
  {
    if s != [] {
      DigitsOfNonDigits(s[..|s| - 1]);
    }
  }

  /** `extract_number_from_line`: all the digits of the line read as one number. */
  function NumberFromLine(line: string): (r: Result<int, Day2Error>)
    ensures r.Ok? ==> 0 <= r.value < 0x8000_0000
    ensures r.Err? ==> r.error == ParseIntFailed
  {
    var digits := Digits(line);
    if digits == [] then Err(ParseIntFailed)
    else if DecimalValue(digits) < 0x8000_0000 then Ok(DecimalValue(digits))
    else Err(ParseIntFailed)
  }

  /**
   * A number written between two stretches of text without digits is read
   * back; a line without digits is an error.
   */
  lemma NumberAmongText(before: string, digits: string, after: string)
    requires forall i :: 0 <= i < |before| ==> !IsDigit(before[i])
    requires forall i :: 0 <= i < |after| ==> !IsDigit(after[i])
    requires digits != [] && AllDigits(digits) && DecimalValue(digits) < 0x8000_0000
    ensures NumberFromLine(before + digits + after) == Ok(DecimalValue(digits))
  {
    DigitsAppend(before + digits, after);
    DigitsAppend(before, digits);
    DigitsOfNonDigits(before);
    DigitsOfNonDigits(after);
    DigitsOfDigits(digits);
    assert [] + digits + [] == digits;
  }

  lemma NoDigitsNoNumber(line: string)
    requires forall i :: 0 <= i < |line| ==> !IsDigit(line[i])
    ensures NumberFromLine(line) == Err(ParseIntFailed)
  {
    DigitsOfNonDigits(line);
  }

  method ExtractNumberFromLine(line: string) returns (r: Result<int, Day2Error>)
    ensures r == NumberFromLine(line)
  {
    var digits := "";
    for i := 0 to |line|
      invariant digits == Digits(line[..i])
    {
      assert line[..i + 1][..i] == line[..i];
      if IsDigit(line[i]) {
        digits := digits + [line[i]];
      }
    }
    assert line[..|line|] == line;
    if digits == [] {
      return Err(ParseIntFailed);
    }
    var value := ParseDigitsOf(digits);
    if value < 0x8000_0000 {
      r := Ok(value);
    } else {
      r := Err(ParseIntFailed);
    }
  }

  /** The value of a string of digits, most significant first. */
  method ParseDigitsOf(digits: string) returns (value: nat)
    requires AllDigits(digits)
    ensures value == DecimalValue(digits)
  {
    value := 0;
    for i := 0 to |digits|
      invariant value == DecimalValue(digits[..i])
    {
      assert digits[..i + 1][..i] == digits[..i];
      value := value * 10 + DigitValue(digits[i]);
    }
    assert digits[..|digits|] == digits;
  }

  // ---------------------------------------------------------------------
  // Sets and games

  /** One colour count applied to a set: red, else green, else blue, else nothing. */
  function WithCount(cubes: CubeSet, piece: string, count: int): CubeSet
  {
    if Contains(piece, "red") then cubes.(redCount := count)
    else if Contains(piece, "green") then cubes.(greenCount := count)
    else if Contains(piece, "blue") then cubes.(blueCount := count)
    else cubes
  }

  /** The set described by comma-separated pieces, or the first error. */
  function SetOf(pieces: seq<string>): (r: Result<CubeSet, Day2Error>)
    ensures r.Ok? ==> r.value.redCount >= 0 && r.value.greenCount >= 0 && r.value.blueCount >= 0
    ensures r.Err? ==> r.error == ParseIntFailed
    decreases |pieces|
  {
    if pieces == [] then Ok(EmptySet)
    else match SetOf(pieces[..|pieces| - 1])
      case Err(e) => Err(e)
      case Ok(cubes) =>
        match NumberFromLine(pieces[|pieces| - 1])
        case Err(e) => Err(e)
        case Ok(count) => Ok(WithCount(cubes, pieces[|pieces| - 1], count))
  }

  /** A colour no piece mentions stays at 0. */
  lemma {:induction false} UnmentionedColours(pieces: seq<string>)
    requires SetOf(pieces).Ok?
    ensures (forall i :: 0 <= i < |pieces| ==> !Contains(pieces[i], "red")) ==> SetOf(pieces).value.redCount == 0
    ensures (forall i :: 0 <= i < |pieces| ==> !Contains(pieces[i], "green")) ==> SetOf(pieces).value.greenCount == 0
    ensures (forall i :: 0 <= i < |pieces| ==> !Contains(pieces[i], "blue")) ==> SetOf(pieces).value.blueCount == 0
    decreases |pieces|
  {
    if pieces != [] {
      var init := pieces[..|pieces| - 1];
      UnmentionedColours(init);
      assert forall i :: 0 <= i < |init| ==> init[i] == pieces[i];
    }
  }

  /** A later mention of a colour overrides an earlier one; the others keep their counts. */
  lemma LaterMentionWins(pieces: seq<string>, piece: string)
    requires SetOf(pieces + [piece]).Ok? && Contains(piece, "red")
    ensures SetOf(pieces).Ok?
    ensures SetOf(pieces + [piece]).value ==
      SetOf(pieces).value.(redCount := NumberFromLine(piece).value)
  {
    assert (pieces + [piece])[..|pieces|] == pieces;
  }

  lemma {:induction false} SetOfPrefixFails(pieces: seq<string>, k: nat)
    requires k <= |pieces| && SetOf(pieces[..k]).Err?
    ensures SetOf(pieces) == SetOf(pieces[..k])
    decreases |pieces|
  {
    if k < |pieces| {
      assert pieces[..|pieces| - 1][..k] == pieces[..k];
      SetOfPrefixFails(pieces[..|pieces| - 1], k);
    } else {
      assert pieces[..k] == pieces;
    }
  }

  /** `extract_set`: the cube counts of one draw, read colour by colour from its comma-separated pieces. */
  method ExtractSet(input: string) returns (r: Result<CubeSet, Day2Error>)
    ensures r == SetOf(Split(input, ','))
  {
    var colorCounts := Split(input, ',');
    var cubes := EmptySet;
    for i := 0 to |colorCounts|
      invariant SetOf(colorCounts[..i]) == Ok(cubes)
    {
      assert colorCounts[..i + 1][..i] == colorCounts[..i];
      var count := ExtractNumberFromLine(colorCounts[i]);
      if count.Err? {
        SetOfPrefixFails(colorCounts, i + 1);
        return Err(count.error);
      }
      if Contains(colorCounts[i], "red") {
        cubes := cubes.(redCount := count.value);
      } else if Contains(colorCounts[i], "green") {
        cubes := cubes.(greenCount := count.value);
      } else if Contains(colorCounts[i], "blue") {
        cubes := cubes.(blueCount := count.value);
      }
    }
    assert colorCounts[..|colorCounts|] == colorCounts;
    r := Ok(cubes);
  }

  /** The sets of `;`-separated pieces, or the first error. */
  function SetsOf(pieces: seq<string>): (r: Result<seq<CubeSet>, Day2Error>)
    ensures r.Ok? ==> |r.value| == |pieces|
    ensures r.Err? ==> r.error == ParseIntFailed
    decreases |pieces|
  {
    if pieces == [] then Ok([])
    else match SetsOf(pieces[..|pieces| - 1])
      case Err(e) => Err(e)
      case Ok(sets) =>
        match SetOf(Split(pieces[|pieces| - 1], ','))
        case Err(e) => Err(e)
        case Ok(cubes) => Ok(sets + [cubes])
  }

  /** Each cubes read is the cubes of its own piece. */
  lemma {:induction false} SetsOfByPiece(pieces: seq<string>, j: nat)
    requires j < |pieces| && SetsOf(pieces).Ok?
    ensures SetOf(Split(pieces[j], ',')) == Ok(SetsOf(pieces).value[j])
    decreases |pieces|
  {
    if j < |pieces| - 1 {
      SetsOfByPiece(pieces[..|pieces| - 1], j);
    }
  }

  lemma {:induction false} SetsOfPrefixFails(pieces: seq<string>, k: nat)
    requires k <= |pieces| && SetsOf(pieces[..k]).Err?
    ensures SetsOf(pieces) == SetsOf(pieces[..k])
    decreases |pieces|
  {
    if k < |pieces| {
      assert pieces[..|pieces| - 1][..k] == pieces[..k];
      SetsOfPrefixFails(pieces[..|pieces| - 1], k);
    } else {
      assert pieces[..k] == pieces;
    }
  }

  /** `extract_sets`: one draw per `;`-separated piece. */
  method ExtractSets(input: string) returns (r: Result<seq<CubeSet>, Day2Error>)
    ensures r == SetsOf(Split(input, ';'))
  {
    var delimitedSets := Split(input, ';');
    var sets: seq<CubeSet> := [];
    for i := 0 to |delimitedSets|
      invariant SetsOf(delimitedSets[..i]) == Ok(sets)
    {
      assert delimitedSets[..i + 1][..i] == delimitedSets[..i];
      var cubes := ExtractSet(delimitedSets[i]);
      if cubes.Err? {
        SetsOfPrefixFails(delimitedSets, i + 1);
        return Err(cubes.error);
      }
      sets := sets + [cubes.value];
    }
    assert delimitedSets[..|delimitedSets|] == delimitedSets;
    r := Ok(sets);
  }

  /**
   * The id and sets of a game line: the id from the digits before the first
   * `:`, the sets from the rest (the colon included, which holds no digit).
   */
  function GameParts(line: string): (r: Result<(int, seq<CubeSet>), Day2Error>)
    ensures r == Err(NoColonFound) <==> ':' !in line
    ensures r.Ok? ==> 0 <= r.value.0 < 0x8000_0000
  {
    var colon := IndexOf(line, ':');
    if colon == |line| then Err(NoColonFound)
    else match NumberFromLine(line[..colon])
      case Err(e) => Err(e)
      case Ok(id) =>
        match SetsOf(Split(line[colon..], ';'))
        case Err(e) => Err(e)
        case Ok(sets) => Ok((id, sets))
  }

  /** The game of a line. */
  function GameFromLine(line: string): Result<Game, Day2Error>
  {
    match GameParts(line)
    case Err(e) => Err(e)
    case Ok(parts) => Ok(GameOf(parts.0, parts.1))
  }

  /** `extract_game`: the id is read before the sets, and a game is built from both. */
  method ExtractGame(input: string) returns (r: Result<Game, Day2Error>)
    ensures r == GameFromLine(input)
  {
    var colon := IndexOf(input, ':');
    if colon == |input| {
      return Err(NoColonFound);
    }
    var id := ExtractNumberFromLine(input[..colon]);
    if id.Err? {
      return Err(id.error);
    }
    var sets := ExtractSets(input[colon..]);
    if sets.Err? {
      return Err(sets.error);
    }
    var game := NewWithValues(id.value, sets.value);
    r := Ok(game);
  }

  /** The games of all the lines, or the first line's error. */
  function GamesOf(lines: seq<string>): (r: Result<seq<Game>, Day2Error>)
    ensures r.Ok? ==> |r.value| == |lines|
    decreases |lines|
  {
    if lines == [] then Ok([])
    else match GamesOf(lines[..|lines| - 1])
      case Err(e) => Err(e)
      case Ok(games) =>
        match GameFromLine(lines[|lines| - 1])
        case Err(e) => Err(e)
        case Ok(game) => Ok(games + [game])
  }

  lemma {:induction false} GamesOfPrefixFails(lines: seq<string>, k: nat)
    requires k <= |lines| && GamesOf(lines[..k]).Err?
    ensures GamesOf(lines) == GamesOf(lines[..k])
    decreases |lines|
  {
    if k < |lines| {
      assert lines[..|lines| - 1][..k] == lines[..k];
      GamesOfPrefixFails(lines[..|lines| - 1], k);
    } else {
      assert lines[..k] == lines;
    }
  }

  /** `extract_games`: one game per line, or the first error. */
  method ExtractGames(input: string) returns (r: Result<seq<Game>, Day2Error>)
    ensures r == GamesOf(Lines(input))
  {
    var lines := Lines(input);
    var games: seq<Game> := [];
    for i := 0 to |lines|
      invariant GamesOf(lines[..i]) == Ok(games)
    {
      assert lines[..i + 1][..i] == lines[..i];
      var game := ExtractGame(lines[i]);
      if game.Err? {
        GamesOfPrefixFails(lines, i + 1);
        return Err(game.error);
      }
      games := games + [game.value];
    }
    assert lines[..|lines|] == lines;
    r := Ok(games);
  }

  /** Every game read carries its possibility flag. */
  lemma {:induction false} GamesOfFlagged(lines: seq<string>, j: nat)
    requires GamesOf(lines).Ok? && j < |lines|
    ensures GamesOf(lines).value[j] == GameOf(GamesOf(lines).value[j].id, GamesOf(lines).value[j].sets)
    decreases |lines|
  {
    if j < |lines| - 1 {
      GamesOfFlagged(lines[..|lines| - 1], j);
    }
  }

  // ---------------------------------------------------------------------
  // The answer

  /** `sum_possible_games`: the ids of the games flagged possible. */
  function SumPossibleGames(games: seq<Game>): int
    decreases |games|
  {
    if games == [] then 0
    else
      var last := games[|games| - 1];
      SumPossibleGames(games[..|games| - 1]) + (if last.isPossible == Some(true) then last.id else 0)
  }

  /** The ids of the games whose sets all fit in the bag. */
  function PossibleIds(games: seq<Game>): int
    decreases |games|
  {
    if games == [] then 0
    else
      var last := games[|games| - 1];
      PossibleIds(games[..|games| - 1]) + (if AllWithinLimits(last.sets) then last.id else 0)
  }

  /** For games built by `new_with_values`, the flag is the bag test. */
  lemma {:induction false} SumIsPossibleIds(games: seq<Game>)
    requires forall j :: 0 <= j < |games| ==> games[j] == GameOf(games[j].id, games[j].sets)
    ensures SumPossibleGames(games) == PossibleIds(games)
    decreases |games|
  {
    if games != [] {
      SumIsPossibleIds(games[..|games| - 1]);
    }
  }

  /** The games of the example: 1, 2 and 5 are possible, 3 and 4 are not. */
  lemma ExampleSum()
    ensures SumPossibleGames([
      GameOf(1, [CubeSet(4, 0, 3), CubeSet(1, 2, 6), CubeSet(0, 2, 0)]),
      GameOf(2, [CubeSet(0, 2, 1), CubeSet(1, 3, 4), CubeSet(0, 1, 1)]),
      GameOf(3, [CubeSet(20, 8, 6), CubeSet(4, 13, 5), CubeSet(1, 5, 0)]),
      GameOf(4, [CubeSet(3, 1, 6), CubeSet(6, 3, 0), CubeSet(14, 3, 15)]),
      GameOf(5, [CubeSet(6, 3, 1), CubeSet(1, 2, 2)])]) == 8
  {
    var g1 := GameOf(1, [CubeSet(4, 0, 3), CubeSet(1, 2, 6), CubeSet(0, 2, 0)]);
    var g2 := GameOf(2, [CubeSet(0, 2, 1), CubeSet(1, 3, 4), CubeSet(0, 1, 1)]);
    var g3 := GameOf(3, [CubeSet(20, 8, 6), CubeSet(4, 13, 5), CubeSet(1, 5, 0)]);
    var g4 := GameOf(4, [CubeSet(3, 1, 6), CubeSet(6, 3, 0), CubeSet(14, 3, 15)]);
    var g5 := GameOf(5, [CubeSet(6, 3, 1), CubeSet(1, 2, 2)]);
    assert g1.isPossible == Some(true) && g2.isPossible == Some(true) && g5.isPossible == Some(true);
    assert !WithinLimits(g3.sets[0]) && !WithinLimits(g4.sets[2]);
    assert [g1, g2, g3, g4, g5][..4] == [g1, g2, g3, g4];
    assert [g1, g2, g3, g4][..3] == [g1, g2, g3];
    assert [g1, g2, g3][..2] == [g1, g2];
    assert [g1, g2][..1] == [g1];
    assert SumPossibleGames([g1]) == 1;
    assert SumPossibleGames([g1, g2]) == 3;
    assert SumPossibleGames([g1, g2, g3]) == 3;
    assert SumPossibleGames([g1, g2, g3, g4]) == 3;
  }
}
