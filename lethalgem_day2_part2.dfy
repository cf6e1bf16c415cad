/**
 * lethalgem/day_2/part_2: the fewest cubes of each colour that make a game
 * possible, and their power.  The lines are read exactly as in part 1; a
 * game now records its minimum set instead of a possibility flag.
 */
module LethalgemDay2Part2 {
  import opened Text
  import P1 = LethalgemDay2Part1

  type CubeSet = P1.CubeSet

  datatype Game = Game(id: int, sets: seq<CubeSet>, minimumSet: CubeSet)

  function Max(a: int, b: int): int
  {
    if a >= b then a else b
  }

  /** The largest count of each colour over the sets, starting from 0. */
  function MinimumSet(sets: seq<CubeSet>): CubeSet
    decreases |sets|
  {
    if sets == [] then P1.EmptySet
    else
      var m := MinimumSet(sets[..|sets| - 1]);
      var s := sets[|sets| - 1];
      P1.CubeSet(Max(m.redCount, s.redCount), Max(m.greenCount, s.greenCount), Max(m.blueCount, s.blueCount))
  }

  /** `other` holds at least as many cubes of every colour as `s`. */
  predicate Covers(other: CubeSet, s: CubeSet)
  {
    s.redCount <= other.redCount && s.greenCount <= other.greenCount && s.blueCount <= other.blueCount
  }

  /** Each count is at least 0 and at least that of every set. */
  lemma {:induction false} MinimumSetCovers(sets: seq<CubeSet>)
    ensures Covers(MinimumSet(sets), P1.EmptySet)
    ensures forall i :: 0 <= i < |sets| ==> Covers(MinimumSet(sets), sets[i])
    decreases |sets|
  {
    if sets != [] {
      MinimumSetCovers(sets[..|sets| - 1]);
    }
  }

  /**
   * And it is the least such set: a bag with no negative count that could
   * have shown every set holds at least the minimum set.
   */
  lemma {:induction false} MinimumSetIsLeast(sets: seq<CubeSet>, bag: CubeSet)
    requires Covers(bag, P1.EmptySet)
    requires forall i :: 0 <= i < |sets| ==> Covers(bag, sets[i])
    ensures Covers(bag, MinimumSet(sets))
    decreases |sets|
  {
    if sets != [] {
      MinimumSetIsLeast(sets[..|sets| - 1], bag);
    }
  }

  /** Each count is 0 or is shown by one of the sets. */
  lemma {:induction false} MinimumSetAttained(sets: seq<CubeSet>)
    ensures var m := MinimumSet(sets);
      (m.redCount == 0 || exists i :: 0 <= i < |sets| && sets[i].redCount == m.redCount) &&
      (m.greenCount == 0 || exists i :: 0 <= i < |sets| && sets[i].greenCount == m.greenCount) &&
      (m.blueCount == 0 || exists i :: 0 <= i < |sets| && sets[i].blueCount == m.blueCount)
    decreases |sets|
  {
    if sets != [] {
      var init := sets[..|sets| - 1];
      MinimumSetAttained(init);
      assert forall i :: 0 <= i < |init| ==> init[i] == sets[i];
    }
  }

  /** `Game::new_with_values`: the minimum set found by one pass over the sets. */
  method NewWithValues(id: int, sets: seq<CubeSet>) returns (game: Game)
    ensures game == Game(id, sets, MinimumSet(sets))
  {
    var minimumRedCount := 0;
    var minimumGreenCount := 0;
    var minimumBlueCount := 0;
    for i := 0 to |sets|
      invariant MinimumSet(sets[..i]) == P1.CubeSet(minimumRedCount, minimumGreenCount, minimumBlueCount)
    {
      assert sets[..i + 1][..i] == sets[..i];
      var cubes := sets[i];
      if cubes.redCount > minimumRedCount {
        minimumRedCount := cubes.redCount;
      }
      if cubes.greenCount > minimumGreenCount {
        minimumGreenCount := cubes.greenCount;
      }
      if cubes.blueCount > minimumBlueCount {
        minimumBlueCount := cubes.blueCount;
      }
    }
    assert sets[..|sets|] == sets;
    game := Game(id, sets, P1.CubeSet(minimumRedCount, minimumGreenCount, minimumBlueCount));
  }

  /** `calculate_game_power`: the product of the minimum counts. */
  function GamePower(game: Game): int
  {
    game.minimumSet.redCount * game.minimumSet.greenCount * game.minimumSet.blueCount
  }

  /** A game's power is never negative, and is 0 when some colour never shows. */
  lemma PowerOfSets(sets: seq<CubeSet>, id: int)
    ensures GamePower(Game(id, sets, MinimumSet(sets))) >= 0
    ensures (forall i :: 0 <= i < |sets| ==> sets[i].redCount <= 0) ==> GamePower(Game(id, sets, MinimumSet(sets))) == 0
  {
    var m := MinimumSet(sets);
    MinimumSetCovers(sets);
    ProductNonNegative(m.redCount, m.greenCount, m.blueCount);
    if forall i :: 0 <= i < |sets| ==> sets[i].redCount <= 0 {
      MinimumSetIsLeast(sets, P1.CubeSet(0, m.greenCount, m.blueCount));
      assert m.redCount == 0;
    }
  }

  lemma ProductNonNegative(a: int, b: int, c: int)
    requires a >= 0 && b >= 0 && c >= 0
    ensures a * b * c >= 0
  {
    assert a * b >= 0;
  }

  /** `calculate_overall_power`: the sum of the game powers. */
  function OverallPower(games: seq<Game>): int
    decreases |games|
  {
    if games == [] then 0 else OverallPower(games[..|games| - 1]) + GamePower(games[|games| - 1])
  }

  lemma {:induction false} OverallPowerAppend(a: seq<Game>, b: seq<Game>)
    ensures OverallPower(a + b) == OverallPower(a) + OverallPower(b)
    decreases |b|
  {
    if b == [] {
      assert a + b == a;
    } else {
      OverallPowerAppend(a, b[..|b| - 1]);
      assert (a + b)[..|a + b| - 1] == a + b[..|b| - 1];
    }
  }

  // ---------------------------------------------------------------------
  // Reading the games: the line format of part 1

  function GameFromLine(line: string): (r: Result<Game, P1.Day2Error>)
    ensures r.Ok? ==> r.value.minimumSet == MinimumSet(r.value.sets)
    ensures r.Err? <==> P1.GameParts(line).Err?
  {
    match P1.GameParts(line)
    case Err(e) => Err(e)
    case Ok(parts) => Ok(Game(parts.0, parts.1, MinimumSet(parts.1)))
  }

  /** `extract_game`, building the part-2 game. */
  method ExtractGame(input: string) returns (r: Result<Game, P1.Day2Error>)
    ensures r == GameFromLine(input)
  {
    var colon := IndexOf(input, ':');
    if colon == |input| {
      return Err(P1.NoColonFound);
    }
    var id := P1.ExtractNumberFromLine(input[..colon]);
    if id.Err? {
      return Err(id.error);
    }
    var sets := P1.ExtractSets(input[colon..]);
    if sets.Err? {
      return Err(sets.error);
    }
    var game := NewWithValues(id.value, sets.value);
    r := Ok(game);
  }

  /** The games of all the lines, or the first line's error. */
  function GamesOf(lines: seq<string>): (r: Result<seq<Game>, P1.Day2Error>)
    ensures r.Ok? ==> |r.value| == |lines|
    decreases |lines|
  {
    if lines == [] then Ok([])
    else match GamesOf(lines[..|lines| - 1])
      case Err(e) => Err(e)
      case Ok(games) =>
        match GameFromLine(lines[|lines| - 1])
        case Err(e) => Err(e)
        case Ok(game) => Ok(games + [game])
  }

  lemma {:induction false} GamesOfPrefixFails(lines: seq<string>, k: nat)
    requires k <= |lines| && GamesOf(lines[..k]).Err?
    ensures GamesOf(lines) == GamesOf(lines[..k])
    decreases |lines|
  {
    if k < |lines| {
      assert lines[..|lines| - 1][..k] == lines[..k];
      GamesOfPrefixFails(lines[..|lines| - 1], k);
    } else {
      assert lines[..k] == lines;
    }
  }

  /** `extract_games`: one game per line, or the first error. */
  method ExtractGames(input: string) returns (r: Result<seq<Game>, P1.Day2Error>)
    ensures r == GamesOf(Lines(input))
  {
    var lines := Lines(input);
    var games: seq<Game> := [];
    for i := 0 to |lines|
      invariant GamesOf(lines[..i]) == Ok(games)
    {
      assert lines[..i + 1][..i] == lines[..i];
      var game := ExtractGame(lines[i]);
      if game.Err? {
        GamesOfPrefixFails(lines, i + 1);
        return Err(game.error);
      }
      games := games + [game.value];
    }
    assert lines[..|lines|] == lines;
    r := Ok(games);
  }

  // ---------------------------------------------------------------------
  // The examples of the test module

  /** Game 3's minimum set is (20, 13, 6). */
  lemma ExampleGameThree()
    ensures MinimumSet([P1.CubeSet(20, 8, 6), P1.CubeSet(4, 13, 5), P1.CubeSet(1, 5, 0)]) == P1.CubeSet(20, 13, 6)
  {
    var s := [P1.CubeSet(20, 8, 6), P1.CubeSet(4, 13, 5), P1.CubeSet(1, 5, 0)];
    assert s[..1][..0] == [];
    assert MinimumSet(s[..1]) == P1.CubeSet(20, 8, 6);
    assert s[..2][..1] == s[..1];
    assert MinimumSet(s[..2]) == P1.CubeSet(20, 13, 6);
    assert s[..3][..2] == s[..2];
    assert s[..3] == s;
  }

  /** The first example game needs (4, 2, 6): a power of 48. */
  lemma ExampleGameOne()
    ensures MinimumSet([P1.CubeSet(4, 0, 3), P1.CubeSet(1, 2, 6), P1.CubeSet(0, 2, 0)]) == P1.CubeSet(4, 2, 6)
    ensures GamePower(Game(1, [], P1.CubeSet(4, 2, 6))) == 48
  {
    var s := [P1.CubeSet(4, 0, 3), P1.CubeSet(1, 2, 6), P1.CubeSet(0, 2, 0)];
    assert s[..1][..0] == [];
    assert MinimumSet(s[..1]) == P1.CubeSet(4, 0, 3);
    assert s[..2][..1] == s[..1];
    assert MinimumSet(s[..2]) == P1.CubeSet(4, 2, 6);
    assert s[..3][..2] == s[..2];
    assert s[..3] == s;
  }

  /** The five example games' minimum sets give 48 + 12 + 1560 + 630 + 36 = 2286. */
  lemma ExampleOverall()
    ensures OverallPower([
      Game(1, [], P1.CubeSet(4, 2, 6)), Game(2, [], P1.CubeSet(1, 3, 4)), Game(3, [], P1.CubeSet(20, 13, 6)),
      Game(4, [], P1.CubeSet(14, 3, 15)), Game(5, [], P1.CubeSet(6, 3, 2))]) == 2286
  {
    var g := [
      Game(1, [], P1.CubeSet(4, 2, 6)), Game(2, [], P1.CubeSet(1, 3, 4)), Game(3, [], P1.CubeSet(20, 13, 6)),
      Game(4, [], P1.CubeSet(14, 3, 15)), Game(5, [], P1.CubeSet(6, 3, 2))];
    assert g[..4][..3][..2][..1] == g[..1];
    assert OverallPower(g[..1]) == 48;
    assert g[..4][..3][..2] == g[..2];
    assert OverallPower(g[..2]) == 60;
    assert g[..4][..3] == g[..3];
    assert OverallPower(g[..3]) == 1620;
    assert OverallPower(g[..4]) == 2250;
    assert g[..5] == g;
  }
}
