/**
 * lethalgem/day_6/part_2: the spaces on the sheet are a misprint, so the
 * numbers of the time line are written one after the other to form a
 * single race time, and likewise for the record; the answer is the number
 * of ways to win that one race.
 */
module LethalgemDay6Part2 {
  import opened Text
  import opened BoatRace

  datatype Day6Error = UnableToLoadFile | NoTimeLine | NoDistanceLine | ParseIntError

  datatype Race = Race(waysToWin: nat)

  /** `calculate_ways_to_win` over `u64`: every hold time from 0 to the total time that beats the record. */
  method CalculateWaysToWin(totalTime: nat, distanceToBeat: nat) returns (waysToWin: nat)
    ensures waysToWin == CountWins(totalTime, distanceToBeat, 0, totalTime + 1)
    ensures waysToWin == |set h | 0 <= h <= totalTime && Wins(totalTime, distanceToBeat, h)|
  {
    waysToWin := 0;
    for buttonHeldTime := 0 to totalTime + 1
      invariant waysToWin == CountWins(totalTime, distanceToBeat, 0, buttonHeldTime)
    {
      var speedPerTimeStep := buttonHeldTime;
      var timeStepsLeftToMove := totalTime - buttonHeldTime;
      var distanceTraveled := speedPerTimeStep * timeStepsLeftToMove;
      if distanceTraveled > distanceToBeat {
        waysToWin := waysToWin + 1;
      }
    }
    CountIsCardinality(totalTime, distanceToBeat, 0, totalTime + 1);
    assert (set h | 0 <= h < totalTime + 1 && Wins(totalTime, distanceToBeat, h))
        == (set h | 0 <= h <= totalTime && Wins(totalTime, distanceToBeat, h));
  }

  /** `Race::new`: the race only keeps its count of ways to win. */
  method NewRace(totalTime: nat, distanceToBeat: nat) returns (race: Race)
    ensures race.waysToWin == CountWins(totalTime, distanceToBeat, 0, totalTime + 1)
  {
    var ways := CalculateWaysToWin(totalTime, distanceToBeat);
    race := Race(ways);
  }

  /**
   * The tokens that parse as `u64`, written one after the other; the
   * others (the heading) are skipped.
   */
  function Concatenated(tokens: seq<string>): string
    decreases |tokens|
  {
    if tokens == [] then [] else Kept(tokens[0]) + Concatenated(tokens[1..])
  }

  /** What `push_str` adds for one token: the token itself when it parses as `u64`. */
  function Kept(token: string): string
  {
    if ParseU64(token).Some? then token else []
  }

  /**
   * The joined string is all digits when the number tokens are (a token
   * with a `+` sign parses but leaves its sign in the string), and it is
   * empty when no token is a number.
   */
  lemma {:induction false} ConcatenatedDigits(tokens: seq<string>)
    ensures (forall k :: 0 <= k < |tokens| && ParseU64(tokens[k]).Some? ==> AllDigits(tokens[k])) ==>
      AllDigits(Concatenated(tokens))
    ensures (forall k :: 0 <= k < |tokens| ==> ParseU64(tokens[k]).None?) <==> Concatenated(tokens) == []
    decreases |tokens|
  {
    if tokens != [] {
      ConcatenatedDigits(tokens[1..]);
      assert forall k :: 1 <= k < |tokens| ==> tokens[1..][k - 1] == tokens[k];
      if ParseU64(tokens[0]).Some? {
        assert tokens[0] != [];
      }
    }
  }

  /** Adding one more token at the end appends it when it is a number. */
  lemma {:induction false} ConcatenatedSnoc(tokens: seq<string>, x: string)
    ensures Concatenated(tokens + [x]) == Concatenated(tokens) + Kept(x)
    decreases |tokens|
  {
    if tokens == [] {
      assert ([] + [x])[1..] == [];
      assert Concatenated([x]) == Kept(x) + [];
    } else {
      var head, rest := Kept(tokens[0]), tokens[1..];
      assert (tokens + [x])[1..] == rest + [x];
      ConcatenatedSnoc(rest, x);
      calc {
        Concatenated(tokens + [x]);
        head + Concatenated(rest + [x]);
        head + (Concatenated(rest) + Kept(x));
        (head + Concatenated(rest)) + Kept(x);
      }
    }
  }

  /** A number token in front shifts the value of the rest left by as many places as the rest has digits. */
  lemma ConcatenatedValue(x: string, tokens: seq<string>)
    requires AllDigits(x) && ParseU64(x).Some? && AllDigits(Concatenated(tokens))
    ensures AllDigits(Concatenated([x] + tokens))
    ensures DecimalValue(Concatenated([x] + tokens))
         == DecimalValue(x) * Pow10(|Concatenated(tokens)|) + DecimalValue(Concatenated(tokens))
  {
    assert ([x] + tokens)[1..] == tokens;
    DecimalValueAppend(x, Concatenated(tokens));
  }

  /** The loop of `extract_race` over one line: `push_str` of every token that parses as `u64`. */
  method JoinNumbers(line: string) returns (joined: string)
    ensures joined == Concatenated(SplitWhitespace(line))
  {
    var tokens := SplitWhitespace(line);
    joined := [];
    for i := 0 to |tokens|
      invariant joined == Concatenated(tokens[..i])
    {
      ConcatenatedSnoc(tokens[..i], tokens[i]);
      assert tokens[..i + 1] == tokens[..i] + [tokens[i]];
      if ParseU64(tokens[i]).Some? {
        joined := joined + tokens[i];
      } else {
        assert joined == joined + Kept(tokens[i]);
      }
    }
    assert tokens[..|tokens|] == tokens;
  }

  /** The race made from the joined time and record: a parse failure of either is `ParseIntError`. */
  function RaceOf(time: string, distance: string): (r: Result<Race, Day6Error>)
    ensures r.Err? <==> ParseU64(time).None? || ParseU64(distance).None?
    ensures r.Err? ==> r.error == ParseIntError
    ensures r.Ok? ==> r.value.waysToWin <= ParseU64(time).value + 1
  {
    match ParseU64(time)
    case None => Err(ParseIntError)
    case Some(t) =>
      match ParseU64(distance)
      case None => Err(ParseIntError)
      case Some(d) => Ok(Race(CountWins(t, d, 0, t + 1)))
  }

  /** `extract_race`: the first line gives the time, the second the record. */
  method ExtractRace(input: string) returns (r: Result<Race, Day6Error>)
    ensures Lines(input) == [] ==> r == Err(NoTimeLine)
    ensures |Lines(input)| == 1 ==> r == Err(NoDistanceLine)
    ensures |Lines(input)| >= 2 ==>
      r == RaceOf(Concatenated(SplitWhitespace(Lines(input)[0])), Concatenated(SplitWhitespace(Lines(input)[1])))
  {
    var lines := Lines(input);
    if |lines| < 1 {
      return Err(NoTimeLine);
    }
    var raceTime := JoinNumbers(lines[0]);
    if |lines| < 2 {
      return Err(NoDistanceLine);
    }
    var raceDistance := JoinNumbers(lines[1]);
    var t := ParseU64(raceTime);
    if t.None? {
      return Err(ParseIntError);
    }
    var d := ParseU64(raceDistance);
    if d.None? {
      return Err(ParseIntError);
    }
    var race := NewRace(t.value, d.value);
    r := Ok(race);
  }

  /** Lines without any number join to the empty string, which does not parse. */
  lemma NoNumbersFails(time: seq<string>, distance: string)
    requires forall k :: 0 <= k < |time| ==> ParseU64(time[k]).None?
    ensures RaceOf(Concatenated(time), distance) == Err(ParseIntError)
  {
    ConcatenatedDigits(time);
  }

  // ---------------------------------------------------------------------
  // The example sheet

  /** The example's time line joins to 71530. */
  lemma ExampleTime()
    ensures Concatenated(["Time:", "7", "15", "30"]) == "71530"
    ensures ParseU64("71530") == Some(71530)
  {
    var time := "Time:";
    assert time[0] == 'T';
    OneDigitValue('7');
    TwoDigitValue('1', '5');
    TwoDigitValue('3', '0');
    JoinThree(time, "7", "15", "30");
    DecimalValueAppend("7", "15");
    assert "7" + "15" == "715";
    DecimalValueAppend("715", "30");
    assert "715" + "30" == "71530";
  }

  /** The example's distance line joins to 940200. */
  lemma ExampleDistance()
    ensures Concatenated(["Distance:", "9", "40", "200"]) == "940200"
    ensures ParseU64("940200") == Some(940200)
  {
    var distance := "Distance:";
    assert distance[0] == 'D';
    OneDigitValue('9');
    TwoDigitValue('4', '0');
    ThreeDigitValue('2', '0', '0');
    JoinThree(distance, "9", "40", "200");
    DecimalValueAppend("9", "40");
    assert "9" + "40" == "940";
    DecimalValueAppend("940", "200");
    assert "940" + "200" == "940200";
  }

  /** The example race can be won by holding for 14 to 71516 milliseconds: 71503 ways. */
  lemma ExampleRace()
    ensures RaceOf("71530", "940200") == Ok(Race(71503))
  {
    ExampleTime();
    ExampleDistance();
    ExampleWays();
  }

  lemma ExampleWays()
    ensures CountWins(71530, 940200, 0, 71531) == 71503
  {
    WinningWindow(71530, 940200, 14);
  }

  lemma JoinThree(heading: string, x: string, y: string, z: string)
    requires ParseU64(heading).None? && ParseU64(x).Some? && ParseU64(y).Some? && ParseU64(z).Some?
    ensures Concatenated([heading, x, y, z]) == x + y + z
  {
    assert [heading, x, y, z][1..] == [x, y, z];
    assert [x, y, z][1..] == [y, z];
    assert [y, z][1..] == [z];
    assert [z][1..] == [];
    assert Concatenated([z]) == z + [] == z;
    assert Concatenated([y, z]) == y + z;
    assert Concatenated([x, y, z]) == x + (y + z) == x + y + z;
  }
}
