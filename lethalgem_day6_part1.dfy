/**
 * lethalgem/day_6/part_1: every race of the sheet is read from the time
 * and distance lines, the ways to win are counted for each hold time from
 * 0 to the race's time, and the margin of error is the product of those
 * counts.
 */
module LethalgemDay6Part1 {
  import opened Text
  import opened BoatRace

  datatype Day6Error = UnableToLoadFile | NoTimeLine | NoDistanceLine | UnequalTimesAndDistances

  /** A race with its count of ways to win, computed when the race is made. */
  datatype Race = Race(totalTime: int, distanceToBeat: int, waysToWin: int)

  /** `calculate_ways_to_win`: one count for every hold time from 0 to the total time that beats the record. */
  method CalculateWaysToWin(totalTime: int, distanceToBeat: int) returns (waysToWin: int)
    ensures waysToWin == CountWins(totalTime, distanceToBeat, 0, totalTime + 1)
    ensures waysToWin == |set h | 0 <= h <= totalTime && Wins(totalTime, distanceToBeat, h)|
  {
    waysToWin := 0;
    var buttonHeldTime := 0;
    while buttonHeldTime <= totalTime
      invariant 0 <= buttonHeldTime && (totalTime >= 0 ==> buttonHeldTime <= totalTime + 1)
      invariant totalTime < 0 ==> buttonHeldTime == 0
      invariant waysToWin == CountWins(totalTime, distanceToBeat, 0, buttonHeldTime)
      decreases totalTime + 1 - buttonHeldTime
    {
      var speedPerTimeStep := buttonHeldTime;
      var timeStepsLeftToMove := totalTime - buttonHeldTime;
      var distanceTraveled := speedPerTimeStep * timeStepsLeftToMove;
      if distanceTraveled > distanceToBeat {
        waysToWin := waysToWin + 1;
      }
      buttonHeldTime := buttonHeldTime + 1;
    }
    CountIsCardinality(totalTime, distanceToBeat, 0, totalTime + 1);
    assert (set h | 0 <= h < totalTime + 1 && Wins(totalTime, distanceToBeat, h))
        == (set h | 0 <= h <= totalTime && Wins(totalTime, distanceToBeat, h));
  }

  /** `Race::new`: the race keeps its time and record and counts its ways to win. */
  method NewRace(totalTime: int, distanceToBeat: int) returns (race: Race)
    ensures race.totalTime == totalTime && race.distanceToBeat == distanceToBeat
    ensures race.waysToWin == CountWins(totalTime, distanceToBeat, 0, totalTime + 1)
  {
    var ways := CalculateWaysToWin(totalTime, distanceToBeat);
    race := Race(totalTime, distanceToBeat, ways);
  }

  /** `calculate_margin_of_error`: the product of the races' ways to win, 1 for no races. */
  function MarginOfError(races: seq<Race>): int
    decreases |races|
  {
    if races == [] then 1 else MarginOfError(races[..|races| - 1]) * races[|races| - 1].waysToWin
  }

  /** The margin is zero exactly when some race cannot be won, and never negative when no count is. */
  lemma {:induction false} MarginOfErrorZero(races: seq<Race>)
    ensures MarginOfError(races) == 0 <==> exists k :: 0 <= k < |races| && races[k].waysToWin == 0
    ensures (forall k :: 0 <= k < |races| ==> races[k].waysToWin >= 0) ==> MarginOfError(races) >= 0
    decreases |races|
  {
    if races != [] {
      var init := races[..|races| - 1];
      MarginOfErrorZero(init);
      assert forall k :: 0 <= k < |init| ==> init[k] == races[k];
      var m, w := MarginOfError(init), races[|races| - 1].waysToWin;
      assert m * w == 0 <==> m == 0 || w == 0;
      if forall k :: 0 <= k < |races| ==> races[k].waysToWin >= 0 {
        ProductSign(w, m);
      }
    }
  }

  /** `filter_map(parse::<i32>().ok())`: the tokens that are 32-bit integers, in order; the rest are skipped. */
  function Numbers(tokens: seq<string>): (r: seq<int>)
    ensures |r| <= |tokens|
    ensures (forall k :: 0 <= k < |tokens| ==> ParseI32(tokens[k]).Some?) ==>
      |r| == |tokens| && forall k :: 0 <= k < |tokens| ==> Some(r[k]) == ParseI32(tokens[k])
    decreases |tokens|
  {
    if tokens == [] then []
    else match ParseI32(tokens[0])
      case Some(n) => [n] + Numbers(tokens[1..])
      case None => Numbers(tokens[1..])
  }

  /**
   * `extract_races`: the numbers of the first line are the times and those
   * of the second the records; the races pair them up in order.
   */
  method ExtractRaces(input: string) returns (r: Result<seq<Race>, Day6Error>)
    ensures Lines(input) == [] ==> r == Err(NoTimeLine)
    ensures |Lines(input)| == 1 ==> r == Err(NoDistanceLine)
    ensures |Lines(input)| >= 2 ==>
      var times := Numbers(SplitWhitespace(Lines(input)[0]));
      var distances := Numbers(SplitWhitespace(Lines(input)[1]));
      if |times| != |distances| then r == Err(UnequalTimesAndDistances) else r.Ok? && PairedUp(times, distances, r.value)
  {
    var lines := Lines(input);
    if |lines| < 1 {
      return Err(NoTimeLine);
    }
    var raceTimes := Numbers(SplitWhitespace(lines[0]));
    if |lines| < 2 {
      return Err(NoDistanceLine);
    }
    var distances := Numbers(SplitWhitespace(lines[1]));
    if |raceTimes| != |distances| {
      return Err(UnequalTimesAndDistances);
    }
    var races := PairRaces(raceTimes, distances);
    r := Ok(races);
  }

  /** The loop of `extract_races`: one race per time and record, in order. */
  method PairRaces(times: seq<int>, distances: seq<int>) returns (races: seq<Race>)
    requires |times| == |distances|
    ensures PairedUp(times, distances, races)
  {
    races := [];
    for i := 0 to |times|
      invariant PairedUp(times[..i], distances[..i], races)
    {
      var race := NewRace(times[i], distances[i]);
      races := races + [race];
    }
    assert times[..|times|] == times && distances[..|distances|] == distances;
  }

  /** The races pair the times with the records in order, each with its count of ways to win. */
  predicate PairedUp(times: seq<int>, distances: seq<int>, races: seq<Race>)
  {
    |races| == |times| == |distances| &&
    forall k :: 0 <= k < |races| ==>
      races[k] == Race(times[k], distances[k], CountWins(times[k], distances[k], 0, times[k] + 1))
  }

  // ---------------------------------------------------------------------
  // The example sheet

  /** The example races (7, 9), (15, 40) and (30, 200) can be won in 4, 8 and 9 ways; the margin is 288. */
  lemma ExampleRaces()
    ensures CountWins(7, 9, 0, 8) == 4
    ensures CountWins(15, 40, 0, 16) == 8
    ensures CountWins(30, 200, 0, 31) == 9
    ensures MarginOfError([Race(7, 9, 4), Race(15, 40, 8), Race(30, 200, 9)]) == 288
  {
    WinningWindow(7, 9, 2);
    WinningWindow(15, 40, 4);
    WinningWindow(30, 200, 11);
    var races := [Race(7, 9, 4), Race(15, 40, 8), Race(30, 200, 9)];
    assert races[..2] == [Race(7, 9, 4), Race(15, 40, 8)];
    assert races[..2][..1] == [Race(7, 9, 4)];
    assert [Race(7, 9, 4)][..0] == [];
  }

  /** The numbers of the example's time line: the heading is skipped. */
  lemma ExampleTimes()
    ensures Numbers(["Time:", "7", "15", "30"]) == [7, 15, 30]
  {
    var time := "Time:";
    assert time[0] == 'T';
    OneDigit('7');
    TwoDigits('1', '5');
    TwoDigits('3', '0');
    LabelThenThree(time, "7", "15", "30");
  }

  /** The numbers of the example's distance line: the heading is skipped. */
  lemma ExampleDistances()
    ensures Numbers(["Distance:", "9", "40", "200"]) == [9, 40, 200]
  {
    var distance := "Distance:";
    assert distance[0] == 'D';
    OneDigit('9');
    TwoDigits('4', '0');
    ThreeDigits('2', '0', '0');
    LabelThenThree(distance, "9", "40", "200");
  }

  lemma LabelThenThree(heading: string, x: string, y: string, z: string)
    requires ParseI32(heading).None? && ParseI32(x).Some? && ParseI32(y).Some? && ParseI32(z).Some?
    ensures Numbers([heading, x, y, z]) == [ParseI32(x).value, ParseI32(y).value, ParseI32(z).value]
  {
    assert [heading, x, y, z][1..] == [x, y, z];
    assert [x, y, z][1..] == [y, z];
    assert [y, z][1..] == [z];
    assert [z][1..] == [];
  }

  lemma OneDigit(a: char)
    requires IsDigit(a)
    ensures ParseI32([a]) == Some(DigitValue(a))
  {
    DecimalValueSnoc([], a);
    assert [] + [a] == [a];
  }

  lemma ThreeDigits(a: char, b: char, c: char)
    requires IsDigit(a) && IsDigit(b) && IsDigit(c)
    ensures ParseI32([a, b, c]) == Some(100 * DigitValue(a) + 10 * DigitValue(b) + DigitValue(c))
  {
    ThreeDigitValue(a, b, c);
  }
}
