/**
 * mattdamachine/Day06/part_01: the ways to win a race are counted over the
 * hold times strictly between 0 and the race's time; holding for 0 or for
 * the whole race never moves the boat.
 */
module MattdamachineDay06 {
  import opened BoatRace

  datatype Race = Race(time: int, distance: int)

  /** `calculate_ways_to_win`: the hold times `i` with `1 <= i < time` that beat the record. */
  method CalculateWaysToWin(race: Race) returns (ways: int)
    ensures ways == CountWins(race.time, race.distance, 1, race.time)
    ensures race.time <= 1 ==> ways == 0
    ensures 0 <= ways && (race.time >= 1 ==> ways <= race.time - 1)
  {
    ways := 0;
    var i := 1;
    while i < race.time
      invariant race.time >= 1 ==> 1 <= i <= race.time
      invariant race.time < 1 ==> i == 1
      invariant ways == CountWins(race.time, race.distance, 1, i)
      decreases race.time - i
    {
      var distanceTraveled := i * (race.time - i);
      if distanceTraveled > race.distance {
        ways := ways + 1;
      }
      i := i + 1;
    }
  }

  /**
   * With a record that is not negative, the count over `1..time` equals the
   * count over `0..=time` of the other solvers: both ends travel nothing.
   */
  lemma AgreesWithFullRange(time: int, distance: int)
    requires distance >= 0
    ensures CountWins(time, distance, 1, time) == CountWins(time, distance, 0, time + 1)
  {
    if time >= 1 {
      CountSplit(time, distance, 0, 1, time + 1);
      CountSplit(time, distance, 1, time, time + 1);
      assert !Wins(time, distance, 0) && !Wins(time, distance, time);
      assert CountWins(time, distance, 0, 1) == 0;
      assert CountWins(time, distance, time, time + 1) == 0;
    } else if time == 0 {
      assert !Wins(time, distance, 0);
      assert CountWins(time, distance, 0, 1) == 0;
    }
  }

  /** Inside the window of `BoatRace.WinningWindow` the count over `1..time` is `time + 1 - 2a`. */
  lemma WindowCount(time: int, distance: int, a: int)
    requires 1 <= a && 2 * a <= time && 0 <= distance
    requires Travelled(time, a - 1) <= distance < Travelled(time, a)
    ensures CountWins(time, distance, 1, time) == time + 1 - 2 * a
  {
    AgreesWithFullRange(time, distance);
    WinningWindow(time, distance, a);
  }

  /** The example races (7, 9), (15, 40) and (30, 200) give 4, 8 and 9 ways. */
  lemma ExampleRaces()
    ensures CountWins(7, 9, 1, 7) == 4
    ensures CountWins(15, 40, 1, 15) == 8
    ensures CountWins(30, 200, 1, 30) == 9
  {
    WindowCount(7, 9, 2);
    WindowCount(15, 40, 4);
    WindowCount(30, 200, 11);
  }
}
