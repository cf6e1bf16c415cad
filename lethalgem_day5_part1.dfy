/**
 * lethalgem/day_5/part_1: every listed seed is walked through the almanac
 * and the answer is the lowest location.  The almanac's maps, their parsing
 * and the walk itself are the same code as in part 2 and are taken from the
 * `LethalgemDay5Part2` module.
 */
module LethalgemDay5Part1 {
  import opened Text
  import opened LethalgemDay5Part2

  /**
   * `parse_seeds_list`: the numbers after the first six characters
   * ("seeds:"), in order; a token that is not a `u64` fails the whole list.
   */
  function ParseSeedsList(seedLine: string): (r: Result<seq<nat>, Day5Error>)
    requires |seedLine| >= 6
    ensures var tokens := SplitWhitespace(seedLine[6..]);
      (r.Ok? <==> forall k :: 0 <= k < |tokens| ==> ParseU64(tokens[k]).Some?) &&
      (r.Ok? ==> |r.value| == |tokens| && forall k :: 0 <= k < |tokens| ==> r.value[k] == ParseU64(tokens[k]).value)
      && (r.Err? ==> r.error == ParseIntFailed)
  {
    var seeds := ParseAllUnsigned(SplitWhitespace(seedLine[6..]));
    if seeds.Some? then Ok(seeds.value) else Err(ParseIntFailed)
  }

  /**
   * `traverse_almanac_for_location_list`: a map from every listed seed to its
   * location; a seed listed twice is inserted twice with the same location.
   */
  method TraverseAlmanacForLocationList(seeds: seq<nat>, maps: seq<seq<MapBounds>>) returns (locations: map<int, int>)
    ensures locations.Keys == set k | 0 <= k < |seeds| :: seeds[k]
    ensures forall s :: s in locations ==> locations[s] == Traverse(maps, s)
  {
    locations := map[];
    for k := 0 to |seeds|
      invariant locations.Keys == set q | 0 <= q < k :: seeds[q]
      invariant forall s :: s in locations ==> locations[s] == Traverse(maps, s)
    {
      var location := TraverseAlmanacForLocation(seeds[k], maps);
      locations := locations[seeds[k] := location];
    }
  }

  /** `find_lowest_location`: the least location, or `None` when the map is empty. */
  function FindLowestLocation(locations: map<int, int>): (r: Option<int>)
    ensures r.None? <==> locations.Keys == {}
    ensures r.Some? ==> r.value in locations.Values && forall s :: s in locations ==> r.value <= locations[s]
  {
    if locations.Keys == {} then None
    else
      ValuesNonEmpty(locations);
      var r := MinOf(locations.Values);
      assert forall t :: t in locations ==> locations[t] in locations.Values;
      Some(r)
  }

  lemma {:induction false} ValuesNonEmpty(locations: map<int, int>)
    requires locations.Keys != {}
    ensures locations.Values != {}
  {
    SetElement(locations.Keys);
    var s :| s in locations.Keys;
    assert locations[s] in locations.Values;
  }

  /**
   * The two steps together: for a non-empty seed list the answer is the
   * location of a listed seed and at most the location of every listed seed.
   */
  lemma {:induction false} LowestOfSeeds(seeds: seq<nat>, maps: seq<seq<MapBounds>>, locations: map<int, int>)
    requires locations.Keys == set k | 0 <= k < |seeds| :: seeds[k]
    requires forall s :: s in locations ==> locations[s] == Traverse(maps, s)
    ensures FindLowestLocation(locations).None? <==> seeds == []
    ensures FindLowestLocation(locations).Some? ==>
              (exists k :: 0 <= k < |seeds| && FindLowestLocation(locations).value == Traverse(maps, seeds[k])) &&
              forall k :: 0 <= k < |seeds| ==> FindLowestLocation(locations).value <= Traverse(maps, seeds[k])
  {
    if seeds != [] {
      assert seeds[0] in locations;
    }
    var r := FindLowestLocation(locations);
    if r.Some? {
      var s :| s in locations && locations[s] == r.value;
      var k :| 0 <= k < |seeds| && seeds[k] == s;
      forall q | 0 <= q < |seeds| ensures r.value <= Traverse(maps, seeds[q]) {
        assert seeds[q] in locations;
      }
    }
  }

  /** The example: seeds 79, 14, 55 and 13 reach 82, 43, 86 and 35, so the lowest location is 35. */
  lemma {:induction false} LowestExample()
    ensures FindLowestLocation(map[79 := 82, 14 := 43, 55 := 86, 13 := 35]) == Some(35)
  {
    var m := map[79 := 82, 14 := 43, 55 := 86, 13 := 35];
    assert m[13] == 35 && 13 in m;
    var r := FindLowestLocation(m);
    assert r.value <= 35;
    var s :| s in m && m[s] == r.value;
    assert s == 79 || s == 14 || s == 55 || s == 13;
  }
}
