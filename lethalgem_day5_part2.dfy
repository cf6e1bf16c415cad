/**
 * lethalgem/day_5/part_2: the almanac is a list of maps, each a list of
 * bounds (an inclusive source range and an equally long destination range);
 * the seeds are inclusive ranges built from `(start, length)` pairs, and the
 * answer is the lowest location of any seed, found value by value.
 */
module LethalgemDay5Part2 {
  import opened Text
  import MohammadDay05

  datatype Day5Error = ParseIntFailed | ParsedTooManyNumbers | MissingMapInfo | NoFirstLine | UnevenSeedList

  /** `SeedRange`: the inclusive range `lo..=hi`; it is empty when `hi < lo`. */
  datatype SeedRange = SeedRange(lo: int, hi: int)

  /** `MapBounds`: inclusive `i64` source and destination ranges. */
  datatype MapBounds = MapBounds(srcLo: int, srcHi: int, dstLo: int, dstHi: int)

  /** The bounds built from a line "d s n". */
  function BoundsOf(d: int, s: int, n: int): (b: MapBounds)
    ensures b.srcHi - b.srcLo == b.dstHi - b.dstLo == n - 1
    ensures b.srcLo == s && b.dstLo == d
  {
    MapBounds(s, s + n - 1, d, d + n - 1)
  }

  /**
   * The traversal casts the `i64` starts and ends to `u64`; the model keeps
   * to bounds whose starts are non-negative, where the cast changes nothing.
   */
  predicate NonNegative(b: MapBounds) { b.srcLo >= 0 && b.dstLo >= 0 && b.srcHi >= 0 }

  predicate MapNonNegative(bounds: seq<MapBounds>) { forall k :: 0 <= k < |bounds| ==> NonNegative(bounds[k]) }

  predicate AllNonNegative(maps: seq<seq<MapBounds>>) { forall m :: 0 <= m < |maps| ==> MapNonNegative(maps[m]) }

  /** `Between::within`: inclusive on both ends. */
  predicate Within(v: int, lo: int, hi: int) { lo <= v <= hi }

  /**
   * One map applied to one value: the first bounds whose source range holds
   * the value move it by the offset into the destination range; a value no
   * bounds hold is kept.
   */
  function MapValue(bounds: seq<MapBounds>, v: int): int
    decreases |bounds|
  {
    if bounds == [] then v
    else if Within(v, bounds[0].srcLo, bounds[0].srcHi) then
      bounds[0].dstLo + (v - bounds[0].srcLo)
    else
      assert forall k :: 1 <= k < |bounds| ==> bounds[1..][k - 1] == bounds[k];
      MapValue(bounds[1..], v)
  }

  /** A value no bounds hold is kept. */
  lemma {:induction false} MapValueUncovered(bounds: seq<MapBounds>, v: int)
    requires forall k :: 0 <= k < |bounds| ==> !Within(v, bounds[k].srcLo, bounds[k].srcHi)
    ensures MapValue(bounds, v) == v
    decreases |bounds|
  {
    if bounds != [] {
      assert !Within(v, bounds[0].srcLo, bounds[0].srcHi);
      assert forall k :: 1 <= k < |bounds| ==> bounds[1..][k - 1] == bounds[k];
      MapValueUncovered(bounds[1..], v);
    }
  }

  /** The first bounds holding the value move it by their offset. */
  lemma {:induction false} MapValueFirst(bounds: seq<MapBounds>, v: int, k: nat)
    requires k < |bounds| && Within(v, bounds[k].srcLo, bounds[k].srcHi)
    requires forall q :: 0 <= q < k ==> !Within(v, bounds[q].srcLo, bounds[q].srcHi)
    ensures MapValue(bounds, v) == bounds[k].dstLo + (v - bounds[k].srcLo)
    decreases k
  {
    if k > 0 {
      assert !Within(v, bounds[0].srcLo, bounds[0].srcHi);
      assert forall q :: 1 <= q < |bounds| ==> bounds[1..][q - 1] == bounds[q];
      MapValueFirst(bounds[1..], v, k - 1);
    }
  }

  /** The value after walking the maps in order. */
  function Traverse(maps: seq<seq<MapBounds>>, v: int): int
    decreases |maps|
  {
    if maps == [] then v
    else
      assert forall m :: 1 <= m < |maps| ==> maps[1..][m - 1] == maps[m];
      Traverse(maps[1..], MapValue(maps[0], v))
  }

  /** `traverse_almanac_for_location`: the first matching bounds of each map, then `break`. */
  method TraverseAlmanacForLocation(seed: int, maps: seq<seq<MapBounds>>) returns (source: int)
    ensures source == Traverse(maps, seed)
  {
    source := seed;
    for m := 0 to |maps|
      invariant Traverse(maps[m..], source) == Traverse(maps, seed)
    {
      assert maps[m..][1..] == maps[m + 1..];
      var bounds := maps[m];
      ghost var before := source;
      var k := 0;
      while k < |bounds|
        invariant 0 <= k <= |bounds| && source == before
        invariant forall q :: 0 <= q < k ==> !Within(before, bounds[q].srcLo, bounds[q].srcHi)
      {
        if Within(source, bounds[k].srcLo, bounds[k].srcHi) {
          MapValueFirst(bounds, before, k);
          source := bounds[k].dstLo + (source - bounds[k].srcLo);
          break;
        }
        k := k + 1;
      }
      if k == |bounds| {
        MapValueUncovered(bounds, before);
      }
    }
  }

  function ToRule(b: MapBounds): MohammadDay05.Rule
    requires NonNegative(b) && b.dstHi >= 0
  {
    MohammadDay05.Rule(MohammadDay05.Interval(b.srcLo, b.srcHi), MohammadDay05.Interval(b.dstLo, b.dstHi))
  }

  /** The same stage in the form of mohammad/day05's rule list. */
  function ToRules(bounds: seq<MapBounds>): (rules: seq<MohammadDay05.Rule>)
    requires forall k :: 0 <= k < |bounds| ==> NonNegative(bounds[k]) && bounds[k].dstHi >= 0
    ensures |rules| == |bounds|
    ensures forall k :: 0 <= k < |bounds| ==>
      rules[k].src.lo == bounds[k].srcLo && rules[k].src.hi == bounds[k].srcHi && rules[k].dst.lo == bounds[k].dstLo
  {
    seq(|bounds|, k requires 0 <= k < |bounds| => ToRule(bounds[k]))
  }

  /** This solver's single-map lookup agrees with mohammad/day05's `get_from_map`. */
  lemma {:induction false} MapValueAgrees(bounds: seq<MapBounds>, v: nat)
    requires forall k :: 0 <= k < |bounds| ==> NonNegative(bounds[k]) && bounds[k].dstHi >= 0
    ensures MapValue(bounds, v) == MohammadDay05.GetFromMap(ToRules(bounds), v)
  {
    var rules := ToRules(bounds);
    MohammadDay05.GetFromMapFirst(rules, v);
    if forall k :: 0 <= k < |bounds| ==> !Within(v, bounds[k].srcLo, bounds[k].srcHi) {
      MapValueUncovered(bounds, v);
      assert forall k :: 0 <= k < |rules| ==> !MohammadDay05.InRange(v, rules[k].src);
    } else {
      var f := FirstWithin(bounds, v);
      MapValueFirst(bounds, v, f);
      assert MohammadDay05.InRange(v, rules[f].src);
      assert forall q :: 0 <= q < f ==> !MohammadDay05.InRange(v, rules[q].src);
    }
  }

  /** The first bounds holding `v`, when some bounds hold it. */
  lemma {:induction false} FirstWithin(bounds: seq<MapBounds>, v: nat) returns (f: nat)
    requires exists k :: 0 <= k < |bounds| && Within(v, bounds[k].srcLo, bounds[k].srcHi)
    ensures f < |bounds| && Within(v, bounds[f].srcLo, bounds[f].srcHi)
    ensures forall q :: 0 <= q < f ==> !Within(v, bounds[q].srcLo, bounds[q].srcHi)
  {
    var k :| 0 <= k < |bounds| && Within(v, bounds[k].srcLo, bounds[k].srcHi);
    f := 0;
    while !Within(v, bounds[f].srcLo, bounds[f].srcHi)
      invariant f <= k
      invariant forall q :: 0 <= q < f ==> !Within(v, bounds[q].srcLo, bounds[q].srcHi)
      decreases k - f
    {
      f := f + 1;
    }
  }

  predicate InSeedRange(r: SeedRange, v: int) { r.lo <= v <= r.hi }

  /** No range holds a seed (every range empty, or no ranges). */
  predicate NoSeeds(ranges: seq<SeedRange>) { forall k :: 0 <= k < |ranges| ==> ranges[k].hi < ranges[k].lo }

  /**
   * `find_lowest_location`: every seed of every range is walked through the
   * almanac.  The answer is the smallest location of any seed, or 0 when
   * there are no seeds.
   */
  method FindLowestLocation(ranges: seq<SeedRange>, maps: seq<seq<MapBounds>>) returns (lowest: int)
    ensures NoSeeds(ranges) ==> lowest == 0
    ensures forall k, v :: 0 <= k < |ranges| && InSeedRange(ranges[k], v) ==> lowest <= Traverse(maps, v)
    ensures !NoSeeds(ranges) ==>
              exists k, v :: 0 <= k < |ranges| && InSeedRange(ranges[k], v) && lowest == Traverse(maps, v)
  {
    lowest := 0;
    var firstIteration := true;
    ghost var bestK: nat, bestV: int := 0, 0;
    for k := 0 to |ranges|
      invariant firstIteration <==> NoSeeds(ranges[..k])
      invariant firstIteration ==> lowest == 0
      invariant forall q, v :: 0 <= q < k && InSeedRange(ranges[q], v) ==> lowest <= Traverse(maps, v)
      invariant !firstIteration ==> bestK < k && InSeedRange(ranges[bestK], bestV) && lowest == Traverse(maps, bestV)
    {
      var seed: int := ranges[k].lo;
      while seed <= ranges[k].hi
        invariant ranges[k].lo <= seed
        invariant seed <= ranges[k].hi + 1 || seed == ranges[k].lo
        invariant firstIteration <==> NoSeeds(ranges[..k]) && seed == ranges[k].lo
        invariant firstIteration ==> lowest == 0
        invariant forall q, v :: 0 <= q < k && InSeedRange(ranges[q], v) ==> lowest <= Traverse(maps, v)
        invariant forall v :: ranges[k].lo <= v < seed ==> lowest <= Traverse(maps, v)
        invariant !firstIteration ==> bestK <= k && InSeedRange(ranges[bestK], bestV) && lowest == Traverse(maps, bestV)
        decreases ranges[k].hi - seed
      {
        var location := TraverseAlmanacForLocation(seed, maps);
        if firstIteration {
          lowest := location;
          firstIteration := false;
          bestK, bestV := k, seed;
        } else if location < lowest {
          lowest := location;
          bestK, bestV := k, seed;
        }
        seed := seed + 1;
      }
      assert ranges[..k + 1][..k] == ranges[..k];
      assert ranges[..k + 1][k] == ranges[k];
      assert forall v :: InSeedRange(ranges[k], v) ==> lowest <= Traverse(maps, v);
    }
    assert ranges[..|ranges|] == ranges;
  }

  /** `str::parse::<u64>` over every token, failing when one token fails. */
  function ParseAllUnsigned(tokens: seq<string>): (r: Option<seq<nat>>)
    ensures r.Some? ==> |r.value| == |tokens|
    ensures r.Some? <==> forall k :: 0 <= k < |tokens| ==> ParseU64(tokens[k]).Some?
    ensures r.Some? ==> forall k :: 0 <= k < |tokens| ==> r.value[k] == ParseU64(tokens[k]).value
  {
    if tokens == [] then Some([])
    else
      var first, rest := ParseU64(tokens[0]), ParseAllUnsigned(tokens[1..]);
      assert forall k :: 1 <= k < |tokens| ==> tokens[1..][k - 1] == tokens[k];
      if first.Some? && rest.Some? then Some([first.value] + rest.value) else None
  }

  /**
   * `parse_seeds_list`: the numbers after the first six characters
   * ("seeds:"), taken as `(start, length)` pairs, each becoming the range
   * `start..=start+length-1`.  A token that is not a number is
   * `ParseIntFailed`; an odd count of numbers is `UnevenSeedList`.
   */
  method ParseSeedsList(seedLine: string) returns (r: Result<seq<SeedRange>, Day5Error>)
    requires |seedLine| >= 6
    ensures var nums := ParseAllUnsigned(SplitWhitespace(seedLine[6..]));
      (nums.None? ==> r == Err(ParseIntFailed)) &&
      (nums.Some? && |nums.value| % 2 != 0 ==> r == Err(UnevenSeedList)) &&
      (nums.Some? && |nums.value| % 2 == 0 ==>
        r.Ok? && |r.value| == |nums.value| / 2 &&
        forall k :: 0 <= k < |r.value| ==>
          r.value[k] == SeedRange(nums.value[2 * k], nums.value[2 * k] as int + nums.value[2 * k + 1] - 1))
  {
    var parsed := ParseAllUnsigned(SplitWhitespace(seedLine[6..]));
    if parsed.None? {
      return Err(ParseIntFailed);
    }
    var bounds := parsed.value;
    if |bounds| % 2 != 0 {
      return Err(UnevenSeedList);
    }
    var seedList := PairUp(bounds);
    return Ok(seedList);
  }

  /**
   * The loop of `parse_seeds_list`: an even position remembers the start,
   * the odd position after it closes the range `start..=start+length-1`.
   */
  method PairUp(bounds: seq<nat>) returns (seedList: seq<SeedRange>)
    requires |bounds| % 2 == 0
    ensures 2 * |seedList| == |bounds|
    ensures forall k :: 0 <= k < |seedList| ==>
      seedList[k] == SeedRange(bounds[2 * k], bounds[2 * k] as int + bounds[2 * k + 1] - 1)
  {
    seedList := [];
    var seedLowerBound: nat := 0;
    for i := 0 to |bounds|
      invariant i == 2 * |seedList| || (i == 2 * |seedList| + 1 && seedLowerBound == bounds[i - 1])
      invariant forall k :: 0 <= k < |seedList| ==>
                  seedList[k] == SeedRange(bounds[2 * k], bounds[2 * k] as int + bounds[2 * k + 1] - 1)
    {
      if i % 2 == 1 {
        ghost var h := |seedList|;
        assert i == 2 * h + 1;
        var range := SeedRange(seedLowerBound, seedLowerBound as int + bounds[i] - 1);
        seedList := seedList + [range];
        assert seedList[h] == range;
      } else {
        assert i == 2 * |seedList|;
        seedLowerBound := bounds[i];
      }
    }
  }

  /** The seed ranges of the test line "seeds: 79 14 55 13", from its parsed numbers. */
  lemma {:induction false} SeedsExample()
    ensures ParseAllUnsigned(["79", "14", "55", "13"]) == Some([79, 14, 55, 13])
    ensures SeedRange(79, 79 + 14 - 1) == SeedRange(79, 92) && SeedRange(55, 55 + 13 - 1) == SeedRange(55, 67)
  {
    TwoDigits('7', '9');
    TwoDigits('1', '4');
    TwoDigits('5', '5');
    TwoDigits('1', '3');
    assert "79" == ['7', '9'] && "14" == ['1', '4'] && "55" == ['5', '5'] && "13" == ['1', '3'];
    var t := ["79", "14", "55", "13"];
    assert t[1..] == ["14", "55", "13"] && t[1..][1..] == ["55", "13"] && t[1..][1..][1..] == ["13"];
    assert ["13"][1..] == [] && ["13"][0] == "13";
    assert [13] + [] == [13];
    assert ParseAllUnsigned(["13"]) == Some([13]);
    assert [55] + [13] == [55, 13];
    assert ParseAllUnsigned(["55", "13"]) == Some([55, 13]);
    assert [14] + [55, 13] == [14, 55, 13];
    assert ParseAllUnsigned(["14", "55", "13"]) == Some([14, 55, 13]);
    assert [79] + [14, 55, 13] == [79, 14, 55, 13];
  }

  /**
   * What one line of a map section becomes: the tokens are parsed in order;
   * a token that is not an `i64` fails with `ParseIntFailed`, a fourth token
   * (once parsed) with `ParsedTooManyNumbers`; fewer than three numbers is
   * `MissingMapInfo`.
   */
  function LineBounds(tokens: seq<string>): (r: Result<MapBounds, Day5Error>)
    ensures r.Ok? ==> |tokens| == 3 && exists d, s, n ::
      ParseI64(tokens[0]) == Some(d) && ParseI64(tokens[1]) == Some(s) &&
      ParseI64(tokens[2]) == Some(n) && r.value == BoundsOf(d, s, n)
  {
    if |tokens| > 0 && ParseI64(tokens[0]).None? then Err(ParseIntFailed)
    else if |tokens| > 1 && ParseI64(tokens[1]).None? then Err(ParseIntFailed)
    else if |tokens| > 2 && ParseI64(tokens[2]).None? then Err(ParseIntFailed)
    else if |tokens| > 3 && ParseI64(tokens[3]).None? then Err(ParseIntFailed)
    else if |tokens| > 3 then Err(ParsedTooManyNumbers)
    else if |tokens| < 3 then Err(MissingMapInfo)
    else Ok(BoundsOf(ParseI64(tokens[0]).value, ParseI64(tokens[1]).value, ParseI64(tokens[2]).value))
  }

  /** Three numbers make bounds, four or more numbers are too many, fewer are missing information. */
  lemma {:induction false} LineBoundsCases(tokens: seq<string>)
    requires forall k :: 0 <= k < |tokens| ==> ParseI64(tokens[k]).Some?
    ensures |tokens| == 3 <==> LineBounds(tokens).Ok?
    ensures |tokens| > 3 <==> LineBounds(tokens) == Err(ParsedTooManyNumbers)
    ensures |tokens| < 3 <==> LineBounds(tokens) == Err(MissingMapInfo)
  {
  }

  /** The bounds one line of a section gives. */
  function BoundsOfLine(line: string): Result<MapBounds, Day5Error>
  {
    LineBounds(SplitWhitespace(line))
  }

  /** The bounds of each line of a section, in order. */
  function LineResults(section: seq<string>): seq<Result<MapBounds, Day5Error>>
  {
    Each(BoundsOfLine, section)
  }

  /**
   * `create_map_bounds`: one bounds per line; the first line that fails
   * decides the error.
   */
  method CreateMapBounds(lines: seq<string>) returns (r: Result<seq<MapBounds>, Day5Error>)
    ensures r.Ok? <==> forall k :: 0 <= k < |lines| ==> LineBounds(SplitWhitespace(lines[k])).Ok?
    ensures r.Ok? ==> (|r.value| == |lines| &&
      forall k :: 0 <= k < |lines| ==> r.value[k] == LineBounds(SplitWhitespace(lines[k])).value)
    ensures r.Err? ==> exists k :: (0 <= k < |lines| && LineBounds(SplitWhitespace(lines[k])) == Err(r.error) &&
      forall q :: 0 <= q < k ==> LineBounds(SplitWhitespace(lines[q])).Ok?)
    ensures r == Collect(LineResults(lines))
  {
    var mapBounds: seq<MapBounds> := [];
    for k := 0 to |lines|
      invariant Collect(LineResults(lines[..k])) == Ok(mapBounds)
    {
      var bounds := ReadBounds(SplitWhitespace(lines[k]));
      LineResultsStep(lines, k);
      if bounds.Err? {
        LineResultsStop(lines, k);
        return Err(bounds.error);
      }
      mapBounds := mapBounds + [bounds.value];
    }
    assert lines[..|lines|] == lines;
    return Ok(mapBounds);
  }

  /** Reading one more line of a section collects one more result. */
  lemma {:induction false} LineResultsStep(lines: seq<string>, k: nat)
    requires k < |lines|
    ensures Collect(LineResults(lines[..k + 1])) ==
      if Collect(LineResults(lines[..k])).Err? then Collect(LineResults(lines[..k]))
      else if BoundsOfLine(lines[k]).Err? then Err(BoundsOfLine(lines[k]).error)
      else Ok(Collect(LineResults(lines[..k])).value + [BoundsOfLine(lines[k]).value])
  {
    assert lines[..k + 1] == lines[..k] + [lines[k]];
    EachAppend(BoundsOfLine, lines[..k], [lines[k]]);
    CollectSnoc(LineResults(lines[..k]), BoundsOfLine(lines[k]));
  }

  /** Once a prefix of the section has failed, the whole section fails the same way. */
  lemma {:induction false} LineResultsStop(lines: seq<string>, k: nat)
    requires k < |lines| && Collect(LineResults(lines[..k + 1])).Err?
    ensures Collect(LineResults(lines)) == Collect(LineResults(lines[..k + 1]))
  {
    assert lines == lines[..k + 1] + lines[k + 1..];
    EachAppend(BoundsOfLine, lines[..k + 1], lines[k + 1..]);
    CollectAppend(LineResults(lines[..k + 1]), LineResults(lines[k + 1..]));
  }

  /**
   * The body of `create_map_bounds` for one line: its tokens are read into
   * the three options in a loop.
   */
  method ReadBounds(tokens: seq<string>) returns (r: Result<MapBounds, Day5Error>)
    ensures r == LineBounds(tokens)
  {
    var destinationStart: Option<int> := None;
    var sourceStart: Option<int> := None;
    var rangeLength: Option<int> := None;
    for i := 0 to |tokens|
      invariant forall q :: 0 <= q < i ==> ParseI64(tokens[q]).Some?
      invariant i <= 3
      invariant destinationStart == (if i > 0 then Some(ParseI64(tokens[0]).value) else None)
      invariant sourceStart == (if i > 1 then Some(ParseI64(tokens[1]).value) else None)
      invariant rangeLength == (if i > 2 then Some(ParseI64(tokens[2]).value) else None)
    {
      var parsed := ParseI64(tokens[i]);
      if parsed.None? {
        return Err(ParseIntFailed);
      }
      if i == 0 {
        destinationStart := parsed;
      } else if i == 1 {
        sourceStart := parsed;
      } else if i == 2 {
        rangeLength := parsed;
      } else {
        return Err(ParsedTooManyNumbers);
      }
    }
    if destinationStart.Some? && sourceStart.Some? && rangeLength.Some? {
      return Ok(BoundsOf(destinationStart.value, sourceStart.value, rangeLength.value));
    } else {
      return Err(MissingMapInfo);
    }
  }

  /** The section headers at which `create_map_list` closes the map collected so far. */
  predicate ClosesMap(line: string)
  {
    line == "soil-to-fertilizer map:" || line == "fertilizer-to-water map:" ||
    line == "water-to-light map:" || line == "light-to-temperature map:" ||
    line == "temperature-to-humidity map:" || line == "humidity-to-location map:"
  }

  /** Lines that `create_map_list` skips. */
  predicate Skipped(line: string) { line == "" || line == "seed-to-soil map:" }

  function CountClosing(lines: seq<string>): (n: nat)
    ensures n <= |lines|
  {
    if lines == [] then 0 else CountClosing(lines[..|lines| - 1]) + (if ClosesMap(lines[|lines| - 1]) then 1 else 0)
  }

  /** A line a section keeps: neither a header that closes a map nor a skipped line. */
  predicate DataLine(line: string) { !ClosesMap(line) && !Skipped(line) }

  /**
   * The lines `create_map_list` gathers for each map, in order: a closing
   * header starts a new section, skipped lines are dropped, and every other
   * line joins the section being gathered.
   */
  function Sections(lines: seq<string>): (sections: seq<seq<string>>)
    ensures |sections| == CountClosing(lines) + 1
    ensures forall i, k :: 0 <= i < |sections| && 0 <= k < |sections[i]| ==> DataLine(sections[i][k])
    decreases |lines|
  {
    if lines == [] then [[]]
    else
      var init := Sections(lines[..|lines| - 1]);
      var line := lines[|lines| - 1];
      if ClosesMap(line) then init + [[]]
      else if Skipped(line) then init
      else init[..|init| - 1] + [init[|init| - 1] + [line]]
  }

  /** The data lines of the input, in order. */
  function DataLines(lines: seq<string>): (data: seq<string>)
    ensures |data| <= |lines|
    decreases |lines|
  {
    if lines == [] then []
    else DataLines(lines[..|lines| - 1]) + (if DataLine(lines[|lines| - 1]) then [lines[|lines| - 1]] else [])
  }

  /** Appending a line to the last section appends it to the concatenation. */
  lemma {:induction false} ConcatGrowLast(sections: seq<seq<string>>, line: string)
    requires sections != []
    ensures Concat(sections[..|sections| - 1] + [sections[|sections| - 1] + [line]]) == Concat(sections) + [line]
  {
    var n := |sections| - 1;
    var grown := sections[..n] + [sections[n] + [line]];
    assert grown[..n] == sections[..n];
  }

  /** The sections hold exactly the data lines, each once and in order. */
  lemma {:induction false} SectionsCoverData(lines: seq<string>)
    ensures Concat(Sections(lines)) == DataLines(lines)
    decreases |lines|
  {
    if lines != [] {
      var init := lines[..|lines| - 1];
      var line := lines[|lines| - 1];
      SectionsCoverData(init);
      var previous := Sections(init);
      if ClosesMap(line) {
        assert (previous + [[]])[..|previous|] == previous;
      } else if !Skipped(line) {
        ConcatGrowLast(previous, line);
      }
    }
  }

  /**
   * Sections that a later header has closed never change again: the closed
   * sections of a prefix are the first sections of the whole input.
   */
  lemma {:induction false} SectionsStable(lines: seq<string>, k: nat)
    requires k <= |lines|
    ensures |Sections(lines[..k])| <= |Sections(lines)|
    ensures forall j :: 0 <= j < |Sections(lines[..k])| - 1 ==> Sections(lines)[j] == Sections(lines[..k])[j]
    decreases |lines|
  {
    if k < |lines| {
      var init := lines[..|lines| - 1];
      assert init[..k] == lines[..k];
      SectionsStable(init, k);
    } else {
      assert lines[..k] == lines;
    }
  }

  /** The bounds results of each section's lines. */
  function Groups(sections: seq<seq<string>>): seq<seq<Result<MapBounds, Day5Error>>>
  {
    Each(LineResults, sections)
  }

  /** The result `create_map_list` promises: each section collected into a map, or the first error. */
  function MapList(lines: seq<string>): Result<seq<seq<MapBounds>>, Day5Error>
  {
    Collect(CollectEach(Groups(Sections(lines))))
  }

  /** The maps of the sections a header has already closed. */
  function Closed(lines: seq<string>): seq<Result<seq<MapBounds>, Day5Error>>
  {
    var sections := Sections(lines);
    CollectEach(Groups(sections[..|sections| - 1]))
  }

  /** The lines of the section still being gathered. */
  function Open(lines: seq<string>): seq<string>
  {
    var sections := Sections(lines);
    sections[|sections| - 1]
  }

  /** Splitting the sections splits their collected maps. */
  lemma {:induction false} CollectEachSplit(sections: seq<seq<string>>, m: nat)
    requires m <= |sections|
    ensures CollectEach(Groups(sections)) == CollectEach(Groups(sections[..m])) + CollectEach(Groups(sections[m..]))
  {
    assert sections == sections[..m] + sections[m..];
    EachAppend(LineResults, sections[..m], sections[m..]);
    var whole := Groups(sections);
    assert whole == Groups(sections[..m]) + Groups(sections[m..]);
    assert whole[..m] == Groups(sections[..m]);
    assert whole[m..] == Groups(sections[m..]);
  }

  /** A closing header closes the open section into one more map and opens an empty one. */
  lemma {:induction false} StepClose(lines: seq<string>, k: nat)
    requires k < |lines| && ClosesMap(lines[k])
    ensures Open(lines[..k + 1]) == []
    ensures Collect(Closed(lines[..k + 1])) ==
      if Collect(Closed(lines[..k])).Err? then Collect(Closed(lines[..k]))
      else if Collect(LineResults(Open(lines[..k]))).Err? then Err(Collect(LineResults(Open(lines[..k]))).error)
      else Ok(Collect(Closed(lines[..k])).value + [Collect(LineResults(Open(lines[..k]))).value])
  {
    assert lines[..k + 1][..k] == lines[..k];
    var before := Sections(lines[..k]);
    var after := Sections(lines[..k + 1]);
    assert after == before + [[]];
    assert after[..|after| - 1] == before;
    var m := |before| - 1;
    CollectEachSplit(before, m);
    assert before[m..] == [before[m]];
    assert Groups([before[m]]) == [LineResults(before[m])];
    assert CollectEach(Groups([before[m]])) == [Collect(LineResults(before[m]))];
    CollectSnoc(CollectEach(Groups(before[..m])), Collect(LineResults(before[m])));
  }

  /** Any other line leaves the closed maps alone; a data line joins the open section. */
  lemma {:induction false} StepKeep(lines: seq<string>, k: nat)
    requires k < |lines| && !ClosesMap(lines[k])
    ensures Closed(lines[..k + 1]) == Closed(lines[..k])
    ensures Open(lines[..k + 1]) == Open(lines[..k]) + (if Skipped(lines[k]) then [] else [lines[k]])
  {
    assert lines[..k + 1][..k] == lines[..k];
    var before := Sections(lines[..k]);
    var after := Sections(lines[..k + 1]);
    if !Skipped(lines[k]) {
      assert after[..|after| - 1] == before[..|before| - 1];
    }
  }

  /** The whole result: the closed maps, then the last section's. */
  lemma {:induction false} MapListWhole(lines: seq<string>)
    ensures MapList(lines) == Collect(Closed(lines) + [Collect(LineResults(Open(lines)))])
  {
    var sections := Sections(lines);
    var m := |sections| - 1;
    CollectEachSplit(sections, m);
    assert sections[m..] == [sections[m]];
    assert Groups([sections[m]]) == [LineResults(sections[m])];
    assert CollectEach(Groups([sections[m]])) == [Collect(LineResults(sections[m]))];
  }

  /** Once the closed maps hold an error, that error is the result, whatever follows. */
  lemma {:induction false} EarlyStop(lines: seq<string>, k: nat)
    requires k <= |lines| && Collect(Closed(lines[..k])).Err?
    ensures MapList(lines) == Collect(Closed(lines[..k]))
  {
    var prefix := Sections(lines[..k]);
    var sections := Sections(lines);
    var m := |prefix| - 1;
    SectionsStable(lines, k);
    assert sections[..m] == prefix[..m];
    CollectEachSplit(sections, m);
    CollectAppend(CollectEach(Groups(sections[..m])), CollectEach(Groups(sections[m..])));
  }

  /** The lines of all the sections, read one after the other, are read line by line. */
  lemma {:induction false} ConcatGroups(sections: seq<seq<string>>)
    ensures Concat(Groups(sections)) == LineResults(Concat(sections))
    decreases |sections|
  {
    if sections != [] {
      var n := |sections| - 1;
      ConcatGroups(sections[..n]);
      EachAppend(LineResults, sections[..n], [sections[n]]);
      assert sections == sections[..n] + [sections[n]];
      assert Groups(sections)[..n] == Groups(sections[..n]);
      EachAppend(BoundsOfLine, Concat(sections[..n]), sections[n]);
    }
  }

  /** Without errors, there is one map per section, and map `i` holds the bounds of the lines of section `i`. */
  lemma {:induction false} MapListSections(lines: seq<string>)
    ensures MapList(lines).Ok? ==> (|MapList(lines).value| == CountClosing(lines) + 1 &&
      forall i :: 0 <= i < |MapList(lines).value| ==> Collect(LineResults(Sections(lines)[i])) == Ok(MapList(lines).value[i]))
  {
    var groups := CollectEach(Groups(Sections(lines)));
    assert |groups| == |Sections(lines)|;
    assert forall i :: 0 <= i < |groups| ==> groups[i] == Collect(LineResults(Sections(lines)[i]));
  }

  /**
   * Reading the data lines one after the other, in input order, gives the
   * same outcome: the maps fail exactly when some data line's bounds fail,
   * and then with the first such line's error; otherwise the maps, joined,
   * are the bounds of all the data lines.
   */
  lemma {:induction false} MapListFirstError(lines: seq<string>)
    ensures MapList(lines).Ok? <==> Collect(LineResults(DataLines(lines))).Ok?
    ensures MapList(lines).Err? ==> Collect(LineResults(DataLines(lines))) == Err(MapList(lines).error)
    ensures MapList(lines).Ok? ==> Concat(MapList(lines).value) == Collect(LineResults(DataLines(lines))).value
  {
    var sections := Sections(lines);
    CollectGroups(Groups(sections));
    ConcatGroups(sections);
    SectionsCoverData(lines);
  }

  /**
   * `create_map_list`: the lines after the seeds line are collected until a
   * section header closes them into a map; the last map is closed at the
   * end.  Without errors there is one map per section, holding that
   * section's bounds; otherwise the first failing line's error.
   */
  method CreateMapList(lines: seq<string>) returns (r: Result<seq<seq<MapBounds>>, Day5Error>)
    ensures r.Ok? ==> |r.value| == CountClosing(lines) + 1
    ensures r == MapList(lines)
  {
    var mapList: seq<seq<MapBounds>> := [];
    var linesToMap: seq<string> := [];
    for k := 0 to |lines|
      invariant Collect(Closed(lines[..k])) == Ok(mapList)
      invariant linesToMap == Open(lines[..k])
    {
      var line := lines[k];
      if ClosesMap(line) {
        StepClose(lines, k);
        var bounds := CreateMapBounds(linesToMap);
        if bounds.Err? {
          EarlyStop(lines, k + 1);
          return Err(bounds.error);
        }
        mapList := mapList + [bounds.value];
        linesToMap := [];
      } else {
        StepKeep(lines, k);
        if !Skipped(line) {
          linesToMap := linesToMap + [line];
        }
      }
    }
    assert lines[..|lines|] == lines;
    var bounds := CreateMapBounds(linesToMap);
    MapListWhole(lines);
    CollectSnoc(Closed(lines), Collect(LineResults(Open(lines))));
    if bounds.Err? {
      return Err(bounds.error);
    }
    mapList := mapList + [bounds.value];
    return Ok(mapList);
  }

  /** The seven maps of the puzzle's published example almanac. */
  const ExampleMaps: seq<seq<MapBounds>> := [
    [MapBounds(98, 99, 50, 51), MapBounds(50, 97, 52, 99)],
    [MapBounds(15, 51, 0, 36), MapBounds(52, 53, 37, 38), MapBounds(0, 14, 39, 53)],
    [MapBounds(53, 60, 49, 56), MapBounds(11, 52, 0, 41), MapBounds(0, 6, 42, 48), MapBounds(7, 10, 57, 60)],
    [MapBounds(18, 24, 88, 94), MapBounds(25, 94, 18, 87)],
    [MapBounds(77, 99, 45, 67), MapBounds(45, 63, 81, 99), MapBounds(64, 76, 68, 80)],
    [MapBounds(69, 69, 0, 0), MapBounds(0, 68, 1, 69)],
    [MapBounds(56, 92, 60, 96), MapBounds(93, 96, 56, 59)]
  ]

  /** The example's first map is the test's "50 98 2" / "52 50 48": 98..=99 to 50..=51 and 50..=97 to 52..=99. */
  lemma {:induction false} MapBoundsExample()
    ensures ExampleMaps[0] == [BoundsOf(50, 98, 2), BoundsOf(52, 50, 48)]
  {
  }

  /** The example's locations: 79 to 82 and 14 to 43. */
  lemma {:induction false} TraverseExample79()
    ensures Traverse(ExampleMaps, 79) == 82
  {
  }

  lemma {:induction false} TraverseExample14()
    ensures Traverse(ExampleMaps, 14) == 43
  {
  }

  /** The example's locations: 55 to 86 and 13 to 35. */
  lemma {:induction false} TraverseExample55()
    ensures Traverse(ExampleMaps, 55) == 86
  {
  }

  lemma {:induction false} TraverseExample13()
    ensures Traverse(ExampleMaps, 13) == 35
  {
  }

  /** Seed 82 of the example reaches location 46 through the seven maps. */
  lemma {:induction false} TraverseExample82()
    ensures Traverse(ExampleMaps, 82) == 46
  {
  }
}
