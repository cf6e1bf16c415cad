/**
 * mattdamachine/Day05/part_1: the almanac is a list of maps, each a list of
 * conversion lists `(destination start, source start, range)`; a seed is
 * walked through the maps, the first matching list of each map converting it.
 */
module MattdamachineDay05 {
  import opened Text
  import MohammadDay05

  datatype ConversionList = ConversionList(destinationStart: nat, sourceStart: nat, range: nat)

  /**
   * `ParsingError` is the solver's own error; `TooFewNumbers` stands for the
   * panic of indexing `numbers[2]` on a line with fewer than three numbers.
   */
  datatype Day5Error = ParsingError | TooFewNumbers

  /** The match test as written: `source_start <= v <= source_start + range`, inclusive at both ends. */
  predicate Matches(list: ConversionList, v: int)
  {
    list.sourceStart <= v <= list.sourceStart + list.range
  }

  /** One map as written: the first matching list converts `v`; no match keeps it. */
  function ConvertAsWritten(lists: seq<ConversionList>, v: nat): nat
    decreases |lists|
  {
    if lists == [] then v
    else if Matches(lists[0], v) then v - lists[0].sourceStart + lists[0].destinationStart
    else ConvertAsWritten(lists[1..], v)
  }

  /** Every map applied in order, as written. */
  function WalkAsWritten(maps: seq<seq<ConversionList>>, v: nat): nat
    decreases |maps|
  {
    if maps == [] then v else WalkAsWritten(maps[1..], ConvertAsWritten(maps[0], v))
  }

  lemma {:induction false} ConvertUnmatched(lists: seq<ConversionList>, v: nat)
    requires forall k :: 0 <= k < |lists| ==> !Matches(lists[k], v)
    ensures ConvertAsWritten(lists, v) == v
    decreases |lists|
  {
    if lists != [] {
      assert !Matches(lists[0], v);
      assert forall k :: 1 <= k < |lists| ==> lists[1..][k - 1] == lists[k];
      ConvertUnmatched(lists[1..], v);
    }
  }

  lemma {:induction false} ConvertFirstMatch(lists: seq<ConversionList>, v: nat, k: nat)
    requires k < |lists| && Matches(lists[k], v)
    requires forall q :: 0 <= q < k ==> !Matches(lists[q], v)
    ensures ConvertAsWritten(lists, v) == v - lists[k].sourceStart + lists[k].destinationStart
    decreases k
  {
    if k > 0 {
      assert !Matches(lists[0], v);
      assert forall q :: 1 <= q < |lists| ==> lists[1..][q - 1] == lists[q];
      ConvertFirstMatch(lists[1..], v, k - 1);
    }
  }

  /**
   * `find_location_value`: for each map, the first conversion list whose
   * window holds the current value converts it and the scan `break`s; a
   * value no list holds is left unchanged by that map.
   */
  method FindLocationValue(seed: nat, maps: seq<seq<ConversionList>>) returns (currentValue: nat)
    ensures currentValue == WalkAsWritten(maps, seed)
  {
    currentValue := seed;
    for m := 0 to |maps|
      invariant WalkAsWritten(maps[m..], currentValue) == WalkAsWritten(maps, seed)
    {
      assert maps[m..][1..] == maps[m + 1..];
      var lists := maps[m];
      ghost var before := currentValue;
      var k := 0;
      while k < |lists|
        invariant 0 <= k <= |lists| && currentValue == before
        invariant forall q :: 0 <= q < k ==> !Matches(lists[q], before)
      {
        if currentValue >= lists[k].sourceStart && currentValue <= lists[k].sourceStart + lists[k].range {
          ConvertFirstMatch(lists, before, k);
          currentValue := currentValue - lists[k].sourceStart + lists[k].destinationStart;
          break;
        }
        k := k + 1;
      }
      if k == |lists| {
        ConvertUnmatched(lists, before);
      }
    }
  }

  /**
   * The window as written holds `range + 1` numbers: the number just past the
   * list's source range is converted too.  With the single list "50 98 2"
   * (source 98..=99), the number 100 becomes 52 instead of staying 100.
   */
  lemma {:induction false} OffByOneWindow()
    ensures Matches(ConversionList(50, 98, 2), 100)
    ensures WalkAsWritten([[ConversionList(50, 98, 2)]], 100) == 52
    ensures IntendedWalk([[ConversionList(50, 98, 2)]], 100) == 100
  {
    assert [[ConversionList(50, 98, 2)]][1..] == [];
    assert [ConversionList(50, 98, 2)][1..] == [];
  }

  /** The intended window: the `range` numbers from the source start on. */
  predicate MatchesIntended(list: ConversionList, v: int)
  {
    list.sourceStart <= v < list.sourceStart + list.range
  }

  /** One map with the intended window. */
  function IntendedConvert(lists: seq<ConversionList>, v: nat): nat
    decreases |lists|
  {
    if lists == [] then v
    else if MatchesIntended(lists[0], v) then v - lists[0].sourceStart + lists[0].destinationStart
    else IntendedConvert(lists[1..], v)
  }

  /** Every map applied in order, with the intended window. */
  function IntendedWalk(maps: seq<seq<ConversionList>>, v: nat): nat
    decreases |maps|
  {
    if maps == [] then v else IntendedWalk(maps[1..], IntendedConvert(maps[0], v))
  }

  /** The almanac rule a conversion list with a positive range stands for. */
  function RuleOf(list: ConversionList): MohammadDay05.Rule
    requires list.range >= 1
  {
    MohammadDay05.RuleOfLine(list.destinationStart, list.sourceStart, list.range)
  }

  /**
   * With the intended window, one map converts exactly as mohammad/day05's
   * `get_from_map` does on the same rules.
   */
  lemma {:induction false} IntendedConvertAgrees(lists: seq<ConversionList>, v: nat)
    requires forall k :: 0 <= k < |lists| ==> lists[k].range >= 1
    ensures IntendedConvert(lists, v) == MohammadDay05.GetFromMap(seq(|lists|, k requires 0 <= k < |lists| => RuleOf(lists[k])), v)
    decreases |lists|
  {
    var rules := seq(|lists|, k requires 0 <= k < |lists| => RuleOf(lists[k]));
    if lists != [] {
      var tail := seq(|lists| - 1, k requires 0 <= k < |lists| - 1 => RuleOf(lists[1..][k]));
      assert rules[1..] == tail;
      IntendedConvertAgrees(lists[1..], v);
      assert MohammadDay05.InRange(v, rules[0].src) <==> MatchesIntended(lists[0], v);
    }
  }

  /** Data lines: neither a map header (a line containing "map") nor empty. */
  predicate IsDataLine(line: string) { !Contains(line, "map") && line != [] }

  /** The conversion list one data line makes: its first three numbers, in token order. */
  function ListOfLine(line: string): (r: Result<ConversionList, Day5Error>)
    ensures r.Ok? ==> var nums := ParseNumbers(SplitWhitespace(line));
      nums.Some? && |nums.value| >= 3 && r.value == ConversionList(nums.value[0], nums.value[1], nums.value[2])
  {
    var nums := ParseNumbers(SplitWhitespace(line));
    if nums.None? then Err(ParsingError)
    else if |nums.value| < 3 then Err(TooFewNumbers)
    else Ok(ConversionList(nums.value[0], nums.value[1], nums.value[2]))
  }

  /** Every token parsed as a `u64`, or `None` at the first that is not one. */
  function ParseNumbers(tokens: seq<string>): (r: Option<seq<nat>>)
    ensures r.Some? ==> |r.value| == |tokens| && forall k :: 0 <= k < |tokens| ==> Some(r.value[k]) == ParseU64(tokens[k])
    ensures r.None? ==> exists k :: 0 <= k < |tokens| && ParseU64(tokens[k]).None?
  {
    if tokens == [] then Some([])
    else
      var first, rest := ParseU64(tokens[0]), ParseNumbers(tokens[1..]);
      assert forall k :: 1 <= k < |tokens| ==> tokens[1..][k - 1] == tokens[k];
      if first.Some? && rest.Some? then Some([first.value] + rest.value)
      else if first.None? then None
      else
        var k :| 0 <= k < |tokens[1..]| && ParseU64(tokens[1..][k]).None?;
        assert ParseU64(tokens[k + 1]).None?;
        None
  }

  /** The conversion lists of all data lines, in order, while none fails. */
  function DataLists(lines: seq<string>): seq<ConversionList>
    decreases |lines|
  {
    if lines == [] then []
    else
      var init, last := lines[..|lines| - 1], lines[|lines| - 1];
      if IsDataLine(last) && ListOfLine(last).Ok? then DataLists(init) + [ListOfLine(last).value]
      else DataLists(init)
  }

  function Flatten(maps: seq<seq<ConversionList>>): seq<ConversionList>
    decreases |maps|
  {
    if maps == [] then [] else Flatten(maps[..|maps| - 1]) + maps[|maps| - 1]
  }

  predicate NoEmptyMap(maps: seq<seq<ConversionList>>) { forall m :: 0 <= m < |maps| ==> maps[m] != [] }

  /**
   * `populate_almanac`: a line containing "map" starts a new map (the one
   * collected so far is kept only if it has lists); every other non-empty
   * line becomes one conversion list of the current map.  The first data line
   * that does not parse is the error.  Without error, the maps hold exactly
   * the data lines' lists in order, and none of them is empty.
   */
  method PopulateAlmanac(lines: seq<string>) returns (r: Result<seq<seq<ConversionList>>, Day5Error>)
    ensures r.Ok? ==> (forall k :: 0 <= k < |lines| && IsDataLine(lines[k]) ==> ListOfLine(lines[k]).Ok?) &&
                      Flatten(r.value) == DataLists(lines) && NoEmptyMap(r.value)
    ensures r.Err? ==> exists k :: FirstFailing(lines, k) && ListOfLine(lines[k]) == Err(r.error)
    ensures r.Ok? ==> MapsMatch(r.value, AlmanacSections(lines))
  {
    var maps: seq<seq<ConversionList>> := [];
    var currentMap: seq<ConversionList> := [];
    for k := 0 to |lines|
      invariant Collected(lines[..k], maps, currentMap)
      invariant Sectioned(lines[..k], maps, currentMap)
    {
      var line := lines[k];
      if Contains(line, "map") {
        HeaderStep(lines, k, maps, currentMap);
        SectionHeaderStep(lines, k, maps, currentMap);
        if currentMap != [] {
          maps := maps + [currentMap];
        }
        currentMap := [];
      } else if line != [] {
        var list := ListOfLine(line);
        if list.Err? {
          assert IsDataLine(lines[k]) && ListOfLine(lines[k]) == Err(list.error);
          return Err(list.error);
        }
        DataStep(lines, k, maps, currentMap);
        SectionDataStep(lines, k, maps, currentMap);
        currentMap := currentMap + [list.value];
      } else {
        EmptyStep(lines, k, maps, currentMap);
        SectionEmptyStep(lines, k, maps, currentMap);
      }
    }
    assert lines[..|lines|] == lines;
    if currentMap != [] {
      FlattenSnoc(maps, currentMap);
      maps := maps + [currentMap];
    }
    return Ok(maps);
  }

  /**
   * The lines of the almanac grouped as `populate_almanac` groups them: a
   * header closes the group being gathered if it has lines, empty lines are
   * dropped, and every other line joins the group being gathered.  The last
   * group is the one still being gathered; every other group has lines.
   */
  function Sections(lines: seq<string>): (sections: seq<seq<string>>)
    ensures |sections| >= 1
    ensures forall i :: 0 <= i < |sections| - 1 ==> sections[i] != []
    ensures forall i, j :: 0 <= i < |sections| && 0 <= j < |sections[i]| ==> IsDataLine(sections[i][j])
    decreases |lines|
  {
    if lines == [] then [[]]
    else
      var init := Sections(lines[..|lines| - 1]);
      var line := lines[|lines| - 1];
      var n := |init| - 1;
      if Contains(line, "map") then (if init[n] != [] then init + [[]] else init)
      else if line == [] then init
      else init[..n] + [init[n] + [line]]
  }

  /** The groups the almanac's maps come from: all of them, without the last if it has no lines. */
  function AlmanacSections(lines: seq<string>): (sections: seq<seq<string>>)
    ensures forall i :: 0 <= i < |sections| ==> sections[i] != []
    ensures forall i, j :: 0 <= i < |sections| && 0 <= j < |sections[i]| ==> IsDataLine(sections[i][j])
  {
    var all := Sections(lines);
    if all[|all| - 1] == [] then all[..|all| - 1] else all
  }

  /** One map holds, in order, the lists its group's lines parse to. */
  predicate MatchesSection(lists: seq<ConversionList>, section: seq<string>)
  {
    |lists| == |section| && forall j :: 0 <= j < |lists| ==> ListOfLine(section[j]) == Ok(lists[j])
  }

  /** Map `i` holds the lists of group `i`, for every group. */
  predicate MapsMatch(maps: seq<seq<ConversionList>>, sections: seq<seq<string>>)
  {
    |maps| == |sections| && forall i :: 0 <= i < |maps| ==> MatchesSection(maps[i], sections[i])
  }

  /** After a prefix of the lines: the maps match the closed groups and the current map the open one. */
  predicate Sectioned(lines: seq<string>, maps: seq<seq<ConversionList>>, currentMap: seq<ConversionList>)
  {
    var sections := Sections(lines);
    MapsMatch(maps, sections[..|sections| - 1]) && MatchesSection(currentMap, sections[|sections| - 1])
  }

  lemma {:induction false} SectionHeaderStep(lines: seq<string>, k: nat, maps: seq<seq<ConversionList>>, currentMap: seq<ConversionList>)
    requires k < |lines| && Sectioned(lines[..k], maps, currentMap) && Contains(lines[k], "map")
    ensures Sectioned(lines[..k + 1], if currentMap != [] then maps + [currentMap] else maps, [])
  {
    assert lines[..k + 1][..k] == lines[..k];
    var before := Sections(lines[..k]);
    var after := Sections(lines[..k + 1]);
    if currentMap != [] {
      assert after == before + [[]];
      assert after[..|after| - 1] == before;
    }
  }

  lemma {:induction false} SectionDataStep(lines: seq<string>, k: nat, maps: seq<seq<ConversionList>>, currentMap: seq<ConversionList>)
    requires k < |lines| && Sectioned(lines[..k], maps, currentMap)
    requires IsDataLine(lines[k]) && ListOfLine(lines[k]).Ok?
    ensures Sectioned(lines[..k + 1], maps, currentMap + [ListOfLine(lines[k]).value])
  {
    assert lines[..k + 1][..k] == lines[..k];
    var before := Sections(lines[..k]);
    var after := Sections(lines[..k + 1]);
    var n := |before| - 1;
    assert after == before[..n] + [before[n] + [lines[k]]];
    assert after[..n] == before[..n];
  }

  lemma {:induction false} SectionEmptyStep(lines: seq<string>, k: nat, maps: seq<seq<ConversionList>>, currentMap: seq<ConversionList>)
    requires k < |lines| && Sectioned(lines[..k], maps, currentMap) && lines[k] == []
    ensures Sectioned(lines[..k + 1], maps, currentMap)
  {
    assert lines[..k + 1][..k] == lines[..k];
    assert !Contains(lines[k], "map");
  }

  /** After a prefix of the lines: every data line parsed, the maps and the current map hold their lists, no map is empty. */
  predicate Collected(lines: seq<string>, maps: seq<seq<ConversionList>>, currentMap: seq<ConversionList>)
  {
    DataLinesParse(lines) && Flatten(maps) + currentMap == DataLists(lines) && NoEmptyMap(maps)
  }

  lemma {:induction false} HeaderStep(lines: seq<string>, k: nat, maps: seq<seq<ConversionList>>, currentMap: seq<ConversionList>)
    requires k < |lines| && Collected(lines[..k], maps, currentMap) && Contains(lines[k], "map")
    ensures Collected(lines[..k + 1], if currentMap != [] then maps + [currentMap] else maps, [])
  {
    DataListsStep(lines, k);
    DataLinesParseStep(lines, k);
    FlattenSnoc(maps, currentMap);
  }

  lemma {:induction false} DataStep(lines: seq<string>, k: nat, maps: seq<seq<ConversionList>>, currentMap: seq<ConversionList>)
    requires k < |lines| && Collected(lines[..k], maps, currentMap)
    requires IsDataLine(lines[k]) && ListOfLine(lines[k]).Ok?
    ensures Collected(lines[..k + 1], maps, currentMap + [ListOfLine(lines[k]).value])
  {
    DataListsStep(lines, k);
    DataLinesParseStep(lines, k);
  }

  lemma {:induction false} EmptyStep(lines: seq<string>, k: nat, maps: seq<seq<ConversionList>>, currentMap: seq<ConversionList>)
    requires k < |lines| && Collected(lines[..k], maps, currentMap) && lines[k] == []
    ensures Collected(lines[..k + 1], maps, currentMap)
  {
    DataListsStep(lines, k);
    DataLinesParseStep(lines, k);
  }

  /** Line `k` is the first data line that does not parse. */
  predicate FirstFailing(lines: seq<string>, k: int)
  {
    0 <= k < |lines| && IsDataLine(lines[k]) && ListOfLine(lines[k]).Err? && DataLinesParse(lines[..k])
  }

  predicate DataLinesParse(lines: seq<string>)
  {
    forall q :: 0 <= q < |lines| && IsDataLine(lines[q]) ==> ListOfLine(lines[q]).Ok?
  }

  lemma {:induction false} DataLinesParseStep(lines: seq<string>, k: nat)
    requires k < |lines| && DataLinesParse(lines[..k])
    requires IsDataLine(lines[k]) ==> ListOfLine(lines[k]).Ok?
    ensures DataLinesParse(lines[..k + 1])
  {
    var prefix := lines[..k + 1];
    forall q | 0 <= q < |prefix| && IsDataLine(prefix[q])
      ensures ListOfLine(prefix[q]).Ok?
    {
      if q < k {
        assert prefix[q] == lines[..k][q];
      }
    }
  }

  lemma {:induction false} DataListsStep(lines: seq<string>, k: nat)
    requires k < |lines|
    ensures DataLists(lines[..k + 1]) == DataLists(lines[..k]) +
      (if IsDataLine(lines[k]) && ListOfLine(lines[k]).Ok? then [ListOfLine(lines[k]).value] else [])
  {
    assert lines[..k + 1][..k] == lines[..k];
  }

  lemma {:induction false} FlattenSnoc(maps: seq<seq<ConversionList>>, m: seq<ConversionList>)
    ensures Flatten(maps + [m]) == Flatten(maps) + m
  {
    assert (maps + [m])[..|maps|] == maps;
  }
}
