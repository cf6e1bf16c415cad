/**
 * lethalgem/day_4/part_1: scratchcards.  A card holds a list of winning
 * numbers and a list of scratched numbers; every scratched number that is
 * also a winning number is a match, and the card is worth 1 point for the
 * first match, doubled for each further one.  The card keeps its points up
 * to date whenever either list is set.
 */
module LethalgemDay4Part1 {
  import opened Text

  datatype Day4Error = ParseIntFailed | NoColonFound | NoPipeFound

  /** The scratched numbers, with repetitions, that occur among the winning numbers. */
  function Matches(winning: seq<int>, scratched: seq<int>): (m: nat)
    ensures m <= |scratched|
    decreases |scratched|
  {
    if scratched == [] then 0
    else (if scratched[0] in winning then 1 else 0) + Matches(winning, scratched[1..])
  }

  function Pow2(n: nat): (p: nat)
    ensures p >= 1
  {
    if n == 0 then 1 else 2 * Pow2(n - 1)
  }

  /** `Card::calculate_points`: 0 when a list is empty, otherwise by the number of matches. */
  function Points(winning: seq<int>, scratched: seq<int>): nat
  {
    if winning == [] || scratched == [] then 0
    else
      var m := Matches(winning, scratched);
      if m == 0 then 0 else if m == 1 then 1 else Pow2(m - 1)
  }

  /**
   * The points are 0 exactly when nothing matches and 2^(matches - 1)
   * otherwise; the empty-list test changes nothing, since an empty list has
   * no matches.
   */
  lemma {:induction false} PointsByMatches(winning: seq<int>, scratched: seq<int>)
    ensures var m := Matches(winning, scratched);
      Points(winning, scratched) == if m == 0 then 0 else Pow2(m - 1)
    ensures Points(winning, scratched) == 0 <==> Matches(winning, scratched) == 0
  {
    if winning == [] {
      NoWinningNoMatches(scratched);
    }
  }

  lemma {:induction false} NoWinningNoMatches(scratched: seq<int>)
    ensures Matches([], scratched) == 0
    decreases |scratched|
  {
    if scratched != [] {
      NoWinningNoMatches(scratched[1..]);
    }
  }

  lemma {:induction false} MatchesSnoc(winning: seq<int>, scratched: seq<int>, x: int)
    ensures Matches(winning, scratched + [x]) == Matches(winning, scratched) + if x in winning then 1 else 0
    decreases |scratched|
  {
    if scratched != [] {
      MatchesSnoc(winning, scratched[1..], x);
      assert (scratched + [x])[1..] == scratched[1..] + [x];
    }
  }

  /** One more matching scratched number doubles a card that already scores. */
  lemma {:induction false} ExtraMatchDoubles(winning: seq<int>, scratched: seq<int>, x: int)
    requires x in winning && Points(winning, scratched) > 0
    ensures Points(winning, scratched + [x]) == 2 * Points(winning, scratched)
  {
    MatchesSnoc(winning, scratched, x);
    PointsByMatches(winning, scratched);
    PointsByMatches(winning, scratched + [x]);
  }

  /** Matches split over a concatenation of scratched lists, so their order does not matter. */
  lemma {:induction false} MatchesAppend(winning: seq<int>, s1: seq<int>, s2: seq<int>)
    ensures Matches(winning, s1 + s2) == Matches(winning, s1) + Matches(winning, s2)
    decreases |s1|
  {
    if s1 != [] {
      MatchesAppend(winning, s1[1..], s2);
      assert (s1 + s2)[1..] == s1[1..] + s2;
    } else {
      assert s1 + s2 == s2;
    }
  }

  lemma MatchesSwap(winning: seq<int>, s1: seq<int>, s2: seq<int>)
    ensures Matches(winning, s1 + s2) == Matches(winning, s2 + s1)
  {
    MatchesAppend(winning, s1, s2);
    MatchesAppend(winning, s2, s1);
  }

  // ---------------------------------------------------------------------

  /** A scratchcard; `points` is kept in step with the two lists. */
  class Card {
    var winningNumbers: seq<int>
    var scratchedNumbers: seq<int>
    var points: int

    ghost predicate Valid()
      reads this
    {
      points == Points(winningNumbers, scratchedNumbers)
    }

    /** `Card::new`: both lists empty and no points. */
    constructor()
      ensures winningNumbers == [] && scratchedNumbers == [] && points == 0
      ensures Valid()
    {
      winningNumbers := [];
      scratchedNumbers := [];
      points := 0;
    }

    method SetWinningNumbers(numbers: seq<int>)
      modifies this
      ensures winningNumbers == numbers && scratchedNumbers == old(scratchedNumbers)
      ensures points == Points(numbers, scratchedNumbers)
      ensures Valid()
    {
      winningNumbers := numbers;
      points := Points(winningNumbers, scratchedNumbers);
    }

    method SetScratchedNumbers(numbers: seq<int>)
      modifies this
      ensures scratchedNumbers == numbers && winningNumbers == old(winningNumbers)
      ensures points == Points(winningNumbers, numbers)
      ensures Valid()
    {
      scratchedNumbers := numbers;
      points := Points(winningNumbers, scratchedNumbers);
    }
  }

  // ---------------------------------------------------------------------
  // Reading the cards

  /** The numbers of a whitespace-separated list, or the first parse failure. */
  function Numbers(tokens: seq<string>): (r: Result<seq<int>, Day4Error>)
    ensures r.Ok? ==> |r.value| == |tokens|
    ensures r.Err? ==> r.error == ParseIntFailed
    decreases |tokens|
  {
    if tokens == [] then Ok([])
    else match ParseI32(tokens[|tokens| - 1])
      case None => Err(ParseIntFailed)
      case Some(n) =>
        match Numbers(tokens[..|tokens| - 1])
        case Err(e) => Err(e)
        case Ok(ns) => Ok(ns + [n])
  }

  /** The list fails exactly when some token does not parse, and otherwise holds every token's value. */
  lemma {:induction false} NumbersFacts(tokens: seq<string>)
    ensures Numbers(tokens).Err? <==> exists i :: 0 <= i < |tokens| && ParseI32(tokens[i]).None?
    ensures Numbers(tokens).Ok? ==>
      forall i :: 0 <= i < |tokens| ==> ParseI32(tokens[i]) == Some(Numbers(tokens).value[i])
    decreases |tokens|
  {
    if tokens != [] {
      var init := tokens[..|tokens| - 1];
      NumbersFacts(init);
      assert forall i :: 0 <= i < |init| ==> init[i] == tokens[i];
    }
  }

  /** `extract_numbers`: one push per token, stopping at the first that does not parse. */
  method ExtractNumbers(list: string) returns (r: Result<seq<int>, Day4Error>)
    ensures r == Numbers(SplitWhitespace(list))
  {
    var nums := SplitWhitespace(list);
    var converted: seq<int> := [];
    for i := 0 to |nums|
      invariant Numbers(nums[..i]) == Ok(converted)
    {
      assert nums[..i + 1][..i] == nums[..i];
      var n := ParseI32(nums[i]);
      if n.None? {
        NumbersPrefixFails(nums, i + 1);
        return Err(ParseIntFailed);
      }
      converted := converted + [n.value];
    }
    assert nums[..|nums|] == nums;
    r := Ok(converted);
  }

  /** A token that does not parse fails the whole list. */
  lemma {:induction false} NumbersPrefixFails(tokens: seq<string>, k: nat)
    requires 0 < k <= |tokens| && ParseI32(tokens[k - 1]).None?
    ensures Numbers(tokens) == Err(ParseIntFailed)
    decreases |tokens|
  {
    if k < |tokens| {
      var init := tokens[..|tokens| - 1];
      assert init[k - 1] == tokens[k - 1];
      NumbersPrefixFails(init, k);
    }
  }

  /** The two lists after a card's colon, split at the first `|`. */
  function SetsNumbers(sets: string): Result<(seq<int>, seq<int>), Day4Error>
  {
    var pipe := IndexOf(sets, '|');
    if pipe == |sets| then Err(NoPipeFound) else BothNumbers(sets[..pipe], sets[pipe + 1..])
  }

  /** The winning list, then the scratched list, or the first parse failure. */
  function BothNumbers(winning: string, scratched: string): Result<(seq<int>, seq<int>), Day4Error>
  {
    match Numbers(SplitWhitespace(winning))
    case Err(e) => Err(e)
    case Ok(w) =>
      match Numbers(SplitWhitespace(scratched))
      case Err(e) => Err(e)
      case Ok(s) => Ok((w, s))
  }

  /** The two lists of a card line: everything after the first `:`. */
  function CardNumbers(line: string): Result<(seq<int>, seq<int>), Day4Error>
  {
    var colon := IndexOf(line, ':');
    if colon == |line| then Err(NoColonFound) else SetsNumbers(line[colon + 1..])
  }

  /** A line without `:` is `NoColonFound`; one with `:` but no `|` after it is `NoPipeFound`. */
  lemma CardNumbersErrors(line: string)
    ensures CardNumbers(line) == Err(NoColonFound) <==> ':' !in line
    ensures CardNumbers(line) == Err(NoPipeFound) <==> ':' in line && '|' !in line[IndexOf(line, ':') + 1..]
  {
    var colon := IndexOf(line, ':');
    if colon < |line| {
      var sets := line[colon + 1..];
      assert SetsNumbers(sets) == Err(NoPipeFound) <==> '|' !in sets;
    }
  }

  /** The lists of the part after the colon, read onto a new card. */
  method ExtractSets(sets: string) returns (r: Result<Card, Day4Error>)
    ensures r.Err? ==> SetsNumbers(sets) == Err(r.error)
    ensures r.Ok? ==> fresh(r.value) && r.value.Valid()
    ensures r.Ok? ==> SetsNumbers(sets) == Ok((r.value.winningNumbers, r.value.scratchedNumbers))
  {
    var pipe := IndexOf(sets, '|');
    if pipe == |sets| {
      return Err(NoPipeFound);
    }
    r := FillCard(sets[..pipe], sets[pipe + 1..]);
  }

  /** A new card given the winning list, then the scratched list; a parse failure stops it. */
  method FillCard(winningList: string, scratchedList: string) returns (r: Result<Card, Day4Error>)
    ensures r.Err? ==> BothNumbers(winningList, scratchedList) == Err(r.error)
    ensures r.Ok? ==> fresh(r.value) && r.value.Valid()
    ensures r.Ok? ==> BothNumbers(winningList, scratchedList) == Ok((r.value.winningNumbers, r.value.scratchedNumbers))
  {
    var card := new Card();
    var winning := ExtractNumbers(winningList);
    if winning.Err? {
      return Err(winning.error);
    }
    card.SetWinningNumbers(winning.value);
    var scratched := ExtractNumbers(scratchedList);
    if scratched.Err? {
      return Err(scratched.error);
    }
    card.SetScratchedNumbers(scratched.value);
    r := Ok(card);
  }

  /** `extract_card`: a new card given its winning, then its scratched numbers. */
  method ExtractCard(line: string) returns (r: Result<Card, Day4Error>)
    ensures r.Err? ==> CardNumbers(line) == Err(r.error)
    ensures r.Ok? ==> fresh(r.value) && r.value.Valid()
    ensures r.Ok? ==> CardNumbers(line) == Ok((r.value.winningNumbers, r.value.scratchedNumbers))
  {
    var colon := IndexOf(line, ':');
    if colon == |line| {
      return Err(NoColonFound);
    }
    var sets := line[colon + 1..];
    r := ExtractSets(sets);
    CardNumbersAfterColon(line, colon, sets);
  }

  lemma CardNumbersAfterColon(line: string, colon: nat, sets: string)
    requires colon == IndexOf(line, ':') < |line| && sets == line[colon + 1..]
    ensures CardNumbers(line) == SetsNumbers(sets)
  {
  }

  /** The numbers of every line, or the first line's error. */
  function AllCardNumbers(lines: seq<string>): (r: Result<seq<(seq<int>, seq<int>)>, Day4Error>)
    ensures r.Ok? ==> |r.value| == |lines|
    decreases |lines|
  {
    if lines == [] then Ok([])
    else match AllCardNumbers(lines[..|lines| - 1])
      case Err(e) => Err(e)
      case Ok(cs) =>
        match CardNumbers(lines[|lines| - 1])
        case Err(e) => Err(e)
        case Ok(c) => Ok(cs + [c])
  }

  lemma {:induction false} AllCardNumbersPrefixFails(lines: seq<string>, k: nat)
    requires k <= |lines| && AllCardNumbers(lines[..k]).Err?
    ensures AllCardNumbers(lines) == AllCardNumbers(lines[..k])
    decreases |lines|
  {
    if k < |lines| {
      assert lines[..|lines| - 1][..k] == lines[..k];
      AllCardNumbersPrefixFails(lines[..|lines| - 1], k);
    } else {
      assert lines[..k] == lines;
    }
  }

  lemma AllCardNumbersNext(lines: seq<string>, i: nat)
    requires i < |lines| && AllCardNumbers(lines[..i]).Ok?
    ensures AllCardNumbers(lines[..i + 1]) ==
      match CardNumbers(lines[i])
      case Err(e) => Err(e)
      case Ok(c) => Ok(AllCardNumbers(lines[..i]).value + [c])
  {
    assert lines[..i + 1][..i] == lines[..i];
  }

  /** Each card is up to date and holds the lists at its position in `numbers`. */
  ghost predicate Holds(cards: seq<Card>, numbers: seq<(seq<int>, seq<int>)>)
    reads cards
  {
    |cards| == |numbers| &&
    forall k :: 0 <= k < |cards| ==>
      cards[k].Valid() && (cards[k].winningNumbers, cards[k].scratchedNumbers) == numbers[k]
  }

  lemma HoldsSnoc(cards: seq<Card>, numbers: seq<(seq<int>, seq<int>)>, card: Card)
    requires Holds(cards, numbers) && card.Valid()
    ensures Holds(cards + [card], numbers + [(card.winningNumbers, card.scratchedNumbers)])
  {
  }

  /** `extract_cards`: one card per line, or the first error. */
  method ExtractCards(input: string) returns (r: Result<seq<Card>, Day4Error>)
    ensures r.Err? <==> AllCardNumbers(Lines(input)).Err?
    ensures r.Err? ==> r.error == AllCardNumbers(Lines(input)).error
    ensures r.Ok? ==> Holds(r.value, AllCardNumbers(Lines(input)).value)
  {
    var lines := Lines(input);
    var cards: seq<Card> := [];
    ghost var numbers: seq<(seq<int>, seq<int>)> := [];
    for i := 0 to |lines|
      invariant AllCardNumbers(lines[..i]) == Ok(numbers)
      invariant Holds(cards, numbers)
    {
      var card := ExtractCard(lines[i]);
      AllCardNumbersNext(lines, i);
      if card.Err? {
        AllCardNumbersPrefixFails(lines, i + 1);
        return Err(card.error);
      }
      HoldsSnoc(cards, numbers, card.value);
      numbers := numbers + [(card.value.winningNumbers, card.value.scratchedNumbers)];
      cards := cards + [card.value];
    }
    assert lines[..|lines|] == lines;
    r := Ok(cards);
  }

  /** `sum_cards`: the points of all the cards. */
  function SumCards(cards: seq<Card>): int
    reads cards
    decreases |cards|
  {
    if cards == [] then 0 else cards[0].points + SumCards(cards[1..])
  }

  /** The answer computed on the numbers alone. */
  function TotalPoints(numbers: seq<(seq<int>, seq<int>)>): nat
    decreases |numbers|
  {
    if numbers == [] then 0 else Points(numbers[0].0, numbers[0].1) + TotalPoints(numbers[1..])
  }

  /** Cards that keep their points up to date sum to the points of their lists. */
  lemma {:induction false} SumCardsIsTotal(cards: seq<Card>, numbers: seq<(seq<int>, seq<int>)>)
    requires Holds(cards, numbers)
    ensures SumCards(cards) == TotalPoints(numbers)
    decreases |cards|
  {
    if cards != [] {
      SumCardsIsTotal(cards[1..], numbers[1..]);
    }
  }

  /** The matches among the first `n` scratched numbers, counted by position. */
  function MatchesUpTo(winning: seq<int>, scratched: seq<int>, n: nat): nat
    requires n <= |scratched|
  {
    if n == 0 then 0
    else MatchesUpTo(winning, scratched, n - 1) + if scratched[n - 1] in winning then 1 else 0
  }

  lemma {:induction false} MatchesByPosition(winning: seq<int>, scratched: seq<int>, n: nat)
    requires n <= |scratched|
    ensures Matches(winning, scratched[..n]) == MatchesUpTo(winning, scratched, n)
  {
    if n > 0 {
      MatchesByPosition(winning, scratched, n - 1);
      MatchesSnoc(winning, scratched[..n - 1], scratched[n - 1]);
      assert scratched[..n - 1] + [scratched[n - 1]] == scratched[..n];
    }
  }

  /** The points a card with `m` matches is worth. */
  function PointsForMatches(m: nat): nat
  {
    if m == 0 then 0 else Pow2(m - 1)
  }

  /** The points of a card, with its matches counted by position. */
  lemma PointsByPosition(winning: seq<int>, scratched: seq<int>)
    ensures Points(winning, scratched) == PointsForMatches(MatchesUpTo(winning, scratched, |scratched|))
  {
    MatchesByPosition(winning, scratched, |scratched|);
    assert scratched[..|scratched|] == scratched;
    PointsByMatches(winning, scratched);
  }

  /**
   * The cards of the test module, counted by position (with
   * `PointsByPosition` these give their points): 4 matches are 8 points,
   * 1 match is 1 point, and the six example cards make 13.
   */
  lemma ExampleEightPoints()
    ensures MatchesUpTo([41, 48, 83, 86, 17], [83, 86, 6, 31, 17, 9, 48, 53], 8) == 4
    ensures PointsForMatches(4) == 8
  {
  }

  lemma ExampleOnePoint()
    ensures MatchesUpTo([41, 92, 73, 84, 69], [59, 84, 76, 51, 58, 5, 54, 83], 8) == 1
    ensures PointsForMatches(1) == 1
  {
  }

  lemma ExampleSecondCard()
    ensures MatchesUpTo([13, 32, 20, 16, 61], [61, 30, 68, 82, 17, 32, 24, 19], 8) == 2
    ensures PointsForMatches(2) == 2
  {
  }

  lemma ExampleThirdCard()
    ensures MatchesUpTo([1, 21, 53, 59, 44], [69, 82, 63, 72, 16, 21, 14, 1], 8) == 2
  {
  }

  lemma ExampleFifthCard()
    ensures MatchesUpTo([87, 83, 26, 28, 32], [88, 30, 70, 12, 93, 22, 82, 36], 8) == 0
  {
  }

  lemma ExampleSixthCard()
    ensures MatchesUpTo([31, 18, 13, 56, 72], [74, 77, 10, 23, 35, 67, 36, 11], 8) == 0
  {
  }

  /** The puzzle answer: extract the cards, then sum their points. */
  method Solve(input: string) returns (r: Result<int, Day4Error>)
    ensures r.Err? <==> AllCardNumbers(Lines(input)).Err?
    ensures r.Ok? ==> r.value == TotalPoints(AllCardNumbers(Lines(input)).value)
  {
    var cards := ExtractCards(input);
    if cards.Err? {
      return Err(cards.error);
    }
    SumCardsIsTotal(cards.value, AllCardNumbers(Lines(input)).value);
    r := Ok(SumCards(cards.value));
  }
}
