/**
 * lethalgem/day_4/part_2: scratchcards that win copies.  A card with `n`
 * matches wins one copy of each of the next `n` cards, and every copy of a
 * card wins again; the answer is the number of cards held at the end.  The
 * cards are values here, as the source clones them into fresh vectors at
 * every update.
 */
module LethalgemDay4Part2 {
  import opened Text
  import P1 = LethalgemDay4Part1

  datatype Card = Card(winningNumbers: seq<int>, scratchedNumbers: seq<int>, nextCardsWon: nat, copiesWon: nat)

  /** `Card::new`: no numbers, no cards won, one copy. */
  function NewCard(): (c: Card)
    ensures c.winningNumbers == [] && c.scratchedNumbers == [] && c.nextCardsWon == 0 && c.copiesWon == 1
  {
    Card([], [], 0, 1)
  }

  /** `Card::calculate_next_cards_won`: 0 when a list is empty, otherwise the number of matches. */
  function NextCardsWon(winning: seq<int>, scratched: seq<int>): (n: nat)
    ensures n <= |scratched|
  {
    if winning == [] || scratched == [] then 0 else P1.Matches(winning, scratched)
  }

  /** The empty-list test is redundant: the count is the number of matches. */
  lemma NextCardsWonIsMatches(winning: seq<int>, scratched: seq<int>)
    ensures NextCardsWon(winning, scratched) == P1.Matches(winning, scratched)
  {
    if winning == [] {
      P1.NoWinningNoMatches(scratched);
    }
  }

  /** `Card::set_winning_numbers` keeps the old count; only the scratched numbers trigger a recount. */
  function SetWinningNumbers(card: Card, numbers: seq<int>): (c: Card)
    ensures c.winningNumbers == numbers
    ensures c.nextCardsWon == card.nextCardsWon && c.copiesWon == card.copiesWon
    ensures c.scratchedNumbers == card.scratchedNumbers
  {
    card.(winningNumbers := numbers)
  }

  function SetScratchedNumbers(card: Card, numbers: seq<int>): (c: Card)
    ensures c.scratchedNumbers == numbers && c.winningNumbers == card.winningNumbers
    ensures c.nextCardsWon == P1.Matches(card.winningNumbers, numbers)
    ensures c.copiesWon == card.copiesWon
  {
    NextCardsWonIsMatches(card.winningNumbers, numbers);
    card.(scratchedNumbers := numbers, nextCardsWon := NextCardsWon(card.winningNumbers, numbers))
  }

  function AddCopyWon(card: Card): (c: Card)
    ensures c.copiesWon == card.copiesWon + 1
    ensures c.(copiesWon := card.copiesWon) == card
  {
    card.(copiesWon := card.copiesWon + 1)
  }

  // ---------------------------------------------------------------------
  // Winning copies

  /** Every card other than its copies count is the same in both lists. */
  ghost predicate SameCards(a: seq<Card>, b: seq<Card>)
  {
    |a| == |b| &&
    forall j :: 0 <= j < |a| ==> a[j].(copiesWon := 0) == b[j].(copiesWon := 0)
  }

  /** One more copy of each card after `index`, up to `next` of them. */
  function Bumped(cards: seq<Card>, index: nat, next: nat): seq<Card>
  {
    seq(|cards|, j requires 0 <= j < |cards| =>
      if index < j <= index + next then AddCopyWon(cards[j]) else cards[j])
  }

  /** `update_copies_won_for_next_cards`: a new list, card by card. */
  method UpdateCopiesWonForNextCards(cards: seq<Card>, index: nat, current: Card) returns (updated: seq<Card>)
    ensures updated == Bumped(cards, index, current.nextCardsWon)
  {
    updated := [];
    for j := 0 to |cards|
      invariant updated == Bumped(cards[..j], index, current.nextCardsWon)
    {
      var card := cards[j];
      if j > index && j <= index + current.nextCardsWon {
        card := AddCopyWon(card);
      }
      updated := updated + [card];
    }
    assert cards[..|cards|] == cards;
  }

  /** Only the copies change, by one exactly inside the window. */
  lemma BumpedFacts(cards: seq<Card>, index: nat, next: nat)
    ensures SameCards(Bumped(cards, index, next), cards)
    ensures forall j :: 0 <= j < |cards| ==>
      Bumped(cards, index, next)[j].copiesWon == cards[j].copiesWon + if index < j <= index + next then 1 else 0
  {
  }

  /** The sum of the copies. */
  function TotalCopies(cards: seq<Card>): nat
    decreases |cards|
  {
    if cards == [] then 0 else TotalCopies(cards[..|cards| - 1]) + cards[|cards| - 1].copiesWon
  }

  function Min(a: int, b: int): int
  {
    if a <= b then a else b
  }

  /**
   * An update adds one card for each card inside the window that exists: the
   * window past the end of the list wins nothing.
   */
  lemma {:induction false} BumpedTotal(cards: seq<Card>, index: nat, next: nat)
    requires index < |cards|
    ensures TotalCopies(Bumped(cards, index, next)) == TotalCopies(cards) + Min(next, |cards| - 1 - index)
    decreases |cards|
  {
    var n := |cards|;
    if n - 1 > index {
      var init := cards[..n - 1];
      BumpedTotal(init, index, next);
      assert Bumped(cards, index, next)[..n - 1] == Bumped(init, index, next);
    } else {
      assert Bumped(cards, index, next)[..n - 1] == cards[..n - 1];
    }
  }

  /** `times` updates for the card at `index`. */
  function BumpTimes(cards: seq<Card>, index: nat, next: nat, times: nat): (r: seq<Card>)
    ensures |r| == |cards|
  {
    if times == 0 then cards else Bumped(BumpTimes(cards, index, next, times - 1), index, next)
  }

  lemma {:induction false} BumpTimesFacts(cards: seq<Card>, index: nat, next: nat, times: nat)
    ensures SameCards(BumpTimes(cards, index, next, times), cards)
    ensures forall j :: 0 <= j < |cards| ==>
      BumpTimes(cards, index, next, times)[j].copiesWon ==
        cards[j].copiesWon + if index < j <= index + next then times else 0
  {
    if times > 0 {
      BumpTimesFacts(cards, index, next, times - 1);
      BumpedFacts(BumpTimes(cards, index, next, times - 1), index, next);
    }
  }

  /** Every copy of card `index` wins the next cards once more. */
  function Process(cards: seq<Card>, index: nat): (r: seq<Card>)
    requires index < |cards|
    ensures |r| == |cards|
  {
    BumpTimes(cards, index, cards[index].nextCardsWon, cards[index].copiesWon)
  }

  /** The cards after the first `k` have been processed in order. */
  function Processed(cards: seq<Card>, k: nat): (r: seq<Card>)
    requires k <= |cards|
    ensures |r| == |cards|
  {
    if k == 0 then cards else Process(Processed(cards, k - 1), k - 1)
  }

  /** `calculate_copies_won`: each card in turn, once per copy held when it is reached. */
  method CalculateCopiesWon(cards: seq<Card>) returns (total: nat)
    ensures total == TotalCopies(Processed(cards, |cards|))
  {
    var updated := cards;
    for i := 0 to |cards|
      invariant updated == Processed(cards, i)
    {
      ghost var before := updated;
      var copies := updated[i].copiesWon;
      for t := 0 to copies
        invariant updated == BumpTimes(before, i, before[i].nextCardsWon, t)
      {
        BumpTimesFacts(before, i, before[i].nextCardsWon, t);
        assert updated[i].(copiesWon := 0) == before[i].(copiesWon := 0);
        updated := UpdateCopiesWonForNextCards(updated, i, updated[i]);
      }
    }
    total := TotalCopies(updated);
  }

  // ---------------------------------------------------------------------
  // The puzzle's own definition of the copies

  /**
   * The copies of card `j`: its own, plus one for every copy of each earlier
   * card `i` whose window `i + 1 .. i + next` covers it.
   */
  function CopiesRef(cards: seq<Card>, j: nat): nat
    requires j < |cards|
    decreases j, 1
  {
    cards[j].copiesWon + WonFrom(cards, j, j)
  }

  /** The copies of card `j` won from the cards before `i`. */
  function WonFrom(cards: seq<Card>, j: nat, i: nat): nat
    requires i <= j < |cards|
    decreases i, 0
  {
    if i == 0 then 0
    else WonFrom(cards, j, i - 1) + if j <= i - 1 + cards[i - 1].nextCardsWon then CopiesRef(cards, i - 1) else 0
  }

  /** Processing a card changes none of the cards up to it. */
  lemma ProcessKeepsEarlier(cards: seq<Card>, index: nat, j: nat)
    requires j <= index < |cards|
    ensures Process(cards, index)[j] == cards[j]
  {
    BumpTimesFacts(cards, index, cards[index].nextCardsWon, cards[index].copiesWon);
    assert Process(cards, index)[j].(copiesWon := 0) == cards[j].(copiesWon := 0);
  }

  /** Once processing has reached card `j`, it never changes again. */
  lemma {:induction false} ProcessedSettles(cards: seq<Card>, j: nat, k: nat)
    requires j <= k <= |cards| && j < |cards|
    ensures Processed(cards, k)[j] == Processed(cards, j)[j]
    decreases k
  {
    if k > j {
      ProcessedSettles(cards, j, k - 1);
      ProcessKeepsEarlier(Processed(cards, k - 1), k - 1, j);
    }
  }

  /**
   * Before card `j` is reached, after `k` steps: its numbers are untouched,
   * and its copies are its own plus those won from the first `k` cards.
   */
  lemma {:induction false} ProcessedBefore(cards: seq<Card>, j: nat, k: nat)
    requires k <= j < |cards|
    ensures Processed(cards, k)[j].(copiesWon := 0) == cards[j].(copiesWon := 0)
    ensures Processed(cards, k)[j].copiesWon == cards[j].copiesWon + WonFrom(cards, j, k)
    decreases j, k
  {
    if k > 0 {
      var prev := Processed(cards, k - 1);
      ProcessedBefore(cards, j, k - 1);
      ProcessedBefore(cards, k - 1, k - 1);
      BumpTimesFacts(prev, k - 1, prev[k - 1].nextCardsWon, prev[k - 1].copiesWon);
      assert Processed(cards, k)[j].(copiesWon := 0) == prev[j].(copiesWon := 0);
    }
  }

  /** Each card ends with the copies the puzzle's definition gives it. */
  lemma FinalCopies(cards: seq<Card>, j: nat)
    requires j < |cards|
    ensures Processed(cards, |cards|)[j].copiesWon == CopiesRef(cards, j)
  {
    ProcessedSettles(cards, j, |cards|);
    ProcessedBefore(cards, j, j);
  }

  /** The sum of the copies of the first `n` cards, by the puzzle's definition. */
  function TotalRef(cards: seq<Card>, n: nat): nat
    requires n <= |cards|
  {
    if n == 0 then 0 else TotalRef(cards, n - 1) + CopiesRef(cards, n - 1)
  }

  lemma {:induction false} TotalMatches(cards: seq<Card>, processed: seq<Card>, n: nat)
    requires |processed| == |cards| && n <= |cards|
    requires forall j :: 0 <= j < |cards| ==> processed[j].copiesWon == CopiesRef(cards, j)
    ensures TotalCopies(processed[..n]) == TotalRef(cards, n)
  {
    if n > 0 {
      TotalMatches(cards, processed, n - 1);
      assert processed[..n][..n - 1] == processed[..n - 1];
    }
  }

  /** The answer is the total number of cards the puzzle's rules hand out. */
  lemma CopiesWonIsTotal(cards: seq<Card>)
    ensures TotalCopies(Processed(cards, |cards|)) == TotalRef(cards, |cards|)
  {
    var p := Processed(cards, |cards|);
    forall j | 0 <= j < |cards|
      ensures p[j].copiesWon == CopiesRef(cards, j)
    {
      FinalCopies(cards, j);
    }
    TotalMatches(cards, p, |cards|);
    assert p[..|p|] == p;
  }

  /** Every card is held at least as many times as at the start, so no fewer cards than there were. */
  lemma {:induction false} TotalAtLeastStart(cards: seq<Card>, n: nat)
    requires n <= |cards|
    ensures TotalRef(cards, n) >= TotalCopies(cards[..n])
  {
    if n > 0 {
      TotalAtLeastStart(cards, n - 1);
      assert cards[..n][..n - 1] == cards[..n - 1];
    }
  }

  /** The puzzle answer: total cards for the extracted cards. */
  method Solve(cards: seq<Card>) returns (total: nat)
    ensures total == TotalRef(cards, |cards|)
  {
    total := CalculateCopiesWon(cards);
    CopiesWonIsTotal(cards);
  }

  // ---------------------------------------------------------------------
  // The examples of the test module, by their match counts

  /** Freshly extracted cards (one copy each) winning `nexts[j]` cards. */
  ghost predicate FreshCards(cards: seq<Card>, nexts: seq<nat>)
  {
    |cards| == |nexts| &&
    forall j :: 0 <= j < |cards| ==> cards[j].nextCardsWon == nexts[j] && cards[j].copiesWon == 1
  }

  /** Updating for the first card (4 matches), then the second (2 matches), of three. */
  lemma ExampleUpdate(cards: seq<Card>)
    requires FreshCards(cards, [4, 2, 2])
    ensures var r := Bumped(Bumped(cards, 0, 4), 1, 2);
      SameCards(r, cards) && r[0].copiesWon == 1 && r[1].copiesWon == 2 && r[2].copiesWon == 3
  {
    BumpedFacts(cards, 0, 4);
    BumpedFacts(Bumped(cards, 0, 4), 1, 2);
  }

  /** Four cards winning 2, 1, 0 and 0 cards end as 1, 2, 4 and 1 copies: 8 cards. */
  lemma ExampleSimple(cards: seq<Card>)
    requires FreshCards(cards, [2, 1, 0, 0])
    ensures TotalRef(cards, 4) == 8
  {
    assert CopiesRef(cards, 0) == 1;
    assert CopiesRef(cards, 1) == 2;
    assert CopiesRef(cards, 2) == 4;
    assert CopiesRef(cards, 3) == 1;
    assert TotalRef(cards, 1) == 1;
    assert TotalRef(cards, 2) == 3;
    assert TotalRef(cards, 3) == 7;
  }

  /** The six cards of the puzzle's example end as 1, 2, 4, 8, 14 and 1 copies: 30 cards. */
  lemma ExampleTotal(cards: seq<Card>)
    requires FreshCards(cards, [4, 2, 2, 1, 0, 0])
    ensures TotalRef(cards, 6) == 30
  {
    assert CopiesRef(cards, 0) == 1;
    assert CopiesRef(cards, 1) == 2;
    assert CopiesRef(cards, 2) == 4;
    assert CopiesRef(cards, 3) == 8;
    assert CopiesRef(cards, 4) == 14;
    assert CopiesRef(cards, 5) == 1;
    assert TotalRef(cards, 1) == 1;
    assert TotalRef(cards, 2) == 3;
    assert TotalRef(cards, 3) == 7;
    assert TotalRef(cards, 4) == 15;
    assert TotalRef(cards, 5) == 29;
  }

  // ---------------------------------------------------------------------
  // Reading the cards: the same format as in part 1

  /** `extract_card`: a new card given its winning, then its scratched numbers. */
  function ExtractCard(line: string): (r: Result<Card, P1.Day4Error>)
    ensures r.Err? <==> P1.CardNumbers(line).Err?
    ensures r.Ok? ==> r.value.copiesWon == 1
    ensures r.Ok? ==> (r.value.winningNumbers, r.value.scratchedNumbers) == P1.CardNumbers(line).value
    ensures r.Ok? ==> r.value.nextCardsWon == P1.Matches(r.value.winningNumbers, r.value.scratchedNumbers)
  {
    match P1.CardNumbers(line)
    case Err(e) => Err(e)
    case Ok(numbers) => Ok(SetScratchedNumbers(SetWinningNumbers(NewCard(), numbers.0), numbers.1))
  }

  /** `extract_cards`: one card per line, or the first error. */
  function ExtractCards(lines: seq<string>): (r: Result<seq<Card>, P1.Day4Error>)
    ensures r.Ok? ==> |r.value| == |lines|
    decreases |lines|
  {
    if lines == [] then Ok([])
    else match ExtractCards(lines[..|lines| - 1])
      case Err(e) => Err(e)
      case Ok(cards) =>
        match ExtractCard(lines[|lines| - 1])
        case Err(e) => Err(e)
        case Ok(card) => Ok(cards + [card])
  }

  /** Each extracted card is the card of its own line. */
  lemma {:induction false} ExtractCardsByLine(lines: seq<string>, j: nat)
    requires j < |lines| && ExtractCards(lines).Ok?
    ensures ExtractCard(lines[j]) == Ok(ExtractCards(lines).value[j])
    decreases |lines|
  {
    var init := lines[..|lines| - 1];
    if j < |lines| - 1 {
      ExtractCardsByLine(init, j);
    }
  }
}
