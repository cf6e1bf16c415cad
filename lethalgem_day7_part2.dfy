/**
 * lethalgem/day_7/part_2: Camel Cards with jokers.  A hand's type comes from
 * the count of each card, after the jokers' count has been added to a card
 * with the highest count; hands are ranked strongest first and the winnings
 * weigh each bid by its rank.
 */
module LethalgemDay7Part2 {
  import opened Text
  import Sorting

  /** The errors the modelled operations can return. */
  datatype Day7Error = ParseIntFailed | CouldNotConstructCard(c: char)

  datatype Card = Two | Three | Four | Five | Six | Seven | Eight | Nine | Ten | Jack | Queen | King | Ace

  /** The position of a card in declaration order. */
  function Position(c: Card): (pos: int)
    ensures 0 <= pos < 13
  {
    match c
    case Two => 0 case Three => 1 case Four => 2 case Five => 3 case Six => 4 case Seven => 5
    case Eight => 6 case Nine => 7 case Ten => 8 case Jack => 9 case Queen => 10 case King => 11
    case Ace => 12
  }

  /** The card at a position of the declaration order. */
  function CardAt(i: int): (c: Card)
    requires 0 <= i < 13
    ensures Position(c) == i
  {
    [Two, Three, Four, Five, Six, Seven, Eight, Nine, Ten, Jack, Queen, King, Ace][i]
  }

  /** Every card once, in declaration order. */
  function AllCards(): seq<Card> { seq(13, i requires 0 <= i < 13 => CardAt(i)) }

  predicate Distinct(cs: seq<Card>) { forall i, j :: 0 <= i < j < |cs| ==> cs[i] != cs[j] }

  lemma {:induction false} AllCardsDistinct()
    ensures Distinct(AllCards()) && |AllCards()| == 13
  {
    forall i, j | 0 <= i < j < 13 ensures AllCards()[i] != AllCards()[j] {
      assert Position(AllCards()[i]) == i && Position(AllCards()[j]) == j;
    }
  }

  lemma {:induction false} AllCardsInOrder()
    ensures AllCards() == [Two, Three, Four, Five, Six, Seven, Eight, Nine, Ten, Jack, Queen, King, Ace]
  {
  }

  lemma {:induction false} AllCardsComplete(c: Card)
    ensures c in AllCards()
  {
    assert AllCards()[Position(c)] == c;
  }

  lemma {:induction false} AllCardsCover(m: Counts)
    ensures forall c :: c in m ==> c in AllCards()
  {
    forall c | c in m ensures c in AllCards() {
      AllCardsComplete(c);
    }
  }

  /** The label a card is written with. */
  function Label(card: Card): char
  {
    match card
    case Two => '2' case Three => '3' case Four => '4' case Five => '5' case Six => '6'
    case Seven => '7' case Eight => '8' case Nine => '9' case Ten => 'T' case Jack => 'J'
    case Queen => 'Q' case King => 'K' case Ace => 'A'
  }

  /** `Card::new`: exactly the thirteen labels make a card. */
  function CardNew(c: char): (r: Result<Card, Day7Error>)
    ensures r.Ok? <==> c in "23456789TJQKA"
    ensures r.Err? ==> r.error == CouldNotConstructCard(c)
  {
    match c
    case '2' => Ok(Two) case '3' => Ok(Three) case '4' => Ok(Four) case '5' => Ok(Five)
    case '6' => Ok(Six) case '7' => Ok(Seven) case '8' => Ok(Eight) case '9' => Ok(Nine)
    case 'T' => Ok(Ten) case 'J' => Ok(Jack) case 'Q' => Ok(Queen) case 'K' => Ok(King)
    case 'A' => Ok(Ace)
    case _ => Err(CouldNotConstructCard(c))
  }

  /** A card is parsed back from its label. */
  lemma {:induction false} LabelRoundTrip(card: Card)
    ensures CardNew(Label(card)) == Ok(card)
  {
  }

  /** A label read as a card is that card's label. */
  lemma {:induction false} CardNewRoundTrip(c: char)
    requires CardNew(c).Ok?
    ensures Label(CardNew(c).value) == c
  {
  }

  /** `Card::strength`: the joker is weakest. */
  function Strength(card: Card): (s: int)
    ensures 0 <= s <= 13
    ensures s == 0 <==> card == Jack
  {
    match card
    case Two => 1 case Three => 2 case Four => 3 case Five => 4 case Six => 5 case Seven => 6
    case Eight => 7 case Nine => 8 case Ten => 9 case Jack => 0 case Queen => 11 case King => 12
    case Ace => 13
  }

  /** Apart from the joker, strength rises along the declaration order, and no two cards tie. */
  lemma {:induction false} StrengthOrder()
    ensures forall i, j :: 0 <= i < j < 13 && i != 9 && j != 9 ==> Strength(AllCards()[i]) < Strength(AllCards()[j])
    ensures forall c, d :: Strength(c) == Strength(d) ==> c == d
    ensures forall c :: c != Jack ==> Strength(Jack) < Strength(c)
  {
    forall i, j | 0 <= i < j < 13 && i != 9 && j != 9
      ensures Strength(AllCards()[i]) < Strength(AllCards()[j])
    {
      assert forall k :: 0 <= k < 9 ==> Strength(AllCards()[k]) == k + 1;
      assert forall k :: 9 < k < 13 ==> Strength(AllCards()[k]) == k + 1;
    }
  }

  datatype HandType = FiveOfAKind | FourOfAKind | FullHouse | ThreeOfAKind | TwoPair | OnePair | HighCard

  /** `HandType::strength`: 7 for five of a kind down to 1 for a high card. */
  function TypeStrength(t: HandType): (s: int)
    ensures 1 <= s <= 7
  {
    match t
    case FiveOfAKind => 7 case FourOfAKind => 6 case FullHouse => 5 case ThreeOfAKind => 4
    case TwoPair => 3 case OnePair => 2 case HighCard => 1
  }

  lemma {:induction false} TypeStrengthInjective(s: HandType, t: HandType)
    ensures TypeStrength(s) == TypeStrength(t) ==> s == t
  {
  }

  datatype Hand = Hand(cards: seq<Card>, type_: HandType, bid: int)

  /** How many times each card occurs; only cards of the hand are keys. */
  type Counts = map<Card, int>

  function Occurrences(cards: seq<Card>): Counts
  {
    map c | c in cards :: multiset(cards)[c]
  }

  function Get(m: Counts, c: Card): int { if c in m then m[c] else 0 }

  lemma {:induction false} OccurrencesSnoc(s: seq<Card>, x: Card)
    ensures Occurrences(s + [x]) == Occurrences(s)[x := Get(Occurrences(s), x) + 1]
  {
    var a, b := Occurrences(s + [x]), Occurrences(s)[x := Get(Occurrences(s), x) + 1];
    assert multiset(s + [x]) == multiset(s) + multiset{x};
    forall c ensures c in a <==> c in b {
      assert c in s + [x] <==> c in s || c == x;
    }
    forall c | c in a ensures a[c] == b[c] {
      assert c in s || c == x;
    }
  }

  /** The counting loop of `find_type`: one entry per distinct card, holding its count. */
  method CountCards(cards: seq<Card>) returns (cardCount: Counts)
    ensures cardCount == Occurrences(cards)
  {
    cardCount := map[];
    for i := 0 to |cards|
      invariant cardCount == Occurrences(cards[..i])
    {
      assert cards[..i + 1] == cards[..i] + [cards[i]];
      OccurrencesSnoc(cards[..i], cards[i]);
      var card := cards[i];
      if card in cardCount {
        cardCount := cardCount[card := cardCount[card] + 1];
      } else {
        cardCount := cardCount[card := 1];
      }
    }
    assert cards[..|cards|] == cards;
  }

  /** The sum of the counts of the listed cards. */
  function SumOver(cs: seq<Card>, m: Counts): int
    decreases |cs|
  {
    if cs == [] then 0 else Get(m, cs[0]) + SumOver(cs[1..], m)
  }

  /** The number of cards a count map stands for. */
  function Total(m: Counts): int { SumOver(AllCards(), m) }

  lemma {:induction false} SumOverUpdate(cs: seq<Card>, m: Counts, k: Card, v: int)
    requires Distinct(cs) && k in cs
    ensures SumOver(cs, m[k := v]) == SumOver(cs, m) - Get(m, k) + v
    decreases |cs|
  {
    if cs[0] == k {
      assert k !in cs[1..];
      SumOverUnaffected(cs[1..], m, k, v);
    } else {
      SumOverUpdate(cs[1..], m, k, v);
    }
  }

  lemma {:induction false} SumOverUnaffected(cs: seq<Card>, m: Counts, k: Card, v: int)
    requires k !in cs
    ensures SumOver(cs, m[k := v]) == SumOver(cs, m)
    decreases |cs|
  {
    if cs != [] {
      SumOverUnaffected(cs[1..], m, k, v);
    }
  }

  /** The counts of a hand add up to the number of its cards. */
  lemma {:induction false} TotalOccurrences(cards: seq<Card>)
    ensures Total(Occurrences(cards)) == |cards|
    decreases |cards|
  {
    AllCardsDistinct();
    if cards == [] {
      assert Occurrences(cards) == map[];
      SumOverEmpty(AllCards());
    } else {
      var s, x := cards[..|cards| - 1], cards[|cards| - 1];
      assert cards == s + [x];
      OccurrencesSnoc(s, x);
      TotalOccurrences(s);
      TotalUpdate(Occurrences(s), x, Get(Occurrences(s), x) + 1);
    }
  }

  lemma {:induction false} SumOverEmpty(cs: seq<Card>)
    ensures SumOver(cs, map[]) == 0
    decreases |cs|
  {
    if cs != [] {
      SumOverEmpty(cs[1..]);
    }
  }

  /** How many of the listed cards have count `n`. */
  function NumWith(cs: seq<Card>, m: Counts, n: int): (r: nat)
    decreases |cs|
  {
    if cs == [] then 0 else (if cs[0] in m && m[cs[0]] == n then 1 else 0) + NumWith(cs[1..], m, n)
  }

  /** `find_count_of_counts`: the number of entries whose count is `n`. */
  function CountOfCounts(n: int, m: Counts): nat
  {
    NumWith(AllCards(), m, n)
  }

  /** Counted entry by entry, the same number as the size of the set of cards with that count. */
  lemma {:induction false} NumWithIsSetSize(cs: seq<Card>, m: Counts, n: int)
    requires Distinct(cs)
    ensures NumWith(cs, m, n) == |set c | c in cs && c in m && Get(m, c) == n|
    decreases |cs|
  {
    if cs == [] {
      assert (set c | c in cs && c in m && Get(m, c) == n) == {};
    } else {
      NumWithIsSetSize(cs[1..], m, n);
      var rest := set c | c in cs[1..] && c in m && Get(m, c) == n;
      var all := set c | c in cs && c in m && Get(m, c) == n;
      assert cs[0] !in rest;
      if cs[0] in m && m[cs[0]] == n {
        assert all == rest + {cs[0]};
      } else {
        assert all == rest;
      }
    }
  }

  lemma {:induction false} CountOfCountsIsSetSize(n: int, m: Counts)
    ensures CountOfCounts(n, m) == |set c | c in m && m[c] == n|
  {
    AllCardsDistinct();
    AllCardsCover(m);
    NumWithCovering(AllCards(), m, n);
  }

  /** Over distinct cards that include every key of `m`, the count is the size of the set of keys with count `n`. */
  lemma {:induction false} NumWithCovering(cs: seq<Card>, m: Counts, n: int)
    requires Distinct(cs) && forall c :: c in m ==> c in cs
    ensures NumWith(cs, m, n) == |set c | c in m && m[c] == n|
  {
    NumWithIsSetSize(cs, m, n);
    var a, b := set c | c in cs && c in m && Get(m, c) == n, set c | c in m && m[c] == n;
    assert a == b;
  }

  lemma {:induction false} NumWithUpdate(cs: seq<Card>, m: Counts, k: Card, v: int, n: int)
    requires Distinct(cs) && k in cs
    ensures NumWith(cs, m[k := v], n) ==
            NumWith(cs, m, n) - (if k in m && m[k] == n then 1 else 0) + (if v == n then 1 else 0)
    decreases |cs|
  {
    if cs[0] == k {
      assert k !in cs[1..];
      NumWithUnaffected(cs[1..], m, k, v, n);
    } else {
      NumWithUpdate(cs[1..], m, k, v, n);
    }
  }

  lemma {:induction false} NumWithUnaffected(cs: seq<Card>, m: Counts, k: Card, v: int, n: int)
    requires k !in cs
    ensures NumWith(cs, m[k := v], n) == NumWith(cs, m, n)
    decreases |cs|
  {
    if cs != [] {
      NumWithUnaffected(cs[1..], m, k, v, n);
    }
  }

  lemma {:induction false} CountOfCountsUpdate(m: Counts, k: Card, v: int, n: int)
    ensures CountOfCounts(n, m[k := v]) ==
            CountOfCounts(n, m) - (if k in m && m[k] == n then 1 else 0) + (if v == n then 1 else 0)
  {
    AllCardsDistinct();
    AllCardsComplete(k);
    NumWithUpdate(AllCards(), m, k, v, n);
  }

  /** `k` has a count no other entry exceeds. */
  predicate IsHighest(m: Counts, k: Card) { k in m && forall c :: c in m ==> m[c] <= m[k] }

  /** The first listed card of `m` with the highest count among the listed ones. */
  function HighestIn(cs: seq<Card>, m: Counts): (r: Option<Card>)
    ensures r.Some? ==> r.value in cs && r.value in m && forall c :: c in cs && c in m ==> m[c] <= m[r.value]
    ensures r.None? ==> forall c :: c in cs ==> c !in m
    decreases |cs|
  {
    if cs == [] then None
    else
      var rest := HighestIn(cs[1..], m);
      if cs[0] in m && (rest.None? || m[rest.value] <= m[cs[0]]) then Some(cs[0])
      else if cs[0] in m then rest
      else rest
  }

  /** A card of highest count, chosen in declaration order on ties. */
  function FirstHighest(m: Counts): (k: Card)
    requires Jack in m
    ensures IsHighest(m, k)
  {
    AllCardsCover(m);
    HighestIn(AllCards(), m).value
  }

  lemma {:induction false} HasHighest(m: Counts)
    requires Jack in m
    ensures exists k :: IsHighest(m, k)
  {
    var k := FirstHighest(m);
  }

  /** The jokers' count moved onto `top`, a card of highest count once the joker's own entry is zero. */
  function ConvertWith(m: Counts, top: Card): Counts
    requires IsHighest(m[Jack := 0], top)
  {
    var n := m[Jack := 0];
    n[top := n[top] + Get(m, Jack)]
  }

  /**
   * The jokers' entry becomes zero (unless it is itself the card of highest
   * count), `top` gains the jokers' count, and every other entry is kept.
   */
  lemma {:induction false} ConvertWithEntries(m: Counts, top: Card)
    requires IsHighest(m[Jack := 0], top)
    ensures ConvertWith(m, top).Keys == m.Keys + {Jack}
    ensures ConvertWith(m, top)[top] == Get(m[Jack := 0], top) + Get(m, Jack)
    ensures top != Jack ==> ConvertWith(m, top)[Jack] == 0
    ensures forall c :: c in m && c != top && c != Jack ==> ConvertWith(m, top)[c] == m[c]
  {
  }

  /** The map built the way `convert_jokers_for_count` builds it is the converted map, with its total and keys. */
  lemma {:induction false} ConvertWithIs(m: Counts, top: Card, r: Counts)
    requires IsHighest(m[Jack := 0], top) && r == m[Jack := 0][top := m[Jack := 0][top] + Get(m, Jack)]
    ensures r == ConvertWith(m, top) && Total(r) == Total(m) && r.Keys == m.Keys + {Jack}
  {
    ConvertWithTotal(m, top);
    ConvertWithEntries(m, top);
  }

  /** Moving the jokers keeps the number of cards. */
  lemma {:induction false} ConvertWithTotal(m: Counts, top: Card)
    requires IsHighest(m[Jack := 0], top)
    ensures Total(ConvertWith(m, top)) == Total(m)
  {
    var n := m[Jack := 0];
    var v := n[top] + Get(m, Jack);
    assert ConvertWith(m, top) == n[top := v];
    TotalUpdate(m, Jack, 0);
    TotalUpdate(n, top, v);
    assert Get(n, top) + Get(m, Jack) == v;
  }

  lemma {:induction false} TotalUpdate(m: Counts, k: Card, v: int)
    ensures Total(m[k := v]) == Total(m) - Get(m, k) + v
  {
    AllCardsDistinct();
    AllCardsComplete(k);
    SumOverUpdate(AllCards(), m, k, v);
  }

  /**
   * `convert_jokers_for_count`: the joker entry is set to zero and its count
   * added to a card of highest count.  Which card, among those tied for the
   * highest count, depends on the hash map's iteration order; any of them may
   * be chosen.  The map always holds the joker entry, so no error occurs.
   */
  method ConvertJokersForCount(cardCount: Counts) returns (r: Counts)
    ensures exists top :: IsHighest(cardCount[Jack := 0], top) && r == ConvertWith(cardCount, top)
    ensures Total(r) == Total(cardCount) && r.Keys == cardCount.Keys + {Jack}
  {
    var jokerCount := Get(cardCount, Jack);
    var newCardCount := cardCount[Jack := 0];
    HasHighest(newCardCount);
    var highest :| IsHighest(newCardCount, highest);
    r := newCardCount[highest := newCardCount[highest] + jokerCount];
    ConvertWithIs(cardCount, highest, r);
  }

  /** The type chain of `find_type`, reading counts of counts. */
  function Classify(m: Counts): HandType
  {
    TypeOfCounts(CountOfCounts(5, m), CountOfCounts(4, m), CountOfCounts(3, m), CountOfCounts(2, m))
  }

  /** The chain itself, given how many cards occur five, four, three and two times. */
  function TypeOfCounts(fives: nat, fours: nat, threes: nat, pairs: nat): HandType
  {
    if fives == 1 then FiveOfAKind
    else if fours == 1 then FourOfAKind
    else if pairs == 1 && threes == 1 then FullHouse
    else if threes == 1 then ThreeOfAKind
    else if pairs == 2 then TwoPair
    else if pairs == 1 then OnePair
    else HighCard
  }

  /** Whichever highest card takes the jokers, every count of counts is the same. */
  lemma {:induction false} CountOfCountsIndependentOfHighest(m: Counts, t1: Card, t2: Card, n: int)
    requires IsHighest(m[Jack := 0], t1) && IsHighest(m[Jack := 0], t2)
    ensures CountOfCounts(n, ConvertWith(m, t1)) == CountOfCounts(n, ConvertWith(m, t2))
  {
    var c := m[Jack := 0];
    var v := c[t1] + Get(m, Jack);
    assert c[t1] == c[t2];
    assert ConvertWith(m, t1) == c[t1 := v];
    assert ConvertWith(m, t2) == c[t2 := v];
    CountOfCountsUpdate(c, t1, v, n);
    CountOfCountsUpdate(c, t2, v, n);
  }

  /** Whichever highest card takes the jokers, the type is the same. */
  lemma {:induction false} ClassifyIndependentOfHighest(m: Counts, t1: Card, t2: Card)
    requires IsHighest(m[Jack := 0], t1) && IsHighest(m[Jack := 0], t2)
    ensures Classify(ConvertWith(m, t1)) == Classify(ConvertWith(m, t2))
  {
    CountOfCountsIndependentOfHighest(m, t1, t2, 2);
    CountOfCountsIndependentOfHighest(m, t1, t2, 3);
    CountOfCountsIndependentOfHighest(m, t1, t2, 4);
    CountOfCountsIndependentOfHighest(m, t1, t2, 5);
  }

  /** The type of a hand, with the jokers given to the first card of highest count. */
  function TypeOf(cards: seq<Card>): HandType
  {
    var m := Occurrences(cards);
    Classify(ConvertWith(m, FirstHighest(m[Jack := 0])))
  }

  /**
   * `Hand::find_type`: count the cards, move the jokers, classify.  The result
   * does not depend on which card of highest count the jokers went to.
   */
  method FindType(cards: seq<Card>) returns (t: HandType)
    ensures t == TypeOf(cards)
  {
    var cardCount := CountCards(cards);
    var withJokers := ConvertJokersForCount(cardCount);
    var top :| IsHighest(cardCount[Jack := 0], top) && withJokers == ConvertWith(cardCount, top);
    ClassifyIndependentOfHighest(cardCount, top, FirstHighest(cardCount[Jack := 0]));
    t := Classify(withJokers);
  }

  /** `Hand::new`: the hand with its type; `find_type` never fails. */
  method HandNew(cards: seq<Card>, bid: int) returns (h: Hand)
    ensures h == Hand(cards, TypeOf(cards), bid)
  {
    var t := FindType(cards);
    h := Hand(cards, t, bid);
  }

  /** The ranking key: the type's strength, then the cards' strengths in order. */
  function Key(h: Hand): seq<int>
  {
    [TypeStrength(h.type_)] + seq(|h.cards|, i requires 0 <= i < |h.cards| => Strength(h.cards[i]))
  }

  /** The hands in non-increasing order of their key. */
  function Ranked(hands: seq<Hand>): (r: seq<Hand>)
    ensures Sorting.SortedBy(r, Key, true) && multiset(r) == multiset(hands)
  {
    Sorting.SortBy(hands, Key, true)
  }

  /** `rank_hands`: sorts the hands in place, strongest first. */
  method RankHands(hands: array<Hand>)
    modifies hands
    ensures hands[..] == Ranked(old(hands[..]))
  {
    var sorted := Ranked(hands[..]);
    forall i | 0 <= i < hands.Length {
      hands[i] := sorted[i];
    }
  }

  /** Σ (n − i)·bid over the first hands, the i-th (from 0) having rank n − i. */
  function Payout(hands: seq<Hand>, n: int): int
    decreases |hands|
  {
    if hands == [] then 0
    else Payout(hands[..|hands| - 1], n) + (n - (|hands| - 1)) * hands[|hands| - 1].bid
  }

  /** The winnings of ranked hands: the first has rank n, the last rank 1. */
  function Winnings(hands: seq<Hand>): int { Payout(hands, |hands|) }

  /** `calc_total_winnings`. */
  method CalcTotalWinnings(hands: seq<Hand>) returns (total: int)
    ensures total == Winnings(hands)
  {
    total := 0;
    for i := 0 to |hands|
      invariant total == Payout(hands[..i], |hands|)
    {
      assert hands[..i + 1][..i] == hands[..i];
      total := total + (|hands| - i) * hands[i].bid;
    }
    assert hands[..|hands|] == hands;
  }

  /** The cards of `r` whose count is `n`. */
  predicate HoldsExactly(r: Counts, n: int, cs: set<Card>)
  {
    forall c :: (c in r && r[c] == n) <==> c in cs
  }

  /** The count of counts is the size of any set holding exactly the cards with that count. */
  lemma {:induction false} CountOfCountsIs(n: int, m: Counts, cs: set<Card>)
    requires HoldsExactly(m, n, cs)
    ensures CountOfCounts(n, m) == |cs|
  {
    CountOfCountsIsSetSize(n, m);
    assert (set c | c in m && m[c] == n) == cs;
  }

  /** The type of a hand, read through any card of highest count and the sets of cards with each count. */
  lemma {:induction false} TypeOfVia(cards: seq<Card>, m: Counts, top: Card, fives: set<Card>, fours: set<Card>, threes: set<Card>, pairs: set<Card>)
    requires Occurrences(cards) == m && IsHighest(m[Jack := 0], top)
    requires var r := ConvertWith(m, top);
      HoldsExactly(r, 5, fives) && HoldsExactly(r, 4, fours) && HoldsExactly(r, 3, threes) && HoldsExactly(r, 2, pairs)
    ensures TypeOf(cards) == TypeOfCounts(|fives|, |fours|, |threes|, |pairs|)
  {
    ClassifyIndependentOfHighest(m, top, FirstHighest(m[Jack := 0]));
    var r := ConvertWith(m, top);
    CountOfCountsIs(5, r, fives);
    CountOfCountsIs(4, r, fours);
    CountOfCountsIs(3, r, threes);
    CountOfCountsIs(2, r, pairs);
  }

  /** The first `find_count_of_counts` test: {J:2, 2:1} has one pair count, and adding Q:2 makes two. */
  lemma {:induction false} CountOfCountsExample()
    ensures CountOfCounts(2, map[Jack := 2, Two := 1]) == 1
    ensures CountOfCounts(2, map[Jack := 2, Two := 1, Queen := 2]) == 2
  {
    CountOfCountsIs(2, map[Jack := 2, Two := 1], {Jack});
    CountOfCountsIs(2, map[Jack := 2, Two := 1, Queen := 2], {Jack, Queen});
  }

  /** Joker hands from the `find_type` tests: four jokers with a two make five of a kind. */
  lemma {:induction false} FiveJokersExample()
    ensures TypeOf([Two, Jack, Jack, Jack, Jack]) == FiveOfAKind
  {
    var m := map[Two := 1, Jack := 4];
    FiveJokersCounts();
    TypeOfVia([Two, Jack, Jack, Jack, Jack], m, Two, {Two}, {}, {}, {});
  }

  lemma {:induction false} FiveJokersCounts()
    ensures Occurrences([Two, Jack, Jack, Jack, Jack]) == map[Two := 1, Jack := 4]
  {
    OccurrencesIs([Two, Jack, Jack, Jack, Jack], map[Two := 1, Jack := 4]);
  }

  /** Two jokers join a pair of twos: four of a kind. */
  lemma {:induction false} FourJokersExample()
    ensures TypeOf([Two, Two, Jack, Jack, Three]) == FourOfAKind
  {
    var m := map[Two := 2, Jack := 2, Three := 1];
    FourJokersCounts();
    TypeOfVia([Two, Two, Jack, Jack, Three], m, Two, {}, {Two}, {}, {});
  }

  lemma {:induction false} FourJokersCounts()
    ensures Occurrences([Two, Two, Jack, Jack, Three]) == map[Two := 2, Jack := 2, Three := 1]
  {
    OccurrencesIs([Two, Two, Jack, Jack, Three], map[Two := 2, Jack := 2, Three := 1]);
  }

  /** One joker with two pairs: a full house. */
  lemma {:induction false} FullHouseJokerExample()
    ensures TypeOf([Two, Two, Three, Three, Jack]) == FullHouse
  {
    var m := map[Two := 2, Three := 2, Jack := 1];
    FullHouseJokerCounts();
    TypeOfVia([Two, Two, Three, Three, Jack], m, Two, {}, {}, {Two}, {Three});
  }

  lemma {:induction false} FullHouseJokerCounts()
    ensures Occurrences([Two, Two, Three, Three, Jack]) == map[Two := 2, Three := 2, Jack := 1]
  {
    OccurrencesIs([Two, Two, Three, Three, Jack], map[Two := 2, Three := 2, Jack := 1]);
  }

  /** One joker among distinct cards: one pair. */
  lemma {:induction false} OnePairJokerExample()
    ensures TypeOf([Two, Jack, Three, Four, Five]) == OnePair
  {
    var m := map[Two := 1, Jack := 1, Three := 1, Four := 1, Five := 1];
    OnePairJokerCounts();
    TypeOfVia([Two, Jack, Three, Four, Five], m, Two, {}, {}, {}, {Two});
  }

  lemma {:induction false} OnePairJokerCounts()
    ensures Occurrences([Two, Jack, Three, Four, Five]) == map[Two := 1, Jack := 1, Three := 1, Four := 1, Five := 1]
  {
    OccurrencesIs([Two, Jack, Three, Four, Five], map[Two := 1, Jack := 1, Three := 1, Four := 1, Five := 1]);
  }

  lemma {:induction false} OccurrencesIs(cards: seq<Card>, m: Counts)
    requires forall c :: c in cards <==> c in m
    requires forall c :: c in m ==> multiset(cards)[c] == m[c]
    ensures Occurrences(cards) == m
  {
  }
}
