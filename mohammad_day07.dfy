/**
 * Camel Cards, part one (mohammad/day07/part_1): a hand is the vector of its
 * card values; its type is read off the sorted vector of occurrence counts;
 * hands are ranked by (type, values) ascending and the winnings are
 * Σ (idx + 1) · bid.
 */
module MohammadDay07Part1 {
  import opened Text
  import Sorting
  import opened Counting

  /** The hand types, weakest first; the derived order compares their discriminants 0..6. */
  datatype Type = HighCard | OnePair | TwoPairs | ThreeOfAKind | FullHouse | FourOfAKind | FiveOfAKind

  /** The discriminant of a type. */
  function Rank(t: Type): (r: nat)
    ensures r <= 6
  {
    match t
    case HighCard => 0
    case OnePair => 1
    case TwoPairs => 2
    case ThreeOfAKind => 3
    case FullHouse => 4
    case FourOfAKind => 5
    case FiveOfAKind => 6
  }

  /** The slice pattern match on the sorted counts; `None` where the source reaches `unreachable!`. */
  function TypeOfShape(v: seq<nat>): Option<Type>
  {
    if v == [5] then Some(FiveOfAKind)
    else if v == [1, 4] then Some(FourOfAKind)
    else if v == [2, 3] then Some(FullHouse)
    else if v == [1, 1, 3] then Some(ThreeOfAKind)
    else if v == [1, 2, 2] then Some(TwoPairs)
    else if v == [1, 1, 1, 2] then Some(OnePair)
    else if v == [1, 1, 1, 1, 1] then Some(HighCard)
    else None
  }

  /** The type of a hand: the match applied to its sorted occurrence counts. */
  function TypeOf(hand: seq<nat>): Option<Type>
  {
    TypeOfShape(Shape(hand))
  }

  /** `get_type`: counts the values in a map, collects and sorts the counts, then matches. */
  method GetType(hand: seq<nat>) returns (t: Option<Type>)
    ensures t == TypeOf(hand)
  {
    var map_: seq<Entry<nat>> := [];
    for i := 0 to |hand|
      invariant map_ == Tally(hand[..i])
    {
      assert hand[..i + 1][..i] == hand[..i];
      map_ := Bump(map_, hand[i]);
    }
    assert hand[..|hand|] == hand;
    var values := Counts(map_);
    values := Sorting.SortBy(values, Single, false);
    t := TypeOfShape(values);
  }

  /** Different types have different discriminants, so the derived order is total. */
  lemma {:induction false} RankInjective(s: Type, t: Type)
    ensures Rank(s) == Rank(t) <==> s == t
  {
  }

  /** An ascending vector of positive counts adding up to 5 matches an arm. */
  lemma {:induction false} ArmsCoverFive(v: seq<nat>)
    requires Ascending(v) && AllPositive(v) && Sum(v) == 5
    ensures TypeOfShape(v).Some?
  {
    SumAtLeastLength(v);
    if |v| == 1 {
      Spell1(v);
    } else if |v| == 2 {
      Spell2(v);
      assert v[0] <= v[1];
    } else if |v| == 3 {
      Spell3(v);
      assert v[0] <= v[1] <= v[2];
    } else if |v| == 4 {
      Spell4(v);
      assert v[0] <= v[1] <= v[2] <= v[3];
    } else {
      Spell5(v);
    }
  }

  /** Every arm's counts add up to 5. */
  lemma {:induction false} ArmsAddUpToFive(v: seq<nat>)
    requires TypeOfShape(v).Some?
    ensures Sum(v) == 5
  {
    if |v| == 1 {
      Spell1(v);
    } else if |v| == 2 {
      Spell2(v);
    } else if |v| == 3 {
      Spell3(v);
    } else if |v| == 4 {
      Spell4(v);
    } else {
      Spell5(v);
    }
  }

  /** Exactly the five-card hands match one of the arms; on any other hand `get_type` is unreachable. */
  lemma {:induction false} FiveCardsClassified(hand: seq<nat>)
    ensures TypeOf(hand).Some? <==> |hand| == 5
  {
    ShapeFacts(hand);
    if |hand| == 5 {
      ArmsCoverFive(Shape(hand));
    }
    if TypeOf(hand).Some? {
      ArmsAddUpToFive(Shape(hand));
    }
  }

  /** The card labels of the puzzle. */
  const Labels: string := "23456789TJQKA"

  /** The value of a card label: T, J, Q, K, A are 10..14 and a digit is its own value; `None` where `expect` panics. */
  function CardValue(c: char): (r: Option<nat>)
    ensures r.Some? <==> IsDigit(c) || c in "TJQKA"
  {
    match c
    case 'T' => Some(10)
    case 'J' => Some(11)
    case 'Q' => Some(12)
    case 'K' => Some(13)
    case 'A' => Some(14)
    case _ => if IsDigit(c) then Some(DigitValue(c)) else None
  }

  /** Different labels have different values, and the labels are valued 2..14 in order. */
  lemma {:induction false} CardValueInjective(a: char, b: char)
    requires CardValue(a).Some? && CardValue(a) == CardValue(b)
    ensures a == b
  {
  }

  lemma {:induction false} LabelsAscending()
    ensures forall i :: 0 <= i < |Labels| ==> CardValue(Labels[i]) == Some(i + 2)
  {
  }

  /** The card values of a hand, `None` when a label is not a card. */
  function HandValues(cards: string): (r: Option<seq<nat>>)
    ensures r.Some? ==> |r.value| == |cards|
    ensures r.Some? ==> forall i :: 0 <= i < |cards| ==> CardValue(cards[i]) == Some(r.value[i])
    ensures r.None? ==> exists i :: 0 <= i < |cards| && CardValue(cards[i]).None?
    decreases |cards|
  {
    if cards == [] then Some([])
    else
      match (CardValue(cards[0]), HandValues(cards[1..]))
      case (Some(v), Some(rest)) => Some([v] + rest)
      case (None, _) => None
      case (_, None) => None
  }

  /** A hand with its type and bid: the tuple the solver pushes. */
  datatype Play = Play(hand: seq<nat>, type_: Type, bid: nat)

  /** The order of `(t1, h1).cmp(&(t2, h2))`: type first, then the values lexicographically. */
  function Key(p: Play): seq<int>
  {
    [Rank(p.type_)] + p.hand
  }

  /** Σ (idx + 1) · bid over the ranked plays. */
  function Winnings(ranked: seq<Play>): nat
    decreases |ranked|
  {
    if ranked == [] then 0
    else Winnings(ranked[..|ranked| - 1]) + |ranked| * ranked[|ranked| - 1].bid
  }

  /** The plays in ascending order of their key, as `sort_by` leaves them. */
  function Ranked(plays: seq<Play>): (r: seq<Play>)
    ensures Sorting.SortedBy(r, Key, false) && multiset(r) == multiset(plays)
  {
    Sorting.SortBy(plays, Key, false)
  }

  /**
   * When no two plays share a key, the winnings do not depend on the order in
   * which the hands were read.
   */
  lemma {:induction false} WinningsOrderIndependent(a: seq<Play>, b: seq<Play>)
    requires multiset(a) == multiset(b) && Sorting.KeysDistinct(multiset(a), Key)
    ensures Winnings(Ranked(a)) == Winnings(Ranked(b))
  {
    Sorting.SortedUnique(Ranked(a), Ranked(b), Key, false);
  }

  /** One input line as a play; `None` where a token is missing, a label has no value or the bid is not a `usize` (64 bits). */
  function PlayOf(line: string): Option<Play>
  {
    var split := SplitWhitespace(line);
    if |split| < 2 then None
    else
      match (HandValues(split[0]), ParseU64(split[1]))
      case (Some(hand), Some(bid)) =>
        (match TypeOf(hand)
         case Some(t) => Some(Play(hand, t, bid))
         case None => None)
      case _ => None
  }

  /** The plays of the input lines, `None` as soon as one line does not parse. */
  function Plays(lines: seq<string>): Option<seq<Play>>
    decreases |lines|
  {
    if lines == [] then Some([])
    else
      match Plays(lines[..|lines| - 1])
      case None => None
      case Some(init) =>
        (match PlayOf(lines[|lines| - 1])
         case Some(p) => Some(init + [p])
         case None => None)
  }

  /** Once a line fails to parse, so does the whole input. */
  lemma {:induction false} PlaysPrefixFails(lines: seq<string>, k: nat)
    requires k <= |lines| && Plays(lines[..k]).None?
    ensures Plays(lines).None?
    decreases |lines| - k
  {
    if k < |lines| {
      assert lines[..k + 1][..k] == lines[..k];
      PlaysPrefixFails(lines, k + 1);
    } else {
      assert lines[..k] == lines;
    }
  }

  /** The body of the input loop for one line. */
  method ReadPlay(line: string) returns (p: Option<Play>)
    ensures p == PlayOf(line)
  {
    var split := SplitWhitespace(line);
    if |split| < 2 {
      return None;
    }
    var hand := HandValues(split[0]);
    if hand.None? {
      return None;
    }
    var t := GetType(hand.value);
    if t.None? {
      return None;
    }
    var bid := ParseU64(split[1]);
    if bid.None? {
      return None;
    }
    p := Some(Play(hand.value, t.value, bid.value));
  }

  /** `solution` after the input is read: parse each line, rank the plays, fold the winnings. */
  method Solution(lines: seq<string>) returns (r: Option<nat>)
    ensures r.Some? <==> Plays(lines).Some?
    ensures r.Some? ==> r.value == Winnings(Ranked(Plays(lines).value))
  {
    var hands: seq<Play> := [];
    for i := 0 to |lines|
      invariant Plays(lines[..i]) == Some(hands)
    {
      assert lines[..i + 1][..i] == lines[..i];
      var p := ReadPlay(lines[i]);
      if p.None? {
        PlaysPrefixFails(lines, i + 1);
        return None;
      }
      hands := hands + [p.value];
    }
    assert lines[..|lines|] == lines;
    var ranked := Ranked(hands);
    r := Some(Winnings(ranked));
  }
}

/**
 * Camel Cards, part two (mohammad/day07/part_2): J is a joker valued 1; the
 * jokers are left out of the count vector and the match fills them in to
 * the best type.  Ranking and winnings are those of part one.
 */
module MohammadDay07Part2 {
  import opened Text
  import Sorting
  import opened Counting
  import P1 = MohammadDay07Part1

  type Type = P1.Type

  /** The value of a card label with J as the joker, valued 1. */
  function CardValue(c: char): (r: Option<nat>)
    ensures c != 'J' ==> r == P1.CardValue(c)
    ensures c == 'J' ==> r == Some(1)
  {
    if c == 'J' then Some(1) else P1.CardValue(c)
  }

  /** The joker is below every other label of the puzzle, so it loses every tie-break. */
  lemma {:induction false} JokerLowest()
    ensures forall c :: c in P1.Labels && c != 'J' ==> CardValue(c).Some? && CardValue(c).value > CardValue('J').value
  {
    P1.LabelsAscending();
    forall c | c in P1.Labels && c != 'J'
      ensures CardValue(c).Some? && CardValue(c).value > 1
    {
      var i :| 0 <= i < |P1.Labels| && P1.Labels[i] == c;
    }
  }

  /** The entries whose key is not the joker, in order (the `filter` on the map). */
  function NonJoker(entries: seq<Entry<nat>>): (r: seq<Entry<nat>>)
    ensures forall i :: 0 <= i < |r| ==> r[i].key != 1
    ensures |r| <= |entries|
    decreases |entries|
  {
    if entries == [] then []
    else if entries[0].key == 1 then NonJoker(entries[1..])
    else [entries[0]] + NonJoker(entries[1..])
  }

  /** The sorted counts of the non-joker values. */
  function JokerShape(hand: seq<nat>): seq<nat>
  {
    Sorting.SortBy(Counts(NonJoker(Tally(hand))), Single, false)
  }

  /** The joker-aware match; `None` where the source reaches `unreachable!`. */
  function TypeOfShape(v: seq<nat>): Option<Type>
  {
    if v == [] || (|v| == 1 && 1 <= v[0] <= 5) then Some(P1.FiveOfAKind)
    else if |v| == 2 && v[0] == 1 && 1 <= v[1] <= 4 then Some(P1.FourOfAKind)
    else if |v| == 2 && v[0] == 2 && (v[1] == 3 || v[1] == 2) then Some(P1.FullHouse)
    else if |v| == 3 && v[0] == 1 && v[1] == 1 && 1 <= v[2] <= 3 then Some(P1.ThreeOfAKind)
    else if v == [1, 2, 2] then Some(P1.TwoPairs)
    else if |v| == 4 && v[0] == 1 && v[1] == 1 && v[2] == 1 && (v[3] == 2 || v[3] == 1) then Some(P1.OnePair)
    else if v == [1, 1, 1, 1, 1] then Some(P1.HighCard)
    else None
  }

  function TypeOf(hand: seq<nat>): Option<Type>
  {
    TypeOfShape(JokerShape(hand))
  }

  /** `get_type` with jokers: count, drop the joker's entry, sort the counts, match. */
  method GetType(hand: seq<nat>) returns (t: Option<Type>)
    ensures t == TypeOf(hand)
  {
    var map_: seq<Entry<nat>> := [];
    for i := 0 to |hand|
      invariant map_ == Tally(hand[..i])
    {
      assert hand[..i + 1][..i] == hand[..i];
      map_ := Bump(map_, hand[i]);
    }
    assert hand[..|hand|] == hand;
    var values := Counts(NonJoker(map_));
    values := Sorting.SortBy(values, Single, false);
    t := TypeOfShape(values);
  }

  lemma {:induction false} NonJokerFacts(entries: seq<Entry<nat>>)
    requires PositiveCounts(entries)
    ensures PositiveCounts(NonJoker(entries))
    ensures SumCounts(NonJoker(entries)) <= SumCounts(entries)
    ensures CountIn(entries, 1) == 0 ==> NonJoker(entries) == entries
    decreases |entries|
  {
    if entries != [] {
      NonJokerFacts(entries[1..]);
      if entries[0].key != 1 {
        assert entries == [entries[0]] + entries[1..];
      }
    }
  }

  lemma {:induction false} JokerShapeFacts(hand: seq<nat>)
    ensures Ascending(JokerShape(hand)) && AllPositive(JokerShape(hand))
    ensures Sum(JokerShape(hand)) <= |hand|
  {
    TallyFacts(hand);
    NonJokerFacts(Tally(hand));
    SortedCountsFacts(NonJoker(Tally(hand)));
  }

  /** An ascending vector of positive counts adding up to at most 5 matches an arm. */
  lemma {:induction false} ArmsCoverUpToFive(v: seq<nat>)
    requires Ascending(v) && AllPositive(v) && Sum(v) <= 5
    ensures TypeOfShape(v).Some?
  {
    SumAtLeastLength(v);
    if |v| == 1 {
      Spell1(v);
    } else if |v| == 2 {
      Spell2(v);
      assert v[0] <= v[1];
    } else if |v| == 3 {
      Spell3(v);
      assert v[0] <= v[1] <= v[2];
    } else if |v| == 4 {
      Spell4(v);
      assert v[0] <= v[1] <= v[2] <= v[3];
    } else if |v| == 5 {
      Spell5(v);
    }
  }

  /** On counts adding up to 5, the joker-aware match picks part one's type. */
  lemma {:induction false} ArmsAgreeOnFive(v: seq<nat>)
    requires Ascending(v) && AllPositive(v) && Sum(v) == 5
    ensures TypeOfShape(v) == P1.TypeOfShape(v)
  {
    SumAtLeastLength(v);
    if |v| == 1 {
      Spell1(v);
    } else if |v| == 2 {
      Spell2(v);
      assert v[0] <= v[1];
    } else if |v| == 3 {
      Spell3(v);
      assert v[0] <= v[1] <= v[2];
    } else if |v| == 4 {
      Spell4(v);
      assert v[0] <= v[1] <= v[2] <= v[3];
    } else {
      Spell5(v);
    }
  }

  /** Every hand of at most five cards, jokers or not, matches one of the arms. */
  lemma {:induction false} AtMostFiveCardsClassified(hand: seq<nat>)
    requires |hand| <= 5
    ensures TypeOf(hand).Some?
  {
    JokerShapeFacts(hand);
    ArmsCoverUpToFive(JokerShape(hand));
  }

  /** Without jokers, part two's type is part one's type. */
  lemma {:induction false} AgreesWithoutJokers(hand: seq<nat>)
    requires |hand| == 5 && 1 !in hand
    ensures TypeOf(hand) == P1.TypeOf(hand)
  {
    TallyFacts(hand);
    assert multiset(hand)[1] == 0;
    NonJokerFacts(Tally(hand));
    assert JokerShape(hand) == Shape(hand);
    ShapeFacts(hand);
    ArmsAgreeOnFive(Shape(hand));
  }

  /** The card values of a hand with jokers, `None` when a label is not a card. */
  function HandValues(cards: string): (r: Option<seq<nat>>)
    ensures r.Some? ==> |r.value| == |cards|
    ensures r.Some? ==> forall i :: 0 <= i < |cards| ==> CardValue(cards[i]) == Some(r.value[i])
    ensures r.None? ==> exists i :: 0 <= i < |cards| && CardValue(cards[i]).None?
    decreases |cards|
  {
    if cards == [] then Some([])
    else
      match (CardValue(cards[0]), HandValues(cards[1..]))
      case (Some(v), Some(rest)) => Some([v] + rest)
      case (None, _) => None
      case (_, None) => None
  }

  function PlayOf(line: string): Option<P1.Play>
  {
    var split := SplitWhitespace(line);
    if |split| < 2 then None
    else
      match (HandValues(split[0]), ParseU64(split[1]))
      case (Some(hand), Some(bid)) =>
        (match TypeOf(hand)
         case Some(t) => Some(P1.Play(hand, t, bid))
         case None => None)
      case _ => None
  }

  function Plays(lines: seq<string>): Option<seq<P1.Play>>
    decreases |lines|
  {
    if lines == [] then Some([])
    else
      match Plays(lines[..|lines| - 1])
      case None => None
      case Some(init) =>
        (match PlayOf(lines[|lines| - 1])
         case Some(p) => Some(init + [p])
         case None => None)
  }

  /** Once a line fails to parse, so does the whole input. */
  lemma {:induction false} PlaysPrefixFails(lines: seq<string>, k: nat)
    requires k <= |lines| && Plays(lines[..k]).None?
    ensures Plays(lines).None?
    decreases |lines| - k
  {
    if k < |lines| {
      assert lines[..k + 1][..k] == lines[..k];
      PlaysPrefixFails(lines, k + 1);
    } else {
      assert lines[..k] == lines;
    }
  }

  method ReadPlay(line: string) returns (p: Option<P1.Play>)
    ensures p == PlayOf(line)
  {
    var split := SplitWhitespace(line);
    if |split| < 2 {
      return None;
    }
    var hand := HandValues(split[0]);
    if hand.None? {
      return None;
    }
    var t := GetType(hand.value);
    if t.None? {
      return None;
    }
    var bid := ParseU64(split[1]);
    if bid.None? {
      return None;
    }
    p := Some(P1.Play(hand.value, t.value, bid.value));
  }

  /** `solution` with jokers, after the input is read. */
  method Solution(lines: seq<string>) returns (r: Option<nat>)
    ensures r.Some? <==> Plays(lines).Some?
    ensures r.Some? ==> r.value == P1.Winnings(P1.Ranked(Plays(lines).value))
  {
    var hands: seq<P1.Play> := [];
    for i := 0 to |lines|
      invariant Plays(lines[..i]) == Some(hands)
    {
      assert lines[..i + 1][..i] == lines[..i];
      var p := ReadPlay(lines[i]);
      if p.None? {
        PlaysPrefixFails(lines, i + 1);
        return None;
      }
      hands := hands + [p.value];
    }
    assert lines[..|lines|] == lines;
    var ranked := P1.Ranked(hands);
    r := Some(P1.Winnings(ranked));
  }
}
