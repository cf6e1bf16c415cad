/**
 * Camel Cards, part one (mattdamachine/Day07/part_01).  A hand's type is a
 * number 1..7, found by walking a `HashMap` from label to count and stopping
 * at the first count that decides the type; hands are sorted ascending by
 * (type, card values) and the total is Σ (i + 1) · bid.  The map's
 * iteration order is unspecified, so it is a parameter of the model: any
 * listing of the map's entries, each once.
 */
module MattdamachineDay07 {
  import opened Text
  import Sorting
  import opened Counting
  import M1 = MohammadDay07Part1

  datatype CardValue = Two | Three | Four | Five | Six | Seven | Eight | Nine | Ten | Eleven | Twelve | Thirteen | Fourteen

  /** `CardValue::from`; `None` where the source reaches `unreachable!`. */
  function From(ch: char): (r: Option<CardValue>)
    ensures r.Some? <==> ch in M1.Labels
  {
    match ch
    case '2' => Some(Two)
    case '3' => Some(Three)
    case '4' => Some(Four)
    case '5' => Some(Five)
    case '6' => Some(Six)
    case '7' => Some(Seven)
    case '8' => Some(Eight)
    case '9' => Some(Nine)
    case 'T' => Some(Ten)
    case 'J' => Some(Eleven)
    case 'Q' => Some(Twelve)
    case 'K' => Some(Thirteen)
    case 'A' => Some(Fourteen)
    case _ => None
  }

  /** `CardValue::from_enum`. */
  function FromEnum(v: CardValue): (n: nat)
    ensures 2 <= n <= 14
  {
    match v
    case Two => 2
    case Three => 3
    case Four => 4
    case Five => 5
    case Six => 6
    case Seven => 7
    case Eight => 8
    case Nine => 9
    case Ten => 10
    case Eleven => 11
    case Twelve => 12
    case Thirteen => 13
    case Fourteen => 14
  }

  /** The labels 2..9, T, J, Q, K, A are worth 2..14 in that order. */
  lemma {:induction false} LabelsValued()
    ensures forall i :: 0 <= i < |M1.Labels| ==> From(M1.Labels[i]).Some? && FromEnum(From(M1.Labels[i]).value) == i + 2
  {
  }

  /** The number a label sorts by; 0 for a character that is not a label, which the source never meets. */
  function CardNumber(ch: char): nat
  {
    match From(ch)
    case Some(v) => FromEnum(v)
    case None => 0
  }

  /** The record of a hand; `hand_type` is 0 until `find_hand_type` sets it. */
  datatype Hand = Hand(cards: string, handType: nat, bid: nat)

  /** `Hand::new`. */
  function NewHand(cards: string, bid: nat): (h: Hand)
    ensures h.cards == cards && h.bid == bid && h.handType == 0
  {
    Hand(cards, 0, bid)
  }

  /** The type one map entry settles, given the number of entries; 0 when the walk goes on. */
  function Decides(count: nat, size: nat): nat
  {
    if count == 5 then 7
    else if count == 4 then 6
    else if count == 3 then (if size == 2 then 5 else 4)
    else if count == 2 && size == 3 then 3
    else if count == 2 && size == 4 then 2
    else 0
  }

  /** The walk over the map's entries in the given order: the first entry that settles the type, or 0. */
  function Scan(order: seq<Entry<char>>, size: nat): (t: nat)
    ensures t <= 7
    decreases |order|
  {
    if order == [] then 0
    else if Decides(order[0].count, size) != 0 then Decides(order[0].count, size)
    else Scan(order[1..], size)
  }

  /** The hand's type after the walk, with the high-card default applied when it is still 0. */
  function Settle(previous: nat, scanned: nat): nat
  {
    if scanned != 0 then scanned else if previous == 0 then 1 else previous
  }

  /**
   * `find_hand_type`: counts the labels, walks the map in `order`, and falls
   * back to high card.  The hand is updated through a mutable reference in
   * the source; here the updated record is returned.
   */
  method FindHandType(hand: Hand, order: seq<Entry<char>>) returns (r: Hand)
    requires multiset(order) == multiset(Tally(hand.cards))
    ensures r == hand.(handType := Settle(hand.handType, Scan(order, |Tally(hand.cards)|)))
  {
    var handMap: seq<Entry<char>> := [];
    for i := 0 to |hand.cards|
      invariant handMap == Tally(hand.cards[..i])
    {
      assert hand.cards[..i + 1][..i] == hand.cards[..i];
      handMap := Bump(handMap, hand.cards[i]);
    }
    assert hand.cards[..|hand.cards|] == hand.cards;
    r := hand;
    var k := 0;
    while k < |order|
      invariant k <= |order|
      invariant r == hand && Scan(order, |handMap|) == Scan(order[k..], |handMap|)
    {
      assert order[k..][1..] == order[k + 1..];
      var count := order[k].count;
      if count == 5 {
        r := r.(handType := 7);
        break;
      } else if count == 4 {
        r := r.(handType := 6);
        break;
      } else if count == 3 {
        if |handMap| == 2 {
          r := r.(handType := 5);
          break;
        } else {
          r := r.(handType := 4);
          break;
        }
      } else if count == 2 {
        if |handMap| == 3 {
          r := r.(handType := 3);
          break;
        } else if |handMap| == 4 {
          r := r.(handType := 2);
          break;
        }
      }
      k := k + 1;
    }
    if r.handType == 0 {
      r := r.(handType := 1);
    }
  }

  /** A walk over entries that all settle to `d` or to nothing yields `d` exactly when one of them settles. */
  lemma {:induction false} ScanUniform(order: seq<Entry<char>>, size: nat, d: nat)
    requires d != 0
    requires forall i :: 0 <= i < |order| ==> Decides(order[i].count, size) in {0, d}
    ensures Scan(order, size) == (if exists i :: 0 <= i < |order| && Decides(order[i].count, size) == d then d else 0)
    decreases |order|
  {
    if order != [] {
      ScanUniform(order[1..], size, d);
      if exists i :: 0 <= i < |order[1..]| && Decides(order[1..][i].count, size) == d {
        var i :| 0 <= i < |order[1..]| && Decides(order[1..][i].count, size) == d;
        assert Decides(order[i + 1].count, size) == d;
      }
      if exists i :: 0 <= i < |order| && Decides(order[i].count, size) == d {
        var i :| 0 <= i < |order| && Decides(order[i].count, size) == d;
        if i > 0 {
          assert Decides(order[1..][i - 1].count, size) == d;
        }
      }
    }
  }

  /** The counts met on the walk are exactly the counts of the hand's shape. */
  lemma {:induction false} WalkMeetsShape(cards: string, order: seq<Entry<char>>)
    requires multiset(order) == multiset(Tally(cards))
    ensures |order| == |Tally(cards)|
    ensures forall i :: 0 <= i < |order| ==> order[i].count in Shape(cards)
    ensures forall c :: c in Shape(cards) ==> exists i :: 0 <= i < |order| && order[i].count == c
  {
    var t := Tally(cards);
    ShapeFacts(cards);
    assert |order| == |multiset(order)| == |multiset(t)| == |t|;
    forall i | 0 <= i < |order| ensures order[i].count in Shape(cards) {
      assert order[i] in multiset(t);
      var j :| 0 <= j < |t| && t[j] == order[i];
      assert Counts(t)[j] == order[i].count;
      assert order[i].count in multiset(Counts(t));
    }
    forall c | c in Shape(cards) ensures exists i :: 0 <= i < |order| && order[i].count == c {
      assert c in multiset(Counts(t));
      var j :| 0 <= j < |t| && Counts(t)[j] == c;
      assert t[j] in multiset(order);
      var i :| 0 <= i < |order| && order[i] == t[j];
    }
  }

  /** The type the walk finds for a five-card hand, read off mohammad's classification of the same shape. */
  function Expected(t: M1.Type): nat
  {
    if t == M1.HighCard then 0 else 1 + M1.Rank(t)
  }

  /**
   * On a five-card hand the walk's result does not depend on the iteration
   * order: whichever entry settles the type first, it settles it to the
   * same value, the one the sorted-counts classification gives.
   */
  lemma {:induction false} ScanIndependentOfOrder(cards: string, order: seq<Entry<char>>)
    requires |cards| == 5 && multiset(order) == multiset(Tally(cards))
    ensures M1.TypeOfShape(Shape(cards)).Some?
    ensures Scan(order, |Tally(cards)|) == Expected(M1.TypeOfShape(Shape(cards)).value)
  {
    var v := Shape(cards);
    ShapeFacts(cards);
    M1.ArmsCoverFive(v);
    WalkMeetsShape(cards, order);
    ScanOnShape(v, order);
  }

  /** The case analysis behind `ScanIndependentOfOrder`, one arm at a time. */
  lemma {:induction false} ScanOnShape(v: seq<nat>, order: seq<Entry<char>>)
    requires M1.TypeOfShape(v).Some?
    requires forall i :: 0 <= i < |order| ==> order[i].count in v
    requires forall c :: c in v ==> exists i :: 0 <= i < |order| && order[i].count == c
    ensures Scan(order, |v|) == Expected(M1.TypeOfShape(v).value)
  {
    var size := |v|;
    if v == [5] {
      assert 5 in v;
      ScanUniform(order, size, 7);
    } else if v == [1, 4] {
      assert 4 in v;
      ScanUniform(order, size, 6);
    } else if v == [2, 3] {
      assert 3 in v;
      ScanUniform(order, size, 5);
    } else if v == [1, 1, 3] {
      assert 3 in v;
      ScanUniform(order, size, 4);
    } else if v == [1, 2, 2] {
      assert 2 in v;
      ScanUniform(order, size, 3);
    } else if v == [1, 1, 1, 2] {
      assert 2 in v;
      ScanUniform(order, size, 2);
    } else {
      ScanUniform(order, size, 1);
    }
  }

  /** A new five-card hand gets type 1..7: high card 1 up to five of a kind 7, whatever the iteration order. */
  lemma {:induction false} NewHandType(cards: string, bid: nat, order: seq<Entry<char>>)
    requires |cards| == 5 && multiset(order) == multiset(Tally(cards))
    ensures M1.TypeOfShape(Shape(cards)).Some?
    ensures Settle(NewHand(cards, bid).handType, Scan(order, |Tally(cards)|)) == 1 + M1.Rank(M1.TypeOfShape(Shape(cards)).value)
  {
    ScanIndependentOfOrder(cards, order);
  }

  /** The sort key of `run`: the type, then the card values in order. */
  function Key(h: Hand): seq<int>
  {
    [h.handType] + seq(|h.cards|, i requires 0 <= i < |h.cards| => CardNumber(h.cards[i]))
  }

  /** Σ (i + 1) · bid over the sorted hands. */
  function Total(sorted: seq<Hand>): nat
    decreases |sorted|
  {
    if sorted == [] then 0 else Total(sorted[..|sorted| - 1]) + |sorted| * sorted[|sorted| - 1].bid
  }

  /** Each hand with its type found, walking its map in the matching order. */
  function Typed(hands: seq<Hand>, orders: seq<seq<Entry<char>>>): (r: seq<Hand>)
    requires |orders| == |hands|
    ensures |r| == |hands|
  {
    seq(|hands|, i requires 0 <= i < |hands| =>
      hands[i].(handType := Settle(hands[i].handType, Scan(orders[i], |Tally(hands[i].cards)|))))
  }

  /** The loop of `run` that calls `find_hand_type` on every hand. */
  method TypeHands(hands: seq<Hand>, orders: seq<seq<Entry<char>>>) returns (typed: seq<Hand>)
    requires |orders| == |hands|
    requires forall i :: 0 <= i < |hands| ==> multiset(orders[i]) == multiset(Tally(hands[i].cards))
    ensures typed == Typed(hands, orders)
  {
    typed := [];
    for i := 0 to |hands|
      invariant |typed| == i
      invariant forall j :: 0 <= j < i ==> typed[j] == Typed(hands, orders)[j]
    {
      var h := FindHandType(hands[i], orders[i]);
      typed := typed + [h];
    }
  }

  /** The summing loop of `run`. */
  method SumRanked(sorted: seq<Hand>) returns (sum: nat)
    ensures sum == Total(sorted)
  {
    sum := 0;
    for i := 0 to |sorted|
      invariant sum == Total(sorted[..i])
    {
      assert sorted[..i + 1][..i] == sorted[..i];
      sum := sum + (i + 1) * sorted[i].bid;
    }
    assert sorted[..|sorted|] == sorted;
  }

  /** `run` after the input is read: type every hand, sort ascending by key, sum the rank-weighted bids. */
  method Run(hands: seq<Hand>, orders: seq<seq<Entry<char>>>) returns (sum: nat)
    requires |orders| == |hands|
    requires forall i :: 0 <= i < |hands| ==> multiset(orders[i]) == multiset(Tally(hands[i].cards))
    ensures sum == Total(Sorting.SortBy(Typed(hands, orders), Key, false))
  {
    var typed := TypeHands(hands, orders);
    var sorted := Sorting.SortBy(typed, Key, false);
    sum := SumRanked(sorted);
  }
}
