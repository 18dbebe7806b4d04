/** Hand evaluation: card values, the ace-reducing total, the soft flag and natural blackjack. */
module Hands {
  import opened Cards

  /** A player hand as the round keeps it; the dealer's hand is only its cards. */
  datatype Hand = Hand(cards: seq<Card>, bet: int, finished: bool, doubled: bool)

  /** The result of evaluating a hand. */
  datatype Eval = Eval(value: int, soft: bool)

  /** Ace counts 11, J/Q/K count 10, numerals their face value; only an ace counts 11. */
  function CardValue(c: Card): (v: int)
    ensures 2 <= v <= 11
    ensures v == 11 <==> c.rank == Ace
  {
    match c.rank
    case Ace => 11
    case Jack | Queen | King => 10
    case Two => 2
    case Three => 3
    case Four => 4
    case Five => 5
    case Six => 6
    case Seven => 7
    case Eight => 8
    case Nine => 9
    case Ten => 10
  }

  /** Value of a card with an ace counted as 1. */
  function HardValue(c: Card): int
  {
    if c.rank == Ace then 1 else CardValue(c)
  }

  /** Sum of the card values, aces counted 11. */
  function RawTotal(cards: seq<Card>): int
  {
    if cards == [] then 0 else RawTotal(cards[..|cards| - 1]) + CardValue(cards[|cards| - 1])
  }

  /** Number of aces. */
  function Aces(cards: seq<Card>): nat
  {
    if cards == [] then 0 else Aces(cards[..|cards| - 1]) + (if cards[|cards| - 1].rank == Ace then 1 else 0)
  }

  /** Sum of the card values, aces counted 1. */
  function HardTotal(cards: seq<Card>): int
  {
    if cards == [] then 0 else HardTotal(cards[..|cards| - 1]) + HardValue(cards[|cards| - 1])
  }

  /** While the total is over 21 and an ace is left, count one more ace as 1. */
  function Reduce(total: int, aces: nat): int
    decreases aces
  {
    if total > 21 && aces > 0 then Reduce(total - 10, aces - 1) else total
  }

  predicate HasAce(cards: seq<Card>)
  {
    exists i :: 0 <= i < |cards| && cards[i].rank == Ace
  }

  predicate HasEleven(cards: seq<Card>)
  {
    exists i :: 0 <= i < |cards| && CardValue(cards[i]) == 11
  }

  /** The value of a hand and its soft flag, as the table computes them. */
  function Evaluate(cards: seq<Card>): Eval
  {
    var v := Reduce(RawTotal(cards), Aces(cards));
    Eval(v, HasAce(cards) && v <= 21 && HasEleven(cards))
  }

  /** The evaluation loop: sum with aces as 11 and count the aces, then reduce. */
  method EvaluateHand(cards: seq<Card>) returns (e: Eval)
    ensures e == Evaluate(cards)
  {
    var total := 0;
    var aces: nat := 0;
    for i := 0 to |cards|
      invariant total == RawTotal(cards[..i]) && aces == Aces(cards[..i])
    {
      assert cards[..i + 1][..i] == cards[..i];
      if cards[i].rank == Ace {
        aces := aces + 1;
      }
      total := total + CardValue(cards[i]);
    }
    assert cards[..|cards|] == cards;
    while total > 21 && aces > 0
      invariant Reduce(total, aces) == Reduce(RawTotal(cards), Aces(cards))
      decreases aces
    {
      total := total - 10;
      aces := aces - 1;
    }
    var soft := HasAce(cards) && total <= 21 && HasEleven(cards);
    e := Eval(total, soft);
  }

  /** A natural: exactly two cards worth 21. */
  predicate IsBlackjack(cards: seq<Card>)
  {
    |cards| == 2 && Evaluate(cards).value == 21
  }

  /** The aces-as-11 total is the aces-as-1 total plus 10 per ace. */
  lemma {:induction false} RawIsHardPlusAces(cards: seq<Card>)
    ensures RawTotal(cards) == HardTotal(cards) + 10 * Aces(cards)
  {
    if cards != [] {
      RawIsHardPlusAces(cards[..|cards| - 1]);
    }
  }

  /**
   * Every card adds at least one to the hard total; with ValueBounds this bounds the number of
   * cards the dealer can hold while drawing (Table.DealerHandBounded).
   */
  lemma {:induction false} HardTotalAtLeastCount(cards: seq<Card>)
    ensures HardTotal(cards) >= |cards|
  {
    if cards != [] {
      HardTotalAtLeastCount(cards[..|cards| - 1]);
    }
  }

  /**
   * The reduction loop removes 10 some k <= aces times; it stops at the first total <= 21,
   * or when the aces run out; a total it reduced was over 21 one step before.
   */
  lemma {:induction false} ReduceSpec(total: int, aces: nat)
    ensures var r := Reduce(total, aces);
      && total - 10 * aces <= r <= total
      && (total - r) % 10 == 0
      && (r <= 21 || r == total - 10 * aces)
      && (r < total ==> r + 10 > 21)
  {
    if total > 21 && aces > 0 {
      ReduceSpec(total - 10, aces - 1);
    }
  }

  /** The value lies between the hard total and the aces-as-11 total. */
  lemma ValueBounds(cards: seq<Card>)
    ensures HardTotal(cards) <= Evaluate(cards).value <= RawTotal(cards)
    ensures HardTotal(cards) <= 21 ==> Evaluate(cards).value <= 21
  {
    RawIsHardPlusAces(cards);
    ReduceSpec(RawTotal(cards), Aces(cards));
  }

  /**
   * The value is the best total obtainable by counting some aces as 1: no total of the form
   * hard + 10 * k with k <= aces lies strictly between it and 21.
   */
  lemma ValueIsBest(cards: seq<Card>, k: nat)
    requires k <= Aces(cards) && HardTotal(cards) + 10 * k <= 21
    ensures HardTotal(cards) + 10 * k <= Evaluate(cards).value <= 21
  {
    RawIsHardPlusAces(cards);
    ReduceSpec(RawTotal(cards), Aces(cards));
  }

  /** Holding an ace and holding a card worth 11 are the same, and both mean the ace count is positive. */
  lemma {:induction false} HasAceIffAces(cards: seq<Card>)
    ensures HasAce(cards) <==> Aces(cards) > 0
    ensures HasEleven(cards) <==> HasAce(cards)
  {
    if cards != [] {
      var init := cards[..|cards| - 1];
      HasAceIffAces(init);
      if HasAce(init) {
        var i :| 0 <= i < |init| && init[i].rank == Ace;
        assert cards[i].rank == Ace;
      }
      if HasAce(cards) && !HasAce(init) {
        var i :| 0 <= i < |cards| && cards[i].rank == Ace;
        assert i == |cards| - 1;
      }
    }
  }

  /** The soft flag holds exactly when the hand has an ace and does not bust. */
  lemma SoftIff(cards: seq<Card>)
    ensures Evaluate(cards).soft <==> Aces(cards) > 0 && Evaluate(cards).value <= 21
  {
    HasAceIffAces(cards);
  }

  /** Two cards make a natural exactly when one is an ace and the other is worth 10. */
  lemma BlackjackIsAceAndTen(cards: seq<Card>)
    requires |cards| == 2
    ensures IsBlackjack(cards) <==>
      (cards[0].rank == Ace && CardValue(cards[1]) == 10) || (CardValue(cards[0]) == 10 && cards[1].rank == Ace)
  {
    var first := cards[..1];
    assert first[..0] == [];
    assert RawTotal(first) == CardValue(cards[0]);
    assert Aces(first) == if cards[0].rank == Ace then 1 else 0;
    assert RawTotal(cards) == CardValue(cards[0]) + CardValue(cards[1]);
    assert Aces(cards) == (if cards[0].rank == Ace then 1 else 0) + (if cards[1].rank == Ace then 1 else 0);
  }

  /** The three running totals of a three-card hand, card by card. */
  lemma TotalsOfThree(a: Card, b: Card, c: Card)
    ensures RawTotal([a, b, c]) == CardValue(a) + CardValue(b) + CardValue(c)
    ensures HardTotal([a, b, c]) == HardValue(a) + HardValue(b) + HardValue(c)
    ensures Aces([a, b, c]) == Aces([a]) + Aces([b]) + Aces([c])
  {
    var h := [a, b, c];
    assert h[..2] == [a, b] && [a, b][..1] == [a] && [a][..0] == [];
    assert HardTotal([]) == 0 && RawTotal([]) == 0;
    assert RawTotal([a]) == CardValue(a) && HardTotal([a]) == HardValue(a);
    assert RawTotal([a, b]) == CardValue(a) + CardValue(b);
    assert HardTotal([a, b]) == HardValue(a) + HardValue(b);
    assert [b][..0] == [] && [c][..0] == [];
  }

  /** Two aces and a nine reduce one ace: 11 + 11 + 9 = 31 becomes 21, still soft. */
  lemma TwoAcesAndNine()
    ensures Evaluate([Card(Spades, Ace), Card(Hearts, Ace), Card(Clubs, Nine)]) == Eval(21, true)
  {
    var h := [Card(Spades, Ace), Card(Hearts, Ace), Card(Clubs, Nine)];
    TotalsOfThree(h[0], h[1], h[2]);
    assert Aces(h) == 2 && RawTotal(h) == 31;
    assert HasAce(h) && HasEleven(h) by { assert h[0].rank == Ace; }
  }

  /** Without aces nothing is reduced: K + Q + 5 = 25, a bust and not soft. */
  lemma KingQueenFive()
    ensures Evaluate([Card(Spades, King), Card(Hearts, Queen), Card(Clubs, Five)]) == Eval(25, false)
  {
    var h := [Card(Spades, King), Card(Hearts, Queen), Card(Clubs, Five)];
    TotalsOfThree(h[0], h[1], h[2]);
    assert Aces(h) == 0 && RawTotal(h) == 25;
  }

  /** Ace and six is a soft 17. */
  lemma AceSixIsSoftSeventeen()
    ensures Evaluate([Card(Spades, Ace), Card(Hearts, Six)]) == Eval(17, true)
  {
    var h := [Card(Spades, Ace), Card(Hearts, Six)];
    assert h[..1][..0] == [];
    assert Aces(h) == 1 && RawTotal(h) == 17;
    assert HasAce(h) && HasEleven(h) by { assert h[0].rank == Ace; }
  }

  /**
   * The soft flag only asks whether the hand holds an ace and does not bust: A + K + 5 has its
   * only ace counted as 1 (value 16 equals the hard total) and is still flagged soft.
   */
  lemma SoftFlagWithEveryAceReduced()
    ensures var h := [Card(Spades, Ace), Card(Hearts, King), Card(Clubs, Five)];
      Evaluate(h) == Eval(16, true) && Evaluate(h).value == HardTotal(h)
  {
    var h := [Card(Spades, Ace), Card(Hearts, King), Card(Clubs, Five)];
    TotalsOfThree(h[0], h[1], h[2]);
    assert Aces(h) == 1 && RawTotal(h) == 26 && HardTotal(h) == 16;
    assert HasAce(h) && HasEleven(h) by { assert h[0].rank == Ace; }
  }
}
