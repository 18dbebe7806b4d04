/**
 * Settlement arithmetic. Bets were deducted when placed, so every amount here is what is
 * credited back to the balance: 0 for a loss, the bet for a push, twice the bet for a win,
 * and the bet plus one and a half bets for a paid natural. Amounts are exact reals.
 */
module Settlement {
  import opened Cards
  import opened Hands

  /** Which rule of the final settlement applies to a hand. */
  datatype Outcome = BlackjackPush | BlackjackWin | Bust | DealerBust | Win | Push | Lose

  /** The final-settlement rules, tried in the order the table tries them. */
  function Judge(cards: seq<Card>, dealer: seq<Card>): Outcome
  {
    var hv := Evaluate(cards).value;
    var dv := Evaluate(dealer).value;
    if IsBlackjack(cards) && |cards| == 2 then
      (if IsBlackjack(dealer) then BlackjackPush else BlackjackWin)
    else if hv > 21 then Bust
    else if dv > 21 then DealerBust
    else if hv > dv then Win
    else if hv == dv then Push
    else Lose
  }

  /** The amount an outcome credits for a stake of `bet`. */
  function Payout(o: Outcome, bet: int): real
  {
    match o
    case BlackjackPush => bet as real
    case BlackjackWin => bet as real + bet as real * 1.5
    case Bust => 0.0
    case DealerBust => bet as real * 2.0
    case Win => bet as real * 2.0
    case Push => bet as real
    case Lose => 0.0
  }

  /** What settling one hand against the dealer's final cards credits. */
  function Credit(h: Hand, dealer: seq<Card>): real
  {
    Payout(Judge(h.cards, dealer), h.bet)
  }

  /** The credits of all hands, in order. */
  function TotalCredit(hands: seq<Hand>, dealer: seq<Card>): real
  {
    if hands == [] then 0.0
    else TotalCredit(hands[..|hands| - 1], dealer) + Credit(hands[|hands| - 1], dealer)
  }

  /** The sum of the stakes of all hands. */
  function Stake(hands: seq<Hand>): int
  {
    if hands == [] then 0 else Stake(hands[..|hands| - 1]) + hands[|hands| - 1].bet
  }

  /** Settlement straight after the deal, when either side holds a natural. */
  function ImmediateCredit(bet: int, playerBJ: bool, dealerBJ: bool): real
  {
    if playerBJ && dealerBJ then bet as real
    else if playerBJ then bet as real + bet as real * 1.5
    else 0.0
  }

  /**
   * A hand is credited nothing, its bet, twice its bet, or two and a half times its bet, and
   * each amount belongs to exactly the outcomes that pay it.
   */
  lemma CreditIsOneOf(h: Hand, dealer: seq<Card>)
    requires h.bet >= 1
    ensures var c := Credit(h, dealer); var b := h.bet as real; var o := Judge(h.cards, dealer);
      && (c == 0.0 || c == b || c == 2.0 * b || c == 2.5 * b)
      && (c == 2.5 * b <==> o == BlackjackWin)
      && (c == 2.0 * b <==> o == DealerBust || o == Win)
      && (c == b <==> o == BlackjackPush || o == Push)
      && (c == 0.0 <==> o == Bust || o == Lose)
  {
  }

  /** A natural in the final settlement pays 3:2 unless the dealer also holds one, which is a push. */
  lemma NaturalCredit(h: Hand, dealer: seq<Card>)
    requires IsBlackjack(h.cards)
    ensures Credit(h, dealer) == if IsBlackjack(dealer) then h.bet as real else 2.5 * h.bet as real
  {
  }

  /**
   * For a hand that is not a natural, the credit is decided by the two values alone: a bust
   * loses even when the dealer busts too, a dealer bust otherwise wins, and otherwise the
   * higher value wins and equal values push.
   */
  lemma PlainCredit(h: Hand, dealer: seq<Card>)
    requires !IsBlackjack(h.cards) && h.bet >= 1
    ensures var hv := Evaluate(h.cards).value; var dv := Evaluate(dealer).value; var b := h.bet as real;
      && (Credit(h, dealer) == 2.0 * b <==> hv <= 21 && (dv > 21 || hv > dv))
      && (Credit(h, dealer) == b <==> hv <= 21 && dv <= 21 && hv == dv)
      && (Credit(h, dealer) == 0.0 <==> hv > 21 || (dv <= 21 && hv < dv))
  {
  }

  /** Credits are never negative, so final settlement never lowers the balance. */
  lemma {:induction false} TotalCreditNonNegative(hands: seq<Hand>, dealer: seq<Card>)
    requires forall i :: 0 <= i < |hands| ==> hands[i].bet >= 0
    ensures TotalCredit(hands, dealer) >= 0.0
  {
    if hands != [] {
      TotalCreditNonNegative(hands[..|hands| - 1], dealer);
    }
  }

  /** Final settlement credits at most two and a half times the total stake. */
  lemma {:induction false} TotalCreditAtMost(hands: seq<Hand>, dealer: seq<Card>)
    requires forall i :: 0 <= i < |hands| ==> hands[i].bet >= 1
    ensures TotalCredit(hands, dealer) <= 2.5 * Stake(hands) as real
  {
    if hands != [] {
      TotalCreditAtMost(hands[..|hands| - 1], dealer);
      CreditIsOneOf(hands[|hands| - 1], dealer);
    }
  }

  /** Immediate settlement refunds a push, pays a player natural 3:2, and credits nothing otherwise. */
  lemma ImmediateCreditCases(bet: int, playerBJ: bool, dealerBJ: bool)
    requires bet >= 1
    ensures ImmediateCredit(bet, playerBJ, dealerBJ) >= 0.0
    ensures ImmediateCredit(bet, playerBJ, dealerBJ) == 2.5 * bet as real <==> playerBJ && !dealerBJ
    ensures ImmediateCredit(bet, playerBJ, dealerBJ) == bet as real <==> playerBJ && dealerBJ
    ensures ImmediateCredit(bet, playerBJ, dealerBJ) == 0.0 <==> !playerBJ
  {
  }

  /**
   * Final settlement does not ask how a two-card hand arose: an ace and a king left on a
   * split hand are paid 3:2 against a dealer 19.
   */
  lemma SplitAceKingPaysThreeToTwo(bet: int)
    ensures Credit(Hand([Card(Spades, Ace), Card(Hearts, King)], bet, true, false),
                   [Card(Clubs, Ten), Card(Diamonds, Nine)]) == 2.5 * bet as real
  {
    var player := [Card(Spades, Ace), Card(Hearts, King)];
    var dealer := [Card(Clubs, Ten), Card(Diamonds, Nine)];
    BlackjackIsAceAndTen(player);
    BlackjackIsAceAndTen(dealer);
  }
}
