/**
 * The round engine: the module-level game state as one object, and the dealing, player
 * actions, dealer turn and settlement as methods on it. Timers that pace the dealer turn
 * and the immediate settlement are dropped; both run to completion synchronously.
 */
module Table {
  import opened Cards
  import opened Shuffling
  import opened Hands
  import opened Settlement

  /** Why an action was refused; a refused action changes nothing else. */
  datatype Refusal = BetExceedsBalance | NotTwoCards | RanksDiffer | InsufficientBalance

  datatype Status = Done | Refused(reason: Refusal)

  /** The state the actions read and write, taken as one value. */
  datatype RoundState = RoundState(balance: real, bet: int, deck: seq<Card>, dealer: seq<Card>,
                                   hands: seq<Hand>, current: nat, active: bool)

  /** Index of the first hand at index >= lo that is not finished, or -1 (the scan starts at i). */
  function FindUnfinished(hands: seq<Hand>, lo: int, i: nat): (r: int)
    requires i <= |hands|
    ensures r == -1 || (i <= r < |hands| && lo <= r && !hands[r].finished)
    ensures forall k :: i <= k < |hands| && lo <= k && (r == -1 || k < r) ==> hands[k].finished
    decreases |hands| - i
  {
    if i == |hands| then -1
    else if !hands[i].finished && i >= lo then i
    else FindUnfinished(hands, lo, i + 1)
  }

  /** Scanning from i, skipping finished hands up to cur does not change what is found. */
  lemma {:induction false} ScanPastFinished(hands: seq<Hand>, cur: nat, i: nat)
    requires i <= |hands|
    requires forall k :: i <= k <= cur && k < |hands| ==> hands[k].finished
    ensures FindUnfinished(hands, cur + 1, i) == FindUnfinished(hands, 0, i)
    decreases |hands| - i
  {
    if i < |hands| {
      ScanPastFinished(hands, cur, i + 1);
    }
  }

  /**
   * When every hand up to the active one is finished (which the round keeps), the fallback scan
   * over all hands finds what the scan above the active hand found: the fallback never applies.
   */
  lemma FallbackUnreachable(hands: seq<Hand>, cur: nat)
    requires forall k :: 0 <= k <= cur && k < |hands| ==> hands[k].finished
    ensures FindUnfinished(hands, cur + 1, 0) == FindUnfinished(hands, 0, 0)
  {
    ScanPastFinished(hands, cur, 0);
  }

  /** The dealer's cards grew from `before` to `after` by drawing only below 17, and stop at 17 or more. */
  ghost predicate DealerTurn(before: seq<Card>, after: seq<Card>)
  {
    && |before| <= |after| && after[..|before|] == before
    && (forall k :: |before| <= k < |after| ==> Evaluate(after[..k]).value < 17)
    && Evaluate(after).value >= 17
  }

  /**
   * `c` was taken from the shoe `before`, leaving `after`: from the end of the shoe itself when
   * it held at least 52 cards, else from the end of a replacement full shoe (ResetDeckIfNeeded
   * states that the replacement is a complete shuffle of a freshly built shoe).
   */
  ghost predicate Drawn(before: seq<Card>, after: seq<Card>, c: Card, decks: nat)
  {
    if |before| >= 52 then before == after + [c]
    else IsFullShoe(after + [c], decks)
  }

  /** The cards `cs` were drawn one after another, in order, taking the shoe from `before` to `after`. */
  ghost predicate DrawnAll(before: seq<Card>, after: seq<Card>, cs: seq<Card>, decks: nat)
    decreases |cs|
  {
    if cs == [] then after == before
    else exists mid {:trigger DrawnAll(before, mid, cs[..|cs| - 1], decks)} ::
      DrawnAll(before, mid, cs[..|cs| - 1], decks) && Drawn(mid, after, cs[|cs| - 1], decks)
  }

  lemma DrawnAllStep(before: seq<Card>, mid: seq<Card>, after: seq<Card>, cs: seq<Card>, c: Card, decks: nat)
    requires DrawnAll(before, mid, cs, decks) && Drawn(mid, after, c, decks)
    ensures DrawnAll(before, after, cs + [c], decks)
  {
    assert (cs + [c])[..|cs|] == cs;
  }

  /**
   * While the shoe never runs low, drawing pops from its end: the cards drawn are its last
   * cards, the last one first, and the rest of the shoe is left as it was.
   */
  lemma {:induction false} DrawnFromLargeShoe(before: seq<Card>, after: seq<Card>, cs: seq<Card>, decks: nat)
    requires DrawnAll(before, after, cs, decks) && |before| >= 51 + |cs|
    ensures after == before[..|before| - |cs|]
    ensures forall k :: 0 <= k < |cs| ==> cs[k] == before[|before| - 1 - k]
    decreases |cs|
  {
    if cs != [] {
      var init := cs[..|cs| - 1];
      var mid :| DrawnAll(before, mid, init, decks) && Drawn(mid, after, cs[|cs| - 1], decks);
      DrawnFromLargeShoe(before, mid, init, decks);
      assert mid == after + [cs[|cs| - 1]];
      assert forall k :: 0 <= k < |init| ==> cs[k] == init[k];
    }
  }

  /** The shoe preparation of a deal: a shuffle of the shoe, or a full shoe when it was empty. */
  ghost predicate Prepared(before: seq<Card>, after: seq<Card>, decks: nat)
  {
    && (before != [] ==> IsShuffleOf(after, before))
    && (before == [] ==> IsFullShoe(after, decks))
  }

  /**
   * A deal of `amount` from `s` leading to `t`: one fresh hand with the bet, two cards each drawn
   * from the prepared shoe (player, player, dealer, dealer), and immediate settlement when either
   * side holds a natural.
   */
  ghost predicate Dealt(s: RoundState, t: RoundState, amount: int, decks: nat)
  {
    && t.bet == amount && t.current == 0
    && |t.hands| == 1 && |t.hands[0].cards| == 2 && |t.dealer| == 2
    && t.hands[0] == Hand(t.hands[0].cards, amount, false, false)
    && (exists shoe :: Prepared(s.deck, shoe, decks) && DrawnAll(shoe, t.deck, t.hands[0].cards + t.dealer, decks))
    && var playerBJ := IsBlackjack(t.hands[0].cards);
       var dealerBJ := IsBlackjack(t.dealer);
       if playerBJ || dealerBJ then
         !t.active && t.balance == s.balance - amount as real + ImmediateCredit(amount, playerBJ, dealerBJ)
       else
         t.active && t.balance == s.balance - amount as real
  }

  /** The dealer turn from `s` to `t`: the dealer draws below 17, then every hand is settled. */
  ghost predicate DealerPlayed(s: RoundState, t: RoundState, decks: nat)
  {
    && t.hands == s.hands && t.bet == s.bet && t.current == s.current && !t.active
    && DealerTurn(s.dealer, t.dealer)
    && DrawnAll(s.deck, t.deck, t.dealer[|s.dealer|..], decks)
    && t.balance == s.balance + TotalCredit(s.hands, t.dealer)
  }

  /**
   * Moving on from the active hand of `s`: activate the first unfinished hand after it; failing
   * that the first unfinished hand at all; failing that play the dealer and settle.
   */
  ghost predicate Advanced(s: RoundState, t: RoundState, decks: nat)
  {
    var next := FindUnfinished(s.hands, s.current + 1, 0);
    var any := FindUnfinished(s.hands, 0, 0);
    if next != -1 then t == s.(current := next)
    else if any != -1 then t == s.(current := any)
    else DealerPlayed(s, t, decks)
  }

  /** A hit from `s` to `t`: one card onto the active hand; a bust finishes it and moves on. */
  ghost predicate Hit(s: RoundState, t: RoundState, decks: nat)
  {
    && s.current < |s.hands|
    && exists c, mid :: Drawn(s.deck, mid, c, decks) && HitWith(s, t, c, mid, decks)
  }

  ghost predicate HitWith(s: RoundState, t: RoundState, c: Card, mid: seq<Card>, decks: nat)
    requires s.current < |s.hands|
  {
    var h := s.hands[s.current];
    var cards := h.cards + [c];
    if Evaluate(cards).value > 21 then
      Advanced(s.(deck := mid, hands := s.hands[s.current := h.(cards := cards, finished := true)]), t, decks)
    else
      t == s.(deck := mid, hands := s.hands[s.current := h.(cards := cards)])
  }

  /** A stand from `s` to `t`: the active hand is finished and play moves on. */
  ghost predicate Stood(s: RoundState, t: RoundState, decks: nat)
  {
    && s.current < |s.hands|
    && Advanced(s.(hands := s.hands[s.current := s.hands[s.current].(finished := true)]), t, decks)
  }

  /**
   * A double from `s` to `t`: the bet is deducted again and doubled, exactly one card is drawn
   * onto the hand, the hand is finished whatever its value, and play moves on.
   */
  ghost predicate Doubled(s: RoundState, t: RoundState, decks: nat)
  {
    && s.current < |s.hands|
    && var h := s.hands[s.current];
       && |h.cards| == 2 && s.balance >= h.bet as real
       && exists c, mid :: Drawn(s.deck, mid, c, decks) &&
            var doubled := h.(cards := h.cards + [c], bet := 2 * h.bet, finished := true, doubled := true);
            Advanced(s.(balance := s.balance - h.bet as real, deck := mid, hands := s.hands[s.current := doubled]), t, decks)
  }

  /** The split test of the action-button logic: one hand, a pair, and enough balance. */
  predicate SplitAllowed(hands: seq<Hand>, balance: real)
  {
    && |hands| == 1 && |hands[0].cards| == 2
    && hands[0].cards[0].rank == hands[0].cards[1].rank
    && balance >= hands[0].bet as real
  }

  /**
   * A split from `s` to `t`: the bet is deducted again, the second card moves to a new hand with
   * the same bet, and one card is drawn onto each hand, the original hand first.
   */
  ghost predicate SplitDone(s: RoundState, t: RoundState, decks: nat)
  {
    && SplitAllowed(s.hands, s.balance)
    && var h := s.hands[0];
       exists c0, c1, mid :: Drawn(s.deck, mid, c0, decks) && Drawn(mid, t.deck, c1, decks) &&
         t == s.(balance := s.balance - h.bet as real, deck := t.deck,
                 hands := [h.(cards := [h.cards[0], c0]), Hand([h.cards[1], c1], h.bet, false, false)])
  }

  class Round {
    const deckCount: nat
    var balance: real
    var bet: int
    var deck: seq<Card>
    var dealer: seq<Card>
    var playerHands: seq<Hand>
    var currentHandIndex: nat
    var roundActive: bool

    function Snapshot(): RoundState
      reads this
    {
      RoundState(balance, bet, deck, dealer, playerHands, currentHandIndex, roundActive)
    }

    /** Holds between and within operations. */
    ghost predicate Sound()
      reads this
    {
      && deckCount >= 1
      && balance >= 0.0
      && bet >= 1
      && |playerHands| <= 2
      && (forall i :: 0 <= i < |playerHands| ==> playerHands[i].bet >= 1)
    }

    /** Holds between operations: during a round the active hand exists and is still open. */
    ghost predicate Valid()
      reads this
    {
      && Sound()
      && (roundActive ==> currentHandIndex < |playerHands| && !playerHands[currentHandIndex].finished)
    }

    /** Startup: a shuffled shoe of `decks` decks and the starting balance; the default bet is 10. */
    constructor (decks: nat, startingBalance: real)
      requires decks >= 1 && startingBalance >= 0.0
      ensures Valid()
      ensures deckCount == decks && balance == startingBalance && bet == 10
      ensures IsShuffleOf(deck, FullDeck(decks)) && IsFullShoe(deck, decks)
      ensures dealer == [] && playerHands == [] && currentHandIndex == 0 && !roundActive
    {
      deckCount := decks;
      balance := startingBalance;
      bet := 10;
      dealer := [];
      playerHands := [];
      currentHandIndex := 0;
      roundActive := false;
      var built := CreateDeck(decks);
      var shoe := ShuffleSeq(built);
      deck := shoe;
      FullDeckIsFullShoe(decks);
      FullShoePermuted(built, shoe, decks);
    }

    /** Replaces the whole shoe by a freshly built, shuffled one when it holds fewer than 52 cards. */
    method ResetDeckIfNeeded()
      requires Sound()
      modifies this`deck
      ensures Sound() && |deck| >= 52
      ensures old(|deck|) >= 52 ==> deck == old(deck)
      ensures old(|deck|) < 52 ==> IsShuffleOf(deck, FullDeck(deckCount)) && IsFullShoe(deck, deckCount)
    {
      if |deck| < 52 {
        var built := CreateDeck(deckCount);
        deck := ShuffleSeq(built);
        FullDeckIsFullShoe(deckCount);
        FullShoePermuted(built, deck, deckCount);
      }
    }

    /** Takes the card at the end of the shoe, after replacing a shoe that ran low; never fails. */
    method DrawCard() returns (c: Card)
      requires Sound()
      modifies this`deck
      ensures Sound()
      ensures Drawn(old(deck), deck, c, deckCount)
    {
      ResetDeckIfNeeded();
      ghost var shoe := deck;
      c := deck[|deck| - 1];
      deck := deck[..|deck| - 1];
      assert shoe == deck + [c];
    }

    /**
     * The shoe preparation of the deal: an empty shoe is replaced by a freshly built one, and
     * the shoe is then shuffled completely.
     */
    method PrepareShoe()
      requires Sound()
      modifies this`deck
      ensures Sound() && Prepared(old(deck), deck, deckCount)
    {
      if |deck| == 0 {
        var built := CreateDeck(deckCount);
        FullDeckIsFullShoe(deckCount);
        deck := built;
      }
      ghost var before := deck;
      deck := ShuffleSeq(deck);
      if old(deck) == [] {
        FullShoePermuted(before, deck, deckCount);
      }
    }

    /** Immediate settlement after the deal when either side holds a natural; ends the round. */
    method SettleRoundImmediate(playerBJ: bool, dealerBJ: bool)
      requires Sound()
      modifies this`balance, this`roundActive
      ensures Sound() && !roundActive
      ensures balance == old(balance) + ImmediateCredit(bet, playerBJ, dealerBJ)
    {
      if playerBJ && dealerBJ {
        balance := balance + bet as real;
      } else if playerBJ {
        balance := balance + bet as real + bet as real * 1.5;
      }
      roundActive := false;
    }

    /**
     * Deals a round for a bet (already normalised to an integer >= 1): refuses a bet above the
     * balance, keeping only the new bet; otherwise deducts it, prepares the shoe, deals, and
     * settles at once when either side holds a natural.
     */
    method StartDeal(amount: int) returns (r: Status)
      requires Valid() && !roundActive && amount >= 1
      modifies this
      ensures Valid()
      ensures amount as real > old(balance) ==>
        r == Refused(BetExceedsBalance) && Snapshot() == old(Snapshot()).(bet := amount)
      ensures amount as real <= old(balance) ==>
        r == Done && Dealt(old(Snapshot()), Snapshot(), amount, deckCount)
    {
      bet := amount;
      if bet as real > balance {
        return Refused(BetExceedsBalance);
      }
      balance := balance - bet as real;
      PrepareShoe();
      ghost var shoe := deck;
      dealer := [];
      playerHands := [Hand([], bet, false, false)];
      currentHandIndex := 0;
      roundActive := true;

      DealInitialCards();

      var playerBJ := IsBlackjack(playerHands[0].cards);
      var dealerBJ := IsBlackjack(dealer);
      if playerBJ || dealerBJ {
        SettleRoundImmediate(playerBJ, dealerBJ);
      }
      assert Prepared(old(deck), shoe, deckCount) && DrawnAll(shoe, deck, playerHands[0].cards + dealer, deckCount);
      r := Done;
    }

    /** The initial draw: two cards to the single player hand, then two to the dealer. */
    method DealInitialCards()
      requires Sound() && |playerHands| == 1 && playerHands[0].cards == [] && dealer == []
      modifies this`deck, this`playerHands, this`dealer
      ensures Sound() && |playerHands| == 1 && |playerHands[0].cards| == 2 && |dealer| == 2
      ensures playerHands[0] == old(playerHands[0]).(cards := playerHands[0].cards)
      ensures DrawnAll(old(deck), deck, playerHands[0].cards + dealer, deckCount)
    {
      ghost var d0 := deck;
      var c := DrawCard();
      DrawnAllStep(d0, d0, deck, [], c, deckCount);
      playerHands := [playerHands[0].(cards := playerHands[0].cards + [c])];
      ghost var d1 := deck;
      c := DrawCard();
      DrawnAllStep(d0, d1, deck, playerHands[0].cards, c, deckCount);
      playerHands := [playerHands[0].(cards := playerHands[0].cards + [c])];
      ghost var d2 := deck;
      c := DrawCard();
      DrawnAllStep(d0, d2, deck, playerHands[0].cards, c, deckCount);
      dealer := dealer + [c];
      assert playerHands[0].cards + [c] == playerHands[0].cards + dealer;
      ghost var d3 := deck;
      c := DrawCard();
      DrawnAllStep(d0, d3, deck, playerHands[0].cards + dealer, c, deckCount);
      assert playerHands[0].cards + dealer + [c] == playerHands[0].cards + (dealer + [c]);
      dealer := dealer + [c];
    }

    /** Final settlement: credits every hand its payout against the dealer's cards; ends the round. */
    method SettleAllHands()
      requires Sound()
      modifies this`balance, this`roundActive
      ensures Sound() && !roundActive
      ensures balance == old(balance) + TotalCredit(playerHands, dealer)
    {
      for i := 0 to |playerHands|
        invariant balance == old(balance) + TotalCredit(playerHands[..i], dealer)
        invariant balance >= old(balance)
      {
        var h := playerHands[i];
        assert playerHands[..i + 1][..i] == playerHands[..i];
        TotalCreditNonNegative(playerHands[..i + 1], dealer);
        balance := balance + Payout(Judge(h.cards, dealer), h.bet);
      }
      assert playerHands[..|playerHands|] == playerHands;
      roundActive := false;
    }

    /** The dealer draws while the hand is worth less than 17, standing on soft 17. */
    method DealerDraws()
      requires Sound()
      modifies this`deck, this`dealer
      ensures Sound() && DealerTurn(old(dealer), dealer)
      ensures DrawnAll(old(deck), deck, dealer[|old(dealer)|..], deckCount)
    {
      var e := EvaluateHand(dealer);
      while e.value < 17
        invariant Sound() && e == Evaluate(dealer)
        invariant |old(dealer)| <= |dealer| && dealer[..|old(dealer)|] == old(dealer)
        invariant forall k :: |old(dealer)| <= k < |dealer| ==> Evaluate(dealer[..k]).value < 17
        invariant DrawnAll(old(deck), deck, dealer[|old(dealer)|..], deckCount)
        decreases 17 - HardTotal(dealer)
      {
        ValueBounds(dealer);
        ghost var before := dealer;
        ghost var shoe := deck;
        var c := DrawCard();
        dealer := dealer + [c];
        assert dealer[..|before|] == before;
        assert before[..|old(dealer)|] == old(dealer);
        assert dealer[..|before|][..|old(dealer)|] == dealer[..|old(dealer)|];
        assert forall k :: |old(dealer)| <= k < |before| ==> dealer[..k] == before[..k];
        assert dealer[..|dealer| - 1] == before;
        assert dealer[|old(dealer)|..] == before[|old(dealer)|..] + [c];
        DrawnAllStep(old(deck), shoe, deck, before[|old(dealer)|..], c, deckCount);
        e := EvaluateHand(dealer);
      }
    }

    /** The dealer turn: the dealer draws, then every hand is settled. */
    method PlayDealer()
      requires Sound()
      modifies this
      ensures Sound() && DealerPlayed(old(Snapshot()), Snapshot(), deckCount)
    {
      DealerDraws();
      SettleAllHands();
    }

    /** Moves to the next unfinished hand, or, when none is left, plays the dealer and settles. */
    method NextHandOrDealer()
      requires Sound() && roundActive && currentHandIndex < |playerHands| && playerHands[currentHandIndex].finished
      modifies this
      ensures Valid() && Advanced(old(Snapshot()), Snapshot(), deckCount)
    {
      var next := FindUnfinished(playerHands, currentHandIndex + 1, 0);
      if next != -1 {
        currentHandIndex := next;
        return;
      }
      var nextAll := FindUnfinished(playerHands, 0, 0);
      if nextAll != -1 {
        currentHandIndex := nextAll;
        return;
      }
      PlayDealer();
    }

    /** Adds one card to the active hand; a bust finishes the hand and moves on. */
    method PlayerHit()
      requires Valid() && roundActive
      modifies this
      ensures Valid() && Hit(old(Snapshot()), Snapshot(), deckCount)
    {
      ghost var s := Snapshot();
      var k := currentHandIndex;
      var c := DrawCard();
      ghost var mid := deck;
      var hand := playerHands[k].(cards := playerHands[k].cards + [c]);
      playerHands := playerHands[k := hand];
      var e := EvaluateHand(hand.cards);
      if e.value > 21 {
        playerHands := playerHands[k := hand.(finished := true)];
        ghost var u := Snapshot();
        assert u == s.(deck := mid, hands := s.hands[k := s.hands[k].(cards := hand.cards, finished := true)]);
        NextHandOrDealer();
        assert Advanced(u, Snapshot(), deckCount);
      }
      assert HitWith(s, Snapshot(), c, mid, deckCount);
    }

    /** Finishes the active hand and moves on. */
    method PlayerStand()
      requires Valid() && roundActive
      modifies this
      ensures Valid() && Stood(old(Snapshot()), Snapshot(), deckCount)
    {
      var k := currentHandIndex;
      playerHands := playerHands[k := playerHands[k].(finished := true)];
      NextHandOrDealer();
    }

    /**
     * Doubles the active two-card hand when the balance covers its bet: deducts the bet again,
     * doubles it, draws exactly one card, finishes the hand whatever its value, and moves on.
     */
    method PlayerDouble() returns (r: Status)
      requires Valid() && roundActive
      modifies this
      ensures Valid()
      ensures var h := old(playerHands[currentHandIndex]);
        if |h.cards| != 2 then r == Refused(NotTwoCards) && Snapshot() == old(Snapshot())
        else if old(balance) < h.bet as real then r == Refused(InsufficientBalance) && Snapshot() == old(Snapshot())
        else r == Done && Doubled(old(Snapshot()), Snapshot(), deckCount)
    {
      ghost var s := Snapshot();
      var k := currentHandIndex;
      var hand := playerHands[k];
      if |hand.cards| != 2 {
        return Refused(NotTwoCards);
      }
      if balance < hand.bet as real {
        return Refused(InsufficientBalance);
      }
      balance := balance - hand.bet as real;
      hand := hand.(bet := hand.bet * 2, doubled := true);
      var c := DrawCard();
      ghost var mid := deck;
      hand := hand.(cards := hand.cards + [c], finished := true);
      playerHands := playerHands[k := hand];
      NextHandOrDealer();
      r := Done;
    }

    /**
     * Splits the single two-card hand of equal ranks when the balance covers its bet: deducts
     * the bet, moves the second card to a new hand with the same bet, and draws one card onto
     * each, the original hand first. The active hand stays the first one.
     */
    method PlayerSplit() returns (r: Status)
      requires Valid() && roundActive && |playerHands| == 1
      modifies this
      ensures Valid()
      ensures r == Done <==> SplitAllowed(old(playerHands), old(balance))
      ensures var h := old(playerHands[0]);
        if |h.cards| != 2 then r == Refused(NotTwoCards) && Snapshot() == old(Snapshot())
        else if h.cards[0].rank != h.cards[1].rank then r == Refused(RanksDiffer) && Snapshot() == old(Snapshot())
        else if old(balance) < h.bet as real then r == Refused(InsufficientBalance) && Snapshot() == old(Snapshot())
        else SplitDone(old(Snapshot()), Snapshot(), deckCount)
    {
      var hand := playerHands[0];
      if |hand.cards| != 2 {
        return Refused(NotTwoCards);
      }
      if hand.cards[0].rank != hand.cards[1].rank {
        return Refused(RanksDiffer);
      }
      if balance < hand.bet as real {
        return Refused(InsufficientBalance);
      }
      balance := balance - hand.bet as real;
      var newHand := Hand([hand.cards[1]], hand.bet, false, false);
      hand := hand.(cards := [hand.cards[0]]);
      ghost var d0 := deck;
      var c := DrawCard();
      ghost var c0 := c;
      ghost var mid := deck;
      hand := hand.(cards := hand.cards + [c]);
      c := DrawCard();
      newHand := newHand.(cards := newHand.cards + [c]);
      playerHands := [hand, newHand];
      ghost var h := old(playerHands[0]);
      assert hand.cards == [h.cards[0], c0] && newHand.cards == [h.cards[1], c];
      assert Drawn(d0, mid, c0, deckCount) && Drawn(mid, deck, c, deckCount);
      assert Snapshot() == old(Snapshot()).(balance := old(balance) - h.bet as real, deck := deck,
        hands := [h.(cards := [h.cards[0], c0]), Hand([h.cards[1], c], h.bet, false, false)]);
      r := Done;
    }

    /** Clears the table for the next round; the balance, shoe and bet stay. */
    method NewRound()
      requires Valid()
      modifies this`playerHands, this`dealer, this`roundActive
      ensures Valid() && Snapshot() == old(Snapshot()).(hands := [], dealer := [], active := false)
    {
      playerHands := [];
      dealer := [];
      roundActive := false;
    }
  }

  /**
   * Moving on never touches the hands or the bet; while play continues nothing else but the
   * active index changes; and the dealer turn, when it comes, never lowers the balance.
   */
  lemma AdvancedEffect(s: RoundState, t: RoundState, decks: nat)
    requires Advanced(s, t, decks)
    requires forall i :: 0 <= i < |s.hands| ==> s.hands[i].bet >= 0
    ensures t.hands == s.hands && t.bet == s.bet
    ensures t.active && s.active ==> t == s.(current := t.current) && !t.hands[t.current].finished
    ensures s.active && !t.active ==> DealerPlayed(s, t, decks) && t.balance >= s.balance
  {
    if FindUnfinished(s.hands, s.current + 1, 0) == -1 && FindUnfinished(s.hands, 0, 0) == -1 {
      TotalCreditNonNegative(s.hands, t.dealer);
    }
  }

  /**
   * A hit on an open hand appends exactly one card to it and finishes it exactly when its value
   * exceeds 21; the other hands and the bets stay; without a bust nothing else changes; while
   * play continues only the hands, the shoe and the index change; and when the hit ends the
   * round the balance gains exactly the settlement credit.
   */
  lemma HitEffect(s: RoundState, t: RoundState, decks: nat)
    requires Hit(s, t, decks) && !s.hands[s.current].finished
    requires forall i :: 0 <= i < |s.hands| ==> s.hands[i].bet >= 0
    ensures |t.hands| == |s.hands| && t.bet == s.bet
    ensures var h := s.hands[s.current]; var g := t.hands[s.current];
      && |g.cards| == |h.cards| + 1 && g.cards[..|h.cards|] == h.cards
      && g.bet == h.bet && g.doubled == h.doubled
      && (g.finished <==> Evaluate(g.cards).value > 21)
    ensures forall i :: 0 <= i < |s.hands| && i != s.current ==> t.hands[i] == s.hands[i]
    ensures Evaluate(t.hands[s.current].cards).value <= 21 ==>
      t.current == s.current && t.active == s.active && t.balance == s.balance && t.dealer == s.dealer
    ensures t.active && s.active ==> t == s.(deck := t.deck, hands := t.hands, current := t.current)
    ensures s.active && !t.active ==>
      DealerTurn(s.dealer, t.dealer) && t.balance == s.balance + TotalCredit(t.hands, t.dealer)
  {
    var c, mid :| Drawn(s.deck, mid, c, decks) && HitWith(s, t, c, mid, decks);
    var h := s.hands[s.current];
    var cards := h.cards + [c];
    assert cards[..|h.cards|] == h.cards;
    if Evaluate(cards).value > 21 {
      var u := s.(deck := mid, hands := s.hands[s.current := h.(cards := cards, finished := true)]);
      AdvancedEffect(u, t, decks);
    }
  }

  /**
   * A stand finishes the active hand and changes no other hand and no bet; while play continues
   * only the index changes besides; when the stand ends the round the dealer plays and the
   * balance gains exactly the settlement credit.
   */
  lemma StoodEffect(s: RoundState, t: RoundState, decks: nat)
    requires Stood(s, t, decks)
    requires forall i :: 0 <= i < |s.hands| ==> s.hands[i].bet >= 0
    ensures t.hands == s.hands[s.current := s.hands[s.current].(finished := true)] && t.bet == s.bet
    ensures t.active && s.active ==> t == s.(hands := t.hands, current := t.current)
    ensures s.active && !t.active ==>
      DealerTurn(s.dealer, t.dealer) && t.balance == s.balance + TotalCredit(t.hands, t.dealer)
  {
    AdvancedEffect(s.(hands := s.hands[s.current := s.hands[s.current].(finished := true)]), t, decks);
  }

  /**
   * A double turns the active two-card hand into a finished, doubled hand of three cards with
   * twice the bet; the other hands stay; while play continues the balance plus the total
   * stake is what it was; and when the double ends the round (as it always does on a single
   * hand) the balance is the old balance, less the extra stake, plus the settlement credit.
   */
  lemma DoubledEffect(s: RoundState, t: RoundState, decks: nat)
    requires Doubled(s, t, decks)
    requires forall i :: 0 <= i < |s.hands| ==> s.hands[i].bet >= 0
    ensures |t.hands| == |s.hands| && t.bet == s.bet
    ensures var h := s.hands[s.current]; var g := t.hands[s.current];
      && |g.cards| == 3 && g.cards[..2] == h.cards
      && g.bet == 2 * h.bet && g.doubled && g.finished
    ensures forall i :: 0 <= i < |s.hands| && i != s.current ==> t.hands[i] == s.hands[i]
    ensures t.active && s.active ==> t.balance + Stake(t.hands) as real == s.balance + Stake(s.hands) as real
    ensures t.active && s.active ==> t == s.(balance := t.balance, deck := t.deck, hands := t.hands, current := t.current)
    ensures s.active && !t.active ==>
      t.balance == s.balance - s.hands[s.current].bet as real + TotalCredit(t.hands, t.dealer)
  {
    var h := s.hands[s.current];
    var c, mid :| Drawn(s.deck, mid, c, decks) &&
      Advanced(s.(balance := s.balance - h.bet as real, deck := mid,
                  hands := s.hands[s.current := h.(cards := h.cards + [c], bet := 2 * h.bet, finished := true, doubled := true)]), t, decks);
    var g := h.(cards := h.cards + [c], bet := 2 * h.bet, finished := true, doubled := true);
    var u := s.(balance := s.balance - h.bet as real, deck := mid, hands := s.hands[s.current := g]);
    assert g.cards[..2] == h.cards;
    AdvancedEffect(u, t, decks);
    StakeUpdate(s.hands, s.current, g);
  }

  /**
   * A split leaves two hands [c0, x] and [c1, y] with the original bet, keeps the active index,
   * the dealer and the round state, and the balance plus the total stake is what it was.
   */
  lemma SplitEffect(s: RoundState, t: RoundState, decks: nat)
    requires SplitDone(s, t, decks)
    ensures var h := s.hands[0];
      && |t.hands| == 2 && |t.hands[0].cards| == 2 && |t.hands[1].cards| == 2
      && t.hands[0].cards[0] == h.cards[0] && t.hands[1].cards[0] == h.cards[1]
      && t.hands[0].bet == h.bet && t.hands[1].bet == h.bet
      && !t.hands[1].finished && !t.hands[1].doubled
    ensures t.current == s.current && t.active == s.active && t.dealer == s.dealer && t.bet == s.bet
    ensures t.balance + Stake(t.hands) as real == s.balance + Stake(s.hands) as real
    ensures s.balance >= 0.0 ==> t.balance >= 0.0
  {
    var h := s.hands[0];
    var c0, c1, mid :| Drawn(s.deck, mid, c0, decks) && Drawn(mid, t.deck, c1, decks) &&
      t == s.(balance := s.balance - h.bet as real, deck := t.deck,
              hands := [h.(cards := [h.cards[0], c0]), Hand([h.cards[1], c1], h.bet, false, false)]);
    assert t.hands[..1] == [t.hands[0]] && [t.hands[0]][..0] == [] && s.hands[..0] == [];
  }

  /**
   * A deal deducts the bet from a balance that covers it, so the balance stays non-negative;
   * while play continues the balance plus the stake of the single hand is the old balance.
   */
  lemma DealtEffect(s: RoundState, t: RoundState, amount: int, decks: nat)
    requires Dealt(s, t, amount, decks) && amount >= 1 && s.balance >= amount as real
    ensures t.balance >= 0.0
    ensures t.active ==> t.balance + Stake(t.hands) as real == s.balance
    ensures t.active <==> !IsBlackjack(t.hands[0].cards) && !IsBlackjack(t.dealer)
    ensures !t.active ==> t.balance >= s.balance - amount as real
  {
    assert t.hands[..0] == [];
    ImmediateCreditCases(amount, IsBlackjack(t.hands[0].cards), IsBlackjack(t.dealer));
  }

  /** A dealer hand already worth 17 or more draws nothing. */
  lemma DealerStandsAtSeventeen(before: seq<Card>, after: seq<Card>)
    requires DealerTurn(before, after) && Evaluate(before).value >= 17
    ensures after == before
  {
  }

  /** The dealer stands on soft 17: holding ace and six, the dealer turn draws no card. */
  lemma DealerStandsOnSoftSeventeen(after: seq<Card>)
    requires DealerTurn([Card(Spades, Ace), Card(Hearts, Six)], after)
    ensures after == [Card(Spades, Ace), Card(Hearts, Six)]
  {
    AceSixIsSoftSeventeen();
    DealerStandsAtSeventeen([Card(Spades, Ace), Card(Hearts, Six)], after);
  }

  /**
   * The dealer draws only below 17 and every card adds at least 1 to the hard total, which
   * bounds the value from below; so a dealer hand that drew ends with at most 17 cards.
   */
  lemma DealerHandBounded(before: seq<Card>, after: seq<Card>)
    requires DealerTurn(before, after) && |before| < |after|
    ensures |after| <= 17
  {
    var k := |after| - 1;
    assert Evaluate(after[..k]).value < 17;
    ValueBounds(after[..k]);
    HardTotalAtLeastCount(after[..k]);
  }

  /** The round's ordering invariant: during a round every hand before the active one is finished. */
  ghost predicate PriorFinished(s: RoundState)
  {
    s.active ==> forall k :: 0 <= k < s.current && k < |s.hands| ==> s.hands[k].finished
  }

  /**
   * Moving on from a finished active hand, with every hand before it finished, keeps the
   * ordering invariant and only moves the index upward; the fallback scan never applies: when
   * no unfinished hand follows the active one, the dealer plays.
   */
  lemma AdvancedKeepsPriorFinished(s: RoundState, t: RoundState, decks: nat)
    requires Advanced(s, t, decks) && s.current < |s.hands|
    requires forall k :: 0 <= k <= s.current ==> s.hands[k].finished
    ensures PriorFinished(t) && (t.active ==> t.current > s.current)
    ensures FindUnfinished(s.hands, s.current + 1, 0) == -1 ==> DealerPlayed(s, t, decks)
  {
    FallbackUnreachable(s.hands, s.current);
  }

  /** A stand keeps the ordering invariant. */
  lemma StoodKeepsPriorFinished(s: RoundState, t: RoundState, decks: nat)
    requires Stood(s, t, decks) && s.active && PriorFinished(s)
    ensures PriorFinished(t)
  {
    var u := s.(hands := s.hands[s.current := s.hands[s.current].(finished := true)]);
    AdvancedKeepsPriorFinished(u, t, decks);
  }

  /** A hit keeps the ordering invariant. */
  lemma HitKeepsPriorFinished(s: RoundState, t: RoundState, decks: nat)
    requires Hit(s, t, decks) && s.active && PriorFinished(s)
    ensures PriorFinished(t)
  {
    var c, mid :| Drawn(s.deck, mid, c, decks) && HitWith(s, t, c, mid, decks);
    var h := s.hands[s.current];
    var cards := h.cards + [c];
    if Evaluate(cards).value > 21 {
      var u := s.(deck := mid, hands := s.hands[s.current := h.(cards := cards, finished := true)]);
      AdvancedKeepsPriorFinished(u, t, decks);
    }
  }

  /** A double keeps the ordering invariant. */
  lemma DoubledKeepsPriorFinished(s: RoundState, t: RoundState, decks: nat)
    requires Doubled(s, t, decks) && s.active && PriorFinished(s)
    ensures PriorFinished(t)
  {
    var h := s.hands[s.current];
    var c, mid :| Drawn(s.deck, mid, c, decks) &&
      Advanced(s.(balance := s.balance - h.bet as real, deck := mid,
                  hands := s.hands[s.current := h.(cards := h.cards + [c], bet := 2 * h.bet, finished := true, doubled := true)]), t, decks);
    var g := h.(cards := h.cards + [c], bet := 2 * h.bet, finished := true, doubled := true);
    AdvancedKeepsPriorFinished(s.(balance := s.balance - h.bet as real, deck := mid, hands := s.hands[s.current := g]), t, decks);
  }

  /** A split of the single hand keeps the ordering invariant: the active hand stays the first. */
  lemma SplitKeepsPriorFinished(s: RoundState, t: RoundState, decks: nat)
    requires SplitDone(s, t, decks) && s.current < |s.hands|
    ensures t.current == 0 && PriorFinished(t)
  {
    SplitEffect(s, t, decks);
  }

  /** A deal establishes the ordering invariant: the active hand is the first. */
  lemma DealtEstablishesPriorFinished(s: RoundState, t: RoundState, amount: int, decks: nat)
    requires Dealt(s, t, amount, decks)
    ensures t.current == 0 && PriorFinished(t)
  {
  }

  /** Replacing one hand changes the total stake by the change of that hand's bet. */
  lemma {:induction false} StakeUpdate(hands: seq<Hand>, k: nat, h: Hand)
    requires k < |hands|
    ensures Stake(hands[k := h]) == Stake(hands) - hands[k].bet + h.bet
    decreases |hands|
  {
    var last := |hands| - 1;
    var hs := hands[k := h];
    if k < last {
      assert hs[..last] == hands[..last][k := h];
      StakeUpdate(hands[..last], k, h);
    } else {
      assert hs[..last] == hands[..last];
    }
  }
}
