# Blackjack round engine

A Dafny model of the round engine in `js/script.js` of a browser blackjack table. It covers:

- the shoe of `deckCount` decks: building it, Fisher–Yates shuffling, and replacing it when it runs low;
- hand evaluation: card values, ace reduction, the soft flag and naturals;
- the player-action state machine: deal, hit, stand, double, split, and moving on to the next hand;
- the dealer's draw loop;
- immediate and final settlement.

Modules:

- `Cards` holds the cards, the built shoe `FullDeck(decks)` and `CreateDeck`, its push loop.
- `Shuffling` holds Fisher–Yates on an array. `Math.random` becomes a free choice of `j` in `[0, i]`. The choices are returned, so the result is exactly `Shuffled(original, choices)`.
- `Hands` holds `CardValue`, `Evaluate` (the specification of the evaluation) and `EvaluateHand` (its loop).
- `Settlement` holds the payout rules as pure functions. Money is an exact `real`.
- `Table` holds class `Round`, whose fields are the module-level state (`balance`, `bet`, `deck`, `dealer`, `playerHands`, `currentHandIndex`, `roundActive`) plus the deck count. Each action is a method on it.

Each action's effect on the whole state is a ghost predicate over two `RoundState` snapshots:

- `Dealt`, `Hit`, `Stood`, `Doubled` and `SplitDone` for the player actions;
- `Advanced` for moving on;
- `DealerPlayed` for the dealer turn.

The method ensures `Pred(old(Snapshot()), Snapshot(), deckCount)`. The `…Effect` lemmas then prove what the game promises about each predicate. They say which cards move and which flags are set. They say that, while play continues, nothing outside the hands, the shoe, the active index and (for a double or a split) the balance changes, and that the balance plus the total stake is conserved. When an action ends the round, they say the balance changes by exactly the settlement credit (less the extra stake on a double). For a deal that ends at once, the effect lemma bounds the balance from below. `Table.Dealt` itself fixes the exact amount.

Cards drawn from the shoe are described by `Drawn` (one card) and `DrawnAll` (several in order):

- A shoe holding 52 or more cards loses its last card.
- A smaller shoe is replaced by a full shoe before the pop. A full shoe has `52 * deckCount` cards, each (suit, rank) pair exactly `deckCount` times.
- `ResetDeckIfNeeded` states in addition that the replacement is a complete Fisher–Yates shuffle of `FullDeck(deckCount)`.

Notes on the code as written:

- **Split naturals.** Final settlement pays a two-card 21 at 3:2 even on a split hand. The comment at `js/script.js:415` says naturals should not count after a split, but the code tests only `h.cards.length === 2`, which `isBlackjack` already implies. The model follows the code; see `Settlement.SplitAceKingPaysThreeToTwo`.
- **Soft flag.** It asks only whether the hand holds an ace and does not bust, so A+K+5 (every ace counted as 1) is soft.
- **Refused deal.** A refused deal still stores the new bet, because `bet` is assigned before the balance test.
- **Fallback scan.** `nextHandOrDealer` falls back to the first unfinished hand at all. `Table.FallbackUnreachable` shows that this fallback finds the same hand as the first scan whenever every hand up to the active one is finished. The ordering invariant `Table.PriorFinished` (during a round every hand before the active one is finished) is established by a deal (`Table.DealtEstablishesPriorFinished`) and kept by every action (`Table.StoodKeepsPriorFinished`, `Table.HitKeepsPriorFinished`, `Table.DoubledKeepsPriorFinished`, `Table.SplitKeepsPriorFinished`). `Table.AdvancedKeepsPriorFinished` shows that under it the fallback never applies: when no unfinished hand follows the active one, the dealer plays. So the fallback is dead code. The model keeps both scans as written and proves the invariant over the state predicates, not as a class invariant of `Table.Round`.
- **Single-hand guard.** `playerSplit` does not check that only one hand exists; only the button logic does. The model takes that guard as a precondition of `PlayerSplit`.

## Model

| member | source | states |
|---|---|---|
| Cards.Row | js/script.js:53-55 | one suit contributes 13 cards |
| Cards.Rows | js/script.js:52-56 | the rows of the listed suits contribute 13 cards per suit |
| Cards.FullDeck | js/script.js:49-59 | the built shoe has exactly 52 × decks cards |
| Cards.CreateDeck | js/script.js:49-59 | the three nested push loops build exactly `FullDeck(decks)`: decks outer, suits in table order, ranks in table order |
| Cards.RowCount | js/script.js:46-47 | one suit's row holds each card of that suit exactly once and no other card |
| Cards.RowsCount | js/script.js:52-56 | the rows hold each card as often as its suit is listed |
| Cards.DeckCount | js/script.js:46-56 | one deck holds every (suit, rank) pair exactly once |
| Cards.FullDeckCount | js/script.js:49-59 | the built shoe holds every (suit, rank) pair exactly `decks` times |
| Cards.FullDeckIsFullShoe | js/script.js:49-59 | the built shoe is a full shoe: 52 × decks cards, each pair `decks` times |
| Cards.FullShoePermuted | js/script.js:61-67 | any rearrangement of a full shoe is a full shoe |
| Shuffling.Swap | js/script.js:65 | the destructuring swap exchanges the two entries and keeps all others |
| Shuffling.Shuffled | js/script.js:61-67 | replaying Fisher–Yates steps keeps the length |
| Shuffling.SwapPermutes | js/script.js:65 | a swap keeps the multiset |
| Shuffling.ShuffledPermutes | js/script.js:61-67 | any sequence of valid steps keeps the multiset |
| Shuffling.ShuffleOfPermutes | js/script.js:61-67 | a complete shuffle keeps the length and the multiset |
| Shuffling.ShuffledStep | js/script.js:63-65 | one more step with `j <= i` extends a valid choice sequence and swaps index `i` with `j` |
| Shuffling.Shuffle | js/script.js:61-67 | the in-place loop makes exactly `length - 1` steps, each with `0 <= j <= i`, and leaves the array equal to `Shuffled(old contents, choices)` |
| Shuffling.ShuffleSeq | js/script.js:61-67 | shuffling a copy yields a complete shuffle of it, with the same length and multiset |
| Hands.CardValue | js/script.js:81-86 | every card is worth 2 to 11, and 11 exactly when it is an ace |
| Hands.EvaluateHand | js/script.js:88-103 | the summing loop and the ace-reducing loop compute exactly `Evaluate(cards)` |
| Hands.RawIsHardPlusAces | js/script.js:92-95 | the aces-as-11 total is the aces-as-1 total plus 10 per ace |
| Hands.HardTotalAtLeastCount | js/script.js:81-86 | each card adds at least 1 to the hard total |
| Hands.ReduceSpec | js/script.js:97-100 | the reduction subtracts 10 at most once per ace; it stops at the first total <= 21 or when the aces run out |
| Hands.ValueBounds | js/script.js:88-103 | hard total <= value <= raw total, and value <= 21 whenever the hard total is <= 21 |
| Hands.ValueIsBest | js/script.js:97-100 | no total reachable by counting aces as 1 lies strictly between the value and 21 |
| Hands.HasAceIffAces | js/script.js:101 | "has an ace", "has a card worth 11" and "ace count > 0" coincide, so the second `some` adds nothing |
| Hands.SoftIff | js/script.js:101 | soft holds exactly when the hand has an ace and its value is <= 21 |
| Hands.BlackjackIsAceAndTen | js/script.js:105-107 | two cards form a natural exactly when one is an ace and the other is worth 10 |
| Hands.TwoAcesAndNine | js/script.js:88-103 | [A, A, 9] evaluates to a soft 21 |
| Hands.KingQueenFive | js/script.js:88-103 | [K, Q, 5] evaluates to 25, not soft |
| Hands.AceSixIsSoftSeventeen | js/script.js:88-103 | [A, 6] is a soft 17 |
| Hands.SoftFlagWithEveryAceReduced | js/script.js:101 | [A, K, 5] is worth 16 (its hard total) and is still flagged soft |
| Settlement.CreditIsOneOf | js/script.js:412-451 | a hand is credited 0, bet, 2·bet or 2.5·bet, and each amount belongs to exactly the outcomes that pay it |
| Settlement.NaturalCredit | js/script.js:416-428 | a natural is credited 2.5·bet, or its bet when the dealer also has a natural |
| Settlement.PlainCredit | js/script.js:430-450 | for a non-natural: 2·bet iff not bust and (dealer bust or higher value); bet iff equal values and no bust; 0 iff bust (even against a dealer bust) or lower value |
| Settlement.TotalCreditNonNegative | js/script.js:412-451 | final settlement never lowers the balance |
| Settlement.TotalCreditAtMost | js/script.js:412-451 | final settlement credits at most 2.5 × the total stake |
| Settlement.ImmediateCreditCases | js/script.js:268-278 | immediate settlement credits the bet for a push, 2.5·bet for a player natural, and 0 otherwise |
| Settlement.SplitAceKingPaysThreeToTwo | js/script.js:415-428 | an ace and king left on a split hand is paid 3:2 against a dealer 19 |
| Table.FindUnfinished | js/script.js:364-374 | `findIndex` returns the lowest index at or above the bound whose hand is unfinished, or -1 when every such hand is finished |
| Table.ScanPastFinished | js/script.js:364-374 | skipping finished hands up to the active one does not change what the scan finds |
| Table.FallbackUnreachable | js/script.js:362-383 | with every hand up to the active one finished, the fallback scan finds what the first scan found |
| Table.DrawnAllStep | js/script.js:76-79 | one more draw extends a sequence of draws |
| Table.DrawnFromLargeShoe | js/script.js:69-79 | while the shoe never runs low, the drawn cards are its last cards, last first, and the rest is untouched |
| Table.Round.constructor | js/script.js:36-43 | the startup state: a complete shuffle of a freshly built shoe of `decks` decks, the starting balance, bet 10, no hands, no round |
| Table.Round.ResetDeckIfNeeded | js/script.js:69-74 | a shoe of >= 52 cards is kept; a smaller one is replaced by a complete shuffle of `FullDeck(deckCount)`, with no top-up; afterwards the shoe holds >= 52 cards |
| Table.Round.DrawCard | js/script.js:76-79 | a card is always returned: the last card of the shoe, or of the full replacement shoe when fewer than 52 were left |
| Table.Round.PrepareShoe | js/script.js:176-177 | the deal shuffles the remaining shoe completely, or uses a full shoe when it was empty |
| Table.Round.SettleRoundImmediate | js/script.js:265-285 | credits exactly `ImmediateCredit(bet, playerBJ, dealerBJ)` and ends the round |
| Table.Round.StartDeal | js/script.js:165-217 | a bet above the balance is refused and changes nothing but `bet`; otherwise `Dealt`: the bet is deducted, one fresh hand, cards drawn player, player, dealer, dealer from the prepared shoe, and a natural on either side settles at once |
| Table.Round.DealInitialCards | js/script.js:188-193 | two cards onto the player hand and two to the dealer, drawn in that order from the shoe |
| Table.Round.SettleAllHands | js/script.js:407-460 | credits exactly the sum of the hands' payouts, never lowering the balance, and ends the round |
| Table.Round.DealerDraws | js/script.js:391-402 | the dealer draws only while its value is below 17, stops at 17 or more (soft 17 stands), and the cards come from the shoe in order |
| Table.Round.PlayDealer | js/script.js:388-405 | `DealerPlayed`: the dealer turn, then settlement of every hand against the final dealer cards |
| Table.Round.NextHandOrDealer | js/script.js:362-386 | `Advanced`: the first unfinished hand after the active one, else the first unfinished hand, else the dealer turn and settlement |
| Table.Round.PlayerHit | js/script.js:287-302 | `Hit`: one drawn card onto the active hand; a bust finishes it and moves on |
| Table.Round.PlayerStand | js/script.js:304-308 | `Stood`: the active hand is finished and play moves on |
| Table.Round.PlayerDouble | js/script.js:310-333 | refusals for a hand without exactly two cards or a balance below its bet change nothing; otherwise `Doubled` |
| Table.Round.PlayerSplit | js/script.js:335-360 | succeeds exactly when the button's split test holds; the refusals change nothing; otherwise `SplitDone` |
| Table.Round.NewRound | js/script.js:486-488 | clears the hands and the dealer's cards and ends the round; the balance, shoe and bet stay |
| Table.AdvancedEffect | js/script.js:362-386 | moving on keeps the hands and the bet; while play continues only the active index changes and the hand it lands on is open; the dealer turn never lowers the balance |
| Table.HitEffect | js/script.js:287-302 | a hit appends exactly one card to the active hand and finishes it exactly when its value exceeds 21; other hands and bets stay; without a bust nothing else changes; while play continues only hands, shoe and index change; a hit that ends the round leaves the balance raised by exactly the settlement credit |
| Table.StoodEffect | js/script.js:304-308 | a stand marks only the active hand finished; while play continues only the index changes besides; a stand that ends the round lets the dealer play and raises the balance by exactly the settlement credit |
| Table.DoubledEffect | js/script.js:318-331 | a double leaves the hand with 3 cards, its first two unchanged, twice the bet, doubled and finished; other hands stay; balance plus total stake is conserved and nothing but balance, shoe, hands and index changes while play continues; a double that ends the round leaves the old balance less the extra stake plus the settlement credit |
| Table.SplitEffect | js/script.js:349-355 | a split turns [c0, c1] into [c0, x] and [c1, y], both with the original bet; the active index stays; balance plus total stake is conserved; the balance stays non-negative |
| Table.DealtEffect | js/script.js:170-216 | a deal keeps the balance non-negative and, while play continues, balance plus the stake equals the old balance; play continues exactly when neither side holds a natural; a deal that ends at once never leaves the balance below the old balance minus the bet |
| Table.DealerStandsAtSeventeen | js/script.js:395-401 | a dealer hand worth 17 or more draws nothing |
| Table.DealerStandsOnSoftSeventeen | js/script.js:392-401 | holding ace and six, the dealer draws nothing |
| Table.DealerHandBounded | js/script.js:395-401 | a dealer hand that drew ends with at most 17 cards, since it draws only below 17 and each card adds at least 1 |
| Table.AdvancedKeepsPriorFinished | js/script.js:362-386 | moving on from a finished hand, with every earlier hand finished, keeps every hand before the new active one finished and moves the index upward; if no unfinished hand follows, the dealer plays (the fallback scan never applies) |
| Table.StoodKeepsPriorFinished | js/script.js:304-308 | a stand keeps every hand before the active one finished |
| Table.HitKeepsPriorFinished | js/script.js:287-302 | a hit keeps every hand before the active one finished |
| Table.DoubledKeepsPriorFinished | js/script.js:318-331 | a double keeps every hand before the active one finished |
| Table.SplitKeepsPriorFinished | js/script.js:349-355 | after a split the first hand is active, so no earlier hand is open |
| Table.DealtEstablishesPriorFinished | js/script.js:170-216 | after a deal the first hand is active, so no earlier hand is open |
| Table.StakeUpdate | js/script.js:318-320 | replacing one hand changes the total stake by the change of that hand's bet |

## Left out

- The DOM, rendering, the dealer's face-down hole card, result messages and `flashMessage`: presentation, not state.
- Balance formatting with `toFixed`: string formatting.
- Enabling and disabling buttons. These are taken as preconditions of the actions they guard:
  - `roundActive` for hit, stand, double and split;
  - `!roundActive` for the deal;
  - a single hand for the split.
- `setTimeout` pacing of the dealer turn and of the immediate settlement: both run to completion synchronously.
- Event wiring, chip buttons and bet-input sanitising. The deal takes an already normalised integer bet of at least 1.
- The uniform distribution of `Math.random`: only which swap indices may be chosen is modelled.
- `deckCount` is a constructor parameter (6 in the source). The starting balance is a parameter too (1000 in the source).
- Hand objects are values in the `playerHands` sequence. The source mutates them in place, but no hand object is ever shared, so no aliasing is lost.
- `HasAce` and `HasEleven` model the two `some` scans as existential predicates rather than loops.
- Table.Round.DrawCard: the shoe replacement is stated by its counts (52 × deckCount cards, each pair deckCount times). The exact shuffle of the built shoe is stated on `ResetDeckIfNeeded` only, which keeps that term out of every action's proof.
- Table.Round.PrepareShoe: a freshly built shoe used when the shoe is empty is stated by its counts, not as a shuffle of `FullDeck(deckCount)`, for the same reason.
- Table.Round.PlayerHit: the early return for a missing or finished hand is not modelled. The round invariant guarantees the active hand exists and is open while the round is active.
