/** Playing cards and the freshly built shoe of `decks` 52-card decks. */
module Cards {

  datatype Suit = Spades | Hearts | Diamonds | Clubs

  datatype Rank = Ace | Two | Three | Four | Five | Six | Seven | Eight | Nine | Ten | Jack | Queen | King

  /** A card has no identity beyond its suit and rank; copies from different decks are equal. */
  datatype Card = Card(suit: Suit, rank: Rank)

  /** The suit table, in the order the deck is built. */
  const Suits: seq<Suit> := [Spades, Hearts, Diamonds, Clubs]

  /** The rank table, in the order the deck is built. */
  const Ranks: seq<Rank> := [Ace, Two, Three, Four, Five, Six, Seven, Eight, Nine, Ten, Jack, Queen, King]

  /** The 13 cards of one suit, in rank-table order. */
  function Row(s: Suit): (r: seq<Card>)
    ensures |r| == 13
  {
    seq(13, i requires 0 <= i < 13 => Card(s, Ranks[i]))
  }

  /** The rows of the given suits, one after the other. */
  function Rows(ss: seq<Suit>): (r: seq<Card>)
    ensures |r| == 13 * |ss|
  {
    if ss == [] then [] else Rows(ss[..|ss| - 1]) + Row(ss[|ss| - 1])
  }

  /** One full deck: suits outer, ranks inner. */
  function Deck(): seq<Card>
  {
    Rows(Suits)
  }

  /** `decks` full decks concatenated. */
  function FullDeck(decks: nat): (r: seq<Card>)
    ensures |r| == 52 * decks
  {
    if decks == 0 then [] else FullDeck(decks - 1) + Deck()
  }

  /** `d` holds 52 * decks cards, every (suit, rank) pair exactly `decks` times. */
  ghost predicate IsFullShoe(d: seq<Card>, decks: nat)
  {
    |d| == 52 * decks && forall c :: multiset(d)[c] == decks
  }

  /** Builds the shoe by pushing, for every deck, every suit and every rank. */
  method CreateDeck(decks: nat) returns (d: seq<Card>)
    ensures d == FullDeck(decks)
  {
    d := [];
    for k := 0 to decks
      invariant d == FullDeck(k)
    {
      for si := 0 to |Suits|
        invariant d == FullDeck(k) + Rows(Suits[..si])
      {
        for ri := 0 to |Ranks|
          invariant d == FullDeck(k) + Rows(Suits[..si]) + Row(Suits[si])[..ri]
        {
          assert Row(Suits[si])[..ri + 1] == Row(Suits[si])[..ri] + [Card(Suits[si], Ranks[ri])];
          d := d + [Card(Suits[si], Ranks[ri])];
        }
        assert Row(Suits[si])[..13] == Row(Suits[si]);
        assert Suits[..si + 1][..si] == Suits[..si];
      }
      assert Suits[..4] == Suits;
    }
  }

  /** Position of a rank in the rank table. */
  function RankIndex(r: Rank): (i: nat)
    ensures i < 13 && Ranks[i] == r
  {
    match r
    case Ace => 0
    case Two => 1
    case Three => 2
    case Four => 3
    case Five => 4
    case Six => 5
    case Seven => 6
    case Eight => 7
    case Nine => 8
    case Ten => 9
    case Jack => 10
    case Queen => 11
    case King => 12
  }

  /** In a sequence without repeats every element occurs exactly once. */
  lemma {:induction false} CountOfDistinct<T>(s: seq<T>, x: T)
    requires forall i, j :: 0 <= i < j < |s| ==> s[i] != s[j]
    ensures multiset(s)[x] == if x in s then 1 else 0
  {
    if s != [] {
      assert s == [s[0]] + s[1..];
      CountOfDistinct(s[1..], x);
      if x == s[0] {
        assert x !in s[1..];
      }
    }
  }

  /** A suit's row holds each card of that suit once and no other card. */
  lemma RowCount(s: Suit, c: Card)
    ensures multiset(Row(s))[c] == if c.suit == s then 1 else 0
  {
    var row := Row(s);
    forall i, j | 0 <= i < j < |row| ensures row[i] != row[j] {
      assert row[i].rank == Ranks[i] && row[j].rank == Ranks[j];
    }
    if c.suit == s {
      assert row[RankIndex(c.rank)] == c;
    }
    CountOfDistinct(row, c);
  }

  /** The rows of a suit list hold a card as often as its suit is listed. */
  lemma {:induction false} RowsCount(ss: seq<Suit>, c: Card)
    ensures multiset(Rows(ss))[c] == multiset(ss)[c.suit]
  {
    if ss != [] {
      var last := |ss| - 1;
      assert ss == ss[..last] + [ss[last]];
      RowsCount(ss[..last], c);
      RowCount(ss[last], c);
    }
  }

  /** One deck holds every (suit, rank) pair exactly once. */
  lemma DeckCount(c: Card)
    ensures multiset(Deck())[c] == 1
  {
    RowsCount(Suits, c);
    CountOfDistinct(Suits, c.suit);
    match c.suit
    case Spades => assert Suits[0] == c.suit;
    case Hearts => assert Suits[1] == c.suit;
    case Diamonds => assert Suits[2] == c.suit;
    case Clubs => assert Suits[3] == c.suit;
  }

  /** The shoe built from `decks` decks holds every (suit, rank) pair exactly `decks` times. */
  lemma {:induction false} FullDeckCount(decks: nat, c: Card)
    ensures multiset(FullDeck(decks))[c] == decks
  {
    if decks > 0 {
      FullDeckCount(decks - 1, c);
      DeckCount(c);
    }
  }

  /** The built shoe is a full shoe. */
  lemma FullDeckIsFullShoe(decks: nat)
    ensures IsFullShoe(FullDeck(decks), decks)
  {
    forall c ensures multiset(FullDeck(decks))[c] == decks {
      FullDeckCount(decks, c);
    }
  }

  /** Any rearrangement of a full shoe is a full shoe. */
  lemma FullShoePermuted(d: seq<Card>, e: seq<Card>, decks: nat)
    requires IsFullShoe(d, decks) && multiset(e) == multiset(d)
    ensures IsFullShoe(e, decks)
  {
    assert |e| == |multiset(e)| == |multiset(d)| == |d|;
  }
}
