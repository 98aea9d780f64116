/** Playing cards: ranks, suits, colours and the text form of a card (Card.java, Suit.java). */
module Cards {
  import opened Wrappers

  /** The four suits, in the declaration order of the Suit enum. */
  datatype Suit = Clubs | Diamonds | Hearts | Spades

  /** The thirteen ranks, ACE through KING. */
  datatype Rank = Ace | Two | Three | Four | Five | Six | Seven | Eight | Nine | Ten | Jack | Queen | King

  /** A card is its rank and suit; the image path Card.java builds is a function of both and is not kept. */
  datatype Card = Card(rank: Rank, suit: Suit)

  const AllSuits: seq<Suit> := [Clubs, Diamonds, Hearts, Spades]
  const AllRanks: seq<Rank> := [Ace, Two, Three, Four, Five, Six, Seven, Eight, Nine, Ten, Jack, Queen, King]

  /** The card the deck leaves out: the Jack of Clubs, the "pouilleux". */
  const JackOfClubs: Card := Card(Jack, Clubs)

  /** The enum ordinal of a suit, which orders suits in the sorts. */
  function SuitIndex(s: Suit): (i: nat)
    ensures i < |AllSuits| && AllSuits[i] == s
  {
    match s
    case Clubs => 0
    case Diamonds => 1
    case Hearts => 2
    case Spades => 3
  }

  /** The enum ordinal of a rank. */
  function RankIndex(r: Rank): (i: nat)
    ensures i < |AllRanks| && AllRanks[i] == r
  {
    match r
    case Ace => 0
    case Two => 1
    case Three => 2
    case Four => 3
    case Five => 4
    case Six => 5
    case Seven => 6
    case Eight => 7
    case Nine => 8
    case Ten => 9
    case Jack => 10
    case Queen => 11
    case King => 12
  }

  predicate IsRed(c: Card) {
    c.suit == Hearts || c.suit == Diamonds
  }

  /** Card.sameColor: both red or both black. */
  predicate SameColor(a: Card, b: Card) {
    IsRed(a) == IsRed(b)
  }

  /** sameColor is an equivalence relation with exactly two classes, red and black. */
  lemma SameColorIsEquivalence(a: Card, b: Card, c: Card)
    ensures SameColor(a, a)
    ensures SameColor(a, b) == SameColor(b, a)
    ensures SameColor(a, b) && SameColor(b, c) ==> SameColor(a, c)
    ensures SameColor(a, b) || SameColor(b, c) || SameColor(a, c)
    ensures !SameColor(Card(a.rank, Hearts), Card(a.rank, Spades))
  {
  }

  /** A matched pair: same rank and same colour. */
  predicate Mates(a: Card, b: Card) {
    a.rank == b.rank && SameColor(a, b)
  }

  function RankName(r: Rank): string {
    match r
    case Ace => "ACE"
    case Two => "TWO"
    case Three => "THREE"
    case Four => "FOUR"
    case Five => "FIVE"
    case Six => "SIX"
    case Seven => "SEVEN"
    case Eight => "EIGHT"
    case Nine => "NINE"
    case Ten => "TEN"
    case Jack => "JACK"
    case Queen => "QUEEN"
    case King => "KING"
  }

  function SuitName(s: Suit): string {
    match s
    case Clubs => "CLUBS"
    case Diamonds => "DIAMONDS"
    case Hearts => "HEARTS"
    case Spades => "SPADES"
  }

  /** Card.toString, e.g. "ACE of SPADES". */
  function CardString(c: Card): string {
    RankName(c.rank) + " of " + SuitName(c.suit)
  }

  /** The rank named by an upper-case rank name, the inverse of RankName. */
  function RankOfName(s: string): (r: Option<Rank>)
    ensures forall k :: RankName(k) == s <==> r == Some(k)
  {
    if s == "ACE" then Some(Ace) else if s == "TWO" then Some(Two) else if s == "THREE" then Some(Three)
    else if s == "FOUR" then Some(Four) else if s == "FIVE" then Some(Five) else if s == "SIX" then Some(Six)
    else if s == "SEVEN" then Some(Seven) else if s == "EIGHT" then Some(Eight) else if s == "NINE" then Some(Nine)
    else if s == "TEN" then Some(Ten) else if s == "JACK" then Some(Jack) else if s == "QUEEN" then Some(Queen)
    else if s == "KING" then Some(King) else None
  }

  /** The suit named by an upper-case suit name, the inverse of SuitName. */
  function SuitOfName(s: string): (r: Option<Suit>)
    ensures forall k :: SuitName(k) == s <==> r == Some(k)
  {
    if s == "CLUBS" then Some(Clubs) else if s == "DIAMONDS" then Some(Diamonds)
    else if s == "HEARTS" then Some(Hearts) else if s == "SPADES" then Some(Spades) else None
  }

  /** The text of a card: the rank name, which holds no space, then " of ", then the suit name. */
  lemma CardStringShape(c: Card)
    ensures var s, n := CardString(c), |RankName(c.rank)|;
      n + 4 <= |s| && s[n] == ' ' && (forall i | 0 <= i < n :: s[i] != ' ')
      && s[..n] == RankName(c.rank) && s[n + 4..] == SuitName(c.suit)
  {
  }

  /** Different cards print differently, so the text of a card names it. */
  lemma CardStringInjective(a: Card, b: Card)
    ensures CardString(a) == CardString(b) <==> a == b
  {
    if CardString(a) == CardString(b) {
      CardStringShape(a);
      CardStringShape(b);
      assert |RankName(a.rank)| == |RankName(b.rank)|;
      assert RankOfName(RankName(a.rank)) == Some(a.rank) && RankOfName(RankName(b.rank)) == Some(b.rank);
      assert SuitOfName(SuitName(a.suit)) == Some(a.suit) && SuitOfName(SuitName(b.suit)) == Some(b.suit);
    }
  }

  /** The text of a java.util.List of cards: "[" + elements joined by ", " + "]". */
  function CardListString(cs: seq<Card>): string {
    "[" + JoinCards(cs) + "]"
  }

  function JoinCards(cs: seq<Card>): string {
    if cs == [] then ""
    else if |cs| == 1 then CardString(cs[0])
    else CardString(cs[0]) + ", " + JoinCards(cs[1..])
  }
}
