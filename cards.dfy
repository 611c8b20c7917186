/** Playing cards and their blackjack value (internal/game/card.go). */
module Cards {

  /** The four suits. `NoSuit` is the empty suit string of a zero `Card{}`. */
  datatype Suit = Hearts | Diamonds | Clubs | Spades | NoSuit

  /** The thirteen ranks. `NoRank` is the empty rank string of a zero `Card{}`,
      the only rank outside the thirteen that the engine ever produces. */
  datatype Rank =
    | Ace | Two | Three | Four | Five | Six | Seven | Eight | Nine | Ten
    | Jack | Queen | King
    | NoRank

  /** A card: suit, rank, the stored (unused) `Value` field and the face-up flag. */
  datatype Card = Card(suit: Suit, rank: Rank, value: int, face: bool)

  /** The zero value `Card{}` that a failed draw hands back. */
  const ZeroCard := Card(NoSuit, NoRank, 0, false)

  /** Enumeration order used when a deck is built. */
  const Suits: seq<Suit> := [Hearts, Diamonds, Clubs, Spades]
  const Ranks: seq<Rank> := [Ace, Two, Three, Four, Five, Six, Seven, Eight, Nine, Ten, Jack, Queen, King]

  predicate IsTenValued(r: Rank) {
    r == Ten || r == Jack || r == Queen || r == King
  }

  predicate IsPip(r: Rank) {
    r == Two || r == Three || r == Four || r == Five || r == Six || r == Seven || r == Eight || r == Nine
  }

  /** Blackjack value of a card: Ace 11, ten-valued ranks 10, pips their number,
      anything else 0. Only the rank is consulted. */
  function GetValue(c: Card): (v: nat)
    ensures v <= 11
  {
    match c.rank
    case Ace => 11
    case Ten | Jack | Queen | King => 10
    case Two => 2
    case Three => 3
    case Four => 4
    case Five => 5
    case Six => 6
    case Seven => 7
    case Eight => 8
    case Nine => 9
    case NoRank => 0
  }

  /** Each value band belongs to exactly one group of ranks. */
  lemma ValueByRank(c: Card)
    ensures GetValue(c) == 11 <==> c.rank == Ace
    ensures GetValue(c) == 10 <==> IsTenValued(c.rank)
    ensures 2 <= GetValue(c) <= 9 <==> IsPip(c.rank)
    ensures GetValue(c) == 0 <==> c.rank == NoRank
  {
  }

  /** The pip ranks, in enumeration order Two..Nine, are worth their position plus one. */
  lemma PipValue(k: nat, c: Card)
    requires 1 <= k <= 8 && c.rank == Ranks[k]
    ensures GetValue(c) == k + 1
  {
  }

  /** The value depends on the rank alone, never on suit, face flag or stored value. */
  lemma ValueIgnoresAllButRank(c: Card, d: Card)
    requires c.rank == d.rank
    ensures GetValue(c) == GetValue(d)
  {
  }
}
