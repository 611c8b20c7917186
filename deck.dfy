/** The 52-card deck: construction, Fisher-Yates shuffle and drawing from the
    front (internal/game/deck.go). */
module Decks {
  import opened Cards

  /** The fresh deck in construction order: suit-major (Hearts, Diamonds,
      Clubs, Spades), ranks Ace..King within a suit, every card face up with
      stored value 0. */
  function StandardCards(): (s: seq<Card>)
    ensures |s| == 52
  {
    seq(52, k requires 0 <= k < 52 => Card(Suits[k / 13], Ranks[k % 13], 0, true))
  }

  /** Position 13 * si + ri of the fresh deck holds suit si and rank ri. */
  lemma StandardCardAt(si: nat, ri: nat)
    requires si < 4 && ri < 13
    ensures 13 * si + ri < 52
    ensures StandardCards()[13 * si + ri] == Card(Suits[si], Ranks[ri], 0, true)
  {
    var k := 13 * si + ri;
    assert k / 13 == si && k % 13 == ri;
  }

  /** No (suit, rank) pair occurs twice in the fresh deck. */
  lemma StandardCardsDistinct(i: nat, j: nat)
    requires i < j < 52
    ensures StandardCards()[i].suit != StandardCards()[j].suit
         || StandardCards()[i].rank != StandardCards()[j].rank
  {
    var s := StandardCards();
    assert i == 13 * (i / 13) + i % 13;
    assert j == 13 * (j / 13) + j % 13;
    if i / 13 == j / 13 {
      assert i % 13 != j % 13;
      assert Ranks[i % 13] != Ranks[j % 13];
    } else {
      assert Suits[i / 13] != Suits[j / 13];
    }
  }

  /** Every card of the fresh deck is a real card: a proper suit, one of the
      thirteen ranks, face up. */
  lemma StandardCardsAreReal(k: nat)
    requires k < 52
    ensures StandardCards()[k].suit in Suits && StandardCards()[k].rank in Ranks
    ensures StandardCards()[k].face && StandardCards()[k].value == 0
    ensures StandardCards()[k].rank != NoRank
  {
  }

  /** Extending a prefix of a sequence by one element. */
  lemma PrefixStep<T>(s: seq<T>, k: nat)
    requires k < |s|
    ensures s[..k + 1] == s[..k] + [s[k]]
  {
  }

  class Deck {
    /** The cards left, index 0 being the top of the deck. */
    var cards: seq<Card>

    /** NewDeck: appends every suit/rank pair in enumeration order. */
    constructor ()
      ensures cards == StandardCards()
    {
      var acc: seq<Card> := [];
      for si := 0 to 4
        invariant acc == StandardCards()[..13 * si]
      {
        for ri := 0 to 13
          invariant acc == StandardCards()[..13 * si + ri]
        {
          StandardCardAt(si, ri);
          PrefixStep(StandardCards(), 13 * si + ri);
          acc := acc + [Card(Suits[si], Ranks[ri], 0, true)];
        }
      }
      cards := acc;
    }

    /** Fisher-Yates: for i from the last index down to 1, swap position i with a
        position j chosen in [0, i]. The random source is a nondeterministic choice. */
    method Shuffle()
      modifies this
      ensures |cards| == |old(cards)|
      ensures multiset(cards) == multiset(old(cards))
    {
      var i := |cards| - 1;
      while i > 0
        invariant i < |cards| || |cards| == 0
        invariant |cards| == |old(cards)|
        invariant multiset(cards) == multiset(old(cards))
      {
        var j :| 0 <= j <= i;
        cards := cards[i := cards[j]][j := cards[i]];
        i := i - 1;
      }
    }

    /** Removes and returns the top card; on an empty deck reports failure with
        the zero card and leaves the deck as it is. */
    method DrawCard() returns (c: Card, ok: bool)
      modifies this
      ensures ok <==> old(cards) != []
      ensures ok ==> c == old(cards)[0] && cards == old(cards)[1..]
      ensures ok ==> RemainingCards() == old(RemainingCards()) - 1
      ensures !ok ==> c == ZeroCard && cards == old(cards)
    {
      if |cards| == 0 {
        return ZeroCard, false;
      }
      c := cards[0];
      cards := cards[1..];
      ok := true;
    }

    /** Number of cards left; reading it changes nothing. */
    function RemainingCards(): (n: nat)
      reads this
      ensures n == |cards|
    {
      |cards|
    }
  }
}
