/** The hand-scoring rule of internal/game/blackjack.go: every card counts its
    value (Ace 11), then Aces are turned from 11 into 1, one at a time, while
    the total is over 21. */
module Scoring {
  import opened Cards

  /** Sum of card values, every Ace counted as 11. */
  function RawTotal(hand: seq<Card>): (t: nat)
    ensures t <= 11 * |hand|
  {
    if hand == [] then 0 else RawTotal(hand[..|hand| - 1]) + GetValue(hand[|hand| - 1])
  }

  /** Number of Aces in the hand. */
  function AceCount(hand: seq<Card>): (a: nat)
    ensures a <= |hand|
  {
    if hand == [] then 0 else AceCount(hand[..|hand| - 1]) + (if hand[|hand| - 1].rank == Ace then 1 else 0)
  }

  /** How many Aces must drop from 11 to 1: the fewest that bring `total` to 21
      or below, capped by the number of Aces available. */
  function Conversions(total: int, aces: nat): (k: nat)
    ensures k <= aces
  {
    if total <= 21 then 0
    else if (total - 12) / 10 < aces then (total - 12) / 10
    else aces
  }

  /** The score of a hand, in closed form. */
  function HandScore(hand: seq<Card>): (s: int)
    ensures s <= RawTotal(hand) && (RawTotal(hand) - s) % 10 == 0
  {
    RawTotal(hand) - 10 * Conversions(RawTotal(hand), AceCount(hand))
  }

  /** Every Ace contributes 11 to the raw total, so the total is at least 11 per Ace
      and no hand has more Aces than cards. */
  lemma {:induction false} AcesBounded(hand: seq<Card>)
    ensures AceCount(hand) <= |hand|
    ensures 11 * AceCount(hand) <= RawTotal(hand)
  {
    if hand != [] {
      AcesBounded(hand[..|hand| - 1]);
      ValueByRank(hand[|hand| - 1]);
    }
  }

  /** The score is the best total the hand can make: it is the raw total with
      some number j of Aces counted as 1 (0 <= j <= Aces); among those totals it
      is the largest that does not exceed 21, and when every one of them exceeds
      21 it is the smallest (all Aces counted as 1). It is never negative. */
  lemma HandScoreIsBestTotal(hand: seq<Card>)
    ensures var t, a, s := RawTotal(hand), AceCount(hand), HandScore(hand);
      && (t - s) % 10 == 0 && 0 <= (t - s) / 10 <= a
      && (forall j :: 0 <= j <= a && t - 10 * j <= 21 ==> t - 10 * j <= s)
      && (s > 21 ==> s == t - 10 * a)
      && s >= 0
  {
    AcesBounded(hand);
  }

  /** A hand of at most 21 raw points is never adjusted. */
  lemma NoAdjustmentUnderTwentyTwo(hand: seq<Card>)
    requires RawTotal(hand) <= 21
    ensures HandScore(hand) == RawTotal(hand)
  {
  }

  /** A hand that busts even with every Ace counted as 1 scores above 21. */
  lemma HardBust(hand: seq<Card>)
    requires RawTotal(hand) - 10 * AceCount(hand) > 21
    ensures HandScore(hand) > 21
  {
  }

  /** Worked examples: the empty hand, a natural, two Aces, two Aces and a nine,
      and five-six-Queen. */
  lemma ScoreExamples(s: Suit)
    ensures HandScore([]) == 0
    ensures HandScore([Card(s, Ace, 0, true), Card(s, King, 0, true)]) == 21
    ensures HandScore([Card(s, Ace, 0, true), Card(s, Ace, 0, true)]) == 12
    ensures HandScore([Card(s, Ace, 0, true), Card(s, Ace, 0, true), Card(s, Nine, 0, true)]) == 21
    ensures HandScore([Card(s, Five, 0, true), Card(s, Six, 0, true), Card(s, Queen, 0, true)]) == 21
  {
    var a, k, n := Card(s, Ace, 0, true), Card(s, King, 0, true), Card(s, Nine, 0, true);
    assert [a, k][..1] == [a];
    assert RawTotal([a]) == 11 && GetValue(k) == 10;
    assert RawTotal([a, k]) == 21;
    assert [a, a][..1] == [a];
    assert [a, a, n][..2] == [a, a];
    var f, x, q := Card(s, Five, 0, true), Card(s, Six, 0, true), Card(s, Queen, 0, true);
    assert [f, x, q][..2] == [f, x];
    assert [f, x][..1] == [f];
    assert RawTotal([f, x]) == 11;
    assert RawTotal([f, x, q]) == 21;
  }
}
