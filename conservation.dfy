/** Card conservation: for every card c, the number of copies of c on the table
    (in the deck, in the dealer's hand and in the seats' hands) is the same
    before and after each engine move that takes cards from the deck. The face
    flag is ignored, since dealing and the dealer's turn flip it. */
module Conservation {
  import opened Cards
  import opened Scoring
  import opened Rules

  /** The same card, face up or face down. */
  predicate Same(a: Card, b: Card)
  {
    a.suit == b.suit && a.rank == b.rank && a.value == b.value
  }

  /** Copies of c in a run of cards. */
  function Count(s: seq<Card>, c: Card): nat
  {
    if s == [] then 0 else Count(s[..|s| - 1], c) + (if Same(s[|s| - 1], c) then 1 else 0)
  }

  /** Copies of c in the seats' hands. */
  function SeatCount(ps: seq<Player>, c: Card): nat
  {
    if ps == [] then 0 else SeatCount(ps[..|ps| - 1], c) + Count(ps[|ps| - 1].hand, c)
  }

  /** Copies of c on the table: the deck, the dealer's hand and the seats' hands. */
  function TableCount(r: Round, c: Card): nat
  {
    Count(r.deck, c) + Count(r.dealer.hand, c) + SeatCount(r.players, c)
  }

  lemma {:induction false} CountConcat(a: seq<Card>, b: seq<Card>, c: Card)
    ensures Count(a + b, c) == Count(a, c) + Count(b, c)
  {
    if b == [] {
      assert a + b == a;
    } else {
      assert (a + b)[..|a + b| - 1] == a + b[..|b| - 1];
      CountConcat(a, b[..|b| - 1], c);
    }
  }

  /** Turning cards face up does not change which cards they are. */
  lemma {:induction false} CountFaceUp(a: seq<Card>, c: Card)
    ensures Count(FaceUpAll(a), c) == Count(a, c)
  {
    if a != [] {
      assert FaceUpAll(a)[..|a| - 1] == FaceUpAll(a[..|a| - 1]);
      CountFaceUp(a[..|a| - 1], c);
    }
  }

  /** Two cards added to a run, with any face flags, add their own copies. */
  lemma CountPlusTwo(h: seq<Card>, c1: Card, c2: Card, f1: bool, f2: bool, c: Card)
    ensures Count(h + [c1.(face := f1), c2.(face := f2)], c) == Count(h, c) + Count([c1, c2], c)
  {
    CountConcat(h, [c1.(face := f1), c2.(face := f2)], c);
    assert [c1.(face := f1), c2.(face := f2)][..1] == [c1.(face := f1)];
    assert [c1, c2][..1] == [c1];
  }

  /** Seats holding the same hands hold the same cards. */
  lemma {:induction false} SeatCountSameHands(ps: seq<Player>, qs: seq<Player>, c: Card)
    requires |ps| == |qs| && forall i :: 0 <= i < |ps| ==> qs[i].hand == ps[i].hand
    ensures SeatCount(qs, c) == SeatCount(ps, c)
  {
    if ps != [] {
      SeatCountSameHands(ps[..|ps| - 1], qs[..|qs| - 1], c);
    }
  }

  /** Replacing one seat swaps its hand's copies for the new seat's. */
  lemma {:induction false} SeatCountUpdate(ps: seq<Player>, k: nat, q: Player, c: Card)
    requires k < |ps|
    ensures SeatCount(ps[k := q], c) + Count(ps[k].hand, c) == SeatCount(ps, c) + Count(q.hand, c)
  {
    var n := |ps|;
    if k == n - 1 {
      assert ps[k := q][..n - 1] == ps[..n - 1];
    } else {
      assert ps[k := q][..n - 1] == ps[..n - 1][k := q];
      assert ps[..n - 1][k] == ps[k];
      SeatCountUpdate(ps[..n - 1], k, q, c);
    }
  }

  /** Removing a seat takes its hand's copies off the table. */
  lemma {:induction false} SeatCountCut(ps: seq<Player>, k: nat, c: Card)
    requires k < |ps|
    ensures SeatCount(ps[..k] + ps[k + 1..], c) + Count(ps[k].hand, c) == SeatCount(ps, c)
  {
    var n := |ps|;
    if k == n - 1 {
      assert ps[..k] + ps[k + 1..] == ps[..n - 1];
    } else {
      var qs := ps[..k] + ps[k + 1..];
      SeatCountCut(ps[..n - 1], k, c);
      assert ps[..n - 1][..k] + ps[..n - 1][k + 1..] == qs[..|qs| - 1];
      assert ps[..n - 1][k] == ps[k];
    }
  }

  /** Seats whose hands each gained their two draws from the top of the deck,
      seat j taking draws 2j and 2j + 1, hold the old hands' copies and those of
      the top 2k cards. */
  lemma {:induction false} SeatCountDealt(qs: seq<Player>, ps: seq<Player>, deck: seq<Card>, k: nat, c: Card)
    requires |qs| == k <= |ps| && 2 * k <= |deck|
    requires forall j :: 0 <= j < k ==>
      qs[j].hand == ps[j].hand + [deck[2 * j].(face := true), deck[2 * j + 1].(face := true)]
    ensures SeatCount(qs, c) == SeatCount(ps[..k], c) + Count(deck[..2 * k], c)
  {
    if k > 0 {
      SeatCountDealt(qs[..k - 1], ps, deck, k - 1, c);
      CountPlusTwo(ps[k - 1].hand, deck[2 * k - 2], deck[2 * k - 1], true, true, c);
      SeatCountTake(ps, k, c);
      CountTakeTwo(deck, 2 * k, c);
    }
  }

  lemma SeatCountTake(ps: seq<Player>, k: nat, c: Card)
    requires 0 < k <= |ps|
    ensures SeatCount(ps[..k], c) == SeatCount(ps[..k - 1], c) + Count(ps[k - 1].hand, c)
  {
    assert ps[..k][..k - 1] == ps[..k - 1];
  }

  lemma CountTakeTwo(deck: seq<Card>, n: nat, c: Card)
    requires 2 <= n <= |deck|
    ensures Count(deck[..n], c) == Count(deck[..n - 2], c) + Count([deck[n - 2], deck[n - 1]], c)
  {
    assert deck[..n] == deck[..n - 2] + [deck[n - 2], deck[n - 1]];
    CountConcat(deck[..n - 2], [deck[n - 2], deck[n - 1]], c);
  }

  /** A successful Start with enough cards for everybody keeps every card on the
      table: the 2n + 2 cards dealt leave the deck and land in the hands. */
  lemma StartConservesCards(r: Round, c: Card)
    requires CanStart(r) && |r.deck| >= 2 * |r.players| + 2
    ensures TableCount(Start(r).0, c) == TableCount(r, c)
  {
    StartSeatsCount(r, c);
    StartDealerCount(r, c);
    DealtTable(r, Start(r).0, c);
  }

  /** The bookkeeping of a deal: the seats took the top 2n cards, the dealer the
      next two, and the deck kept the rest. */
  lemma DealtTable(r: Round, r': Round, c: Card)
    requires |r.deck| >= 2 * |r.players| + 2
    requires SeatCount(r'.players, c) == SeatCount(r.players, c) + Count(r.deck[..2 * |r.players|], c)
    requires Count(r'.dealer.hand, c) == Count(r.dealer.hand, c)
      + Count([r.deck[2 * |r.players|], r.deck[2 * |r.players| + 1]], c)
    requires Count(r'.deck, c) == Count(r.deck[2 * |r.players| + 2..], c)
    ensures TableCount(r', c) == TableCount(r, c)
  {
    CountSplit(r.deck, 2 * |r.players|, c);
  }

  /** The seats of a successful Start hold their old cards and the top 2n. */
  lemma StartSeatsCount(r: Round, c: Card)
    requires CanStart(r) && |r.deck| >= 2 * |r.players| + 2
    ensures SeatCount(Start(r).0.players, c) == SeatCount(r.players, c) + Count(r.deck[..2 * |r.players|], c)
  {
    var n := |r.players|;
    var qs := Start(r).0.players;
    forall i | 0 <= i < n
      ensures qs[i].hand == r.players[i].hand + [r.deck[2 * i].(face := true), r.deck[2 * i + 1].(face := true)]
    {
      StartDealsSeat(r, i);
      StartWithFullDeck(r, i);
    }
    SeatCountDealt(qs, r.players, r.deck, n, c);
    assert r.players[..n] == r.players;
  }

  /** The dealer of a successful Start gains draws 2n and 2n + 1, which leave
      the deck. */
  lemma StartDealerCount(r: Round, c: Card)
    requires CanStart(r) && |r.deck| >= 2 * |r.players| + 2
    ensures var n, r' := |r.players|, Start(r).0;
      && Count(r'.dealer.hand, c) == Count(r.dealer.hand, c) + Count([r.deck[2 * n], r.deck[2 * n + 1]], c)
      && Count(r'.deck, c) == Count(r.deck[2 * n + 2..], c)
  {
    var n := |r.players|;
    StartDealsDealer(r);
    StartWithFullDeck(r, 0);
    CountPlusTwo(r.dealer.hand, r.deck[2 * n], r.deck[2 * n + 1], true, false, c);
    assert Min(2 * n + 2, |r.deck|) == 2 * n + 2;
    assert Start(r).0.deck == r.deck[2 * n + 2..];
  }

  /** A deck cut after m cards and again after two more. */
  lemma CountSplit(deck: seq<Card>, m: nat, c: Card)
    requires m + 2 <= |deck|
    ensures Count(deck, c) == Count(deck[..m], c) + Count([deck[m], deck[m + 1]], c) + Count(deck[m + 2..], c)
  {
    assert deck == deck[..m] + ([deck[m], deck[m + 1]] + deck[m + 2..]);
    CountConcat(deck[..m], [deck[m], deck[m + 1]] + deck[m + 2..], c);
    CountConcat([deck[m], deck[m + 1]], deck[m + 2..], c);
  }

  /** The dealer's turn moves the cards it draws from the deck into the dealer's
      hand, and settlement leaves every seat's hand alone. */
  lemma DealerTurnConservesCards(r: Round, c: Card)
    ensures TableCount(DealerTurn(r), c) == TableCount(r, c)
  {
    var r' := DealerTurn(r);
    var k := DealerDrawCount(r.dealer.hand, r.deck, c);
    assert r'.dealer.hand == DealerDraw(FaceUpAll(r.dealer.hand), r.deck).0;
    assert r'.deck == DealerDraw(FaceUpAll(r.dealer.hand), r.deck).1;
    SeatCountSameHands(r.players, r'.players, c);
    DrewFromTop(r, r', k, c);
  }

  /** The dealer's draw moves the top k cards of the deck into the hand, which
      is first turned face up; returns k. */
  lemma DealerDrawCount(hand: seq<Card>, deck: seq<Card>, c: Card) returns (k: nat)
    ensures var hd := DealerDraw(FaceUpAll(hand), deck);
      && k <= |deck|
      && Count(hd.0, c) == Count(hand, c) + Count(deck[..k], c)
      && Count(hd.1, c) == Count(deck[k..], c)
  {
    var up := FaceUpAll(hand);
    DealerDrawTakesTopRun(up, deck);
    var hd := DealerDraw(up, deck);
    k := |deck| - |hd.1|;
    CountConcat(up, FaceUpAll(deck[..k]), c);
    CountFaceUp(hand, c);
    CountFaceUp(deck[..k], c);
  }

  /** The bookkeeping of a draw: the dealer took the top k cards, the deck kept
      the rest and the seats kept their cards. */
  lemma DrewFromTop(r: Round, r': Round, k: nat, c: Card)
    requires k <= |r.deck|
    requires Count(r'.dealer.hand, c) == Count(r.dealer.hand, c) + Count(r.deck[..k], c)
    requires Count(r'.deck, c) == Count(r.deck[k..], c)
    requires SeatCount(r'.players, c) == SeatCount(r.players, c)
    ensures TableCount(r', c) == TableCount(r, c)
  {
    CountCut(r.deck, k, c);
  }

  /** A deck cut after k cards. */
  lemma CountCut(deck: seq<Card>, k: nat, c: Card)
    requires k <= |deck|
    ensures Count(deck, c) == Count(deck[..k], c) + Count(deck[k..], c)
  {
    assert deck == deck[..k] + deck[k..];
    CountConcat(deck[..k], deck[k..], c);
  }

  /** Handing the turn on keeps every card, whether a seat takes the turn or the
      dealer plays. */
  lemma NextPlayerConservesCards(r: Round, c: Card)
    requires |r.players| > 0
    ensures TableCount(NextPlayer(r), c) == TableCount(r, c)
  {
    if SomeonePlaying(r.players) {
      NextPlayerPassesTurn(r);
      NextPlayerKeepsHands(r);
      SeatCountSameHands(r.players, NextPlayer(r).players, c);
    } else {
      NextPlayerEndsRound(r);
      DealerTurnConservesCards(r, c);
    }
  }

  /** A Hit moves the top card of the deck into the seat's hand, busting or not;
      a refused Hit changes nothing. */
  lemma HitConservesCards(r: Round, id: string, c: Card)
    ensures TableCount(Hit(r, id).round, c) == TableCount(r, c)
  {
    var k := FindSeat(r.players, id, true);
    if r.status == InProgress && k >= 0 && r.deck != [] {
      var top := r.deck[0];
      var p := r.players[k];
      var h := p.hand + [top.(face := true)];
      var s := HandScore(h);
      var q := if s > 21 then p.(hand := h, score := s, status := PlayerBusted, isActive := false)
               else p.(hand := h, score := s);
      var r1 := r.(players := r.players[k := q], deck := r.deck[1..]);
      SeatCountUpdate(r.players, k, q, c);
      CountConcat(p.hand, [top.(face := true)], c);
      assert r.deck == [top] + r1.deck;
      CountConcat([top], r1.deck, c);
      assert TableCount(r1, c) == TableCount(r, c);
      if s > 21 {
        assert Hit(r, id).round == NextPlayer(r1);
        NextPlayerConservesCards(r1, c);
      } else {
        assert Hit(r, id).round == r1;
      }
    }
  }

  /** Standing moves no card. */
  lemma StandConservesCards(r: Round, id: string, c: Card)
    ensures TableCount(Stand(r, id).0, c) == TableCount(r, c)
  {
    var k := FindSeat(r.players, id, true);
    if r.status == InProgress && k >= 0 {
      var r1 := r.(players := r.players[k := r.players[k].(status := PlayerStood, isActive := false)]);
      SeatCountSameHands(r.players, r1.players, c);
      NextPlayerConservesCards(r1, c);
    }
  }

  /** Seating a player moves no card; a new seat holds none. */
  lemma JoinConservesCards(ps: seq<Player>, status: GameStatus, id: string, name: string, balance: int, c: Card)
    ensures SeatCount(Join(ps, status, id, name, balance).players, c) == SeatCount(ps, c)
  {
    var k := FindSeat(ps, id, false);
    if k >= 0 && status == Waiting {
      SeatCountSameHands(ps, ps[k := ps[k].(isActive := true)], c);
    } else if k < 0 && status == Waiting {
      SeatCountAppend(ps, NewSeat(id, name, balance), c);
    }
  }

  lemma SeatCountAppend(ps: seq<Player>, q: Player, c: Card)
    ensures SeatCount(ps + [q], c) == SeatCount(ps, c) + Count(q.hand, c)
  {
    assert (ps + [q])[..|ps|] == ps;
  }

  /** Betting moves no card. */
  lemma PlaceBetConservesCards(ps: seq<Player>, status: GameStatus, minBet: int, maxBet: int, id: string,
                               amount: int, c: Card)
    ensures SeatCount(PlaceBet(ps, status, minBet, maxBet, id, amount).0, c) == SeatCount(ps, c)
  {
    var k := FindSeat(ps, id, false);
    if status == Betting && minBet <= amount <= maxBet && k >= 0 && ps[k].balance >= amount {
      SeatCountSameHands(ps, ps[k := ps[k].(bet := amount, balance := ps[k].balance - amount)], c);
    }
  }

  /** Removing a seat takes its hand off the table: the one move that loses cards. */
  lemma LeaveDiscardsHand(ps: seq<Player>, id: string, c: Card)
    requires FindSeat(ps, id, false) >= 0
    ensures SeatCount(Leave(ps, id).0, c) + Count(ps[FindSeat(ps, id, false)].hand, c) == SeatCount(ps, c)
  {
    SeatCountCut(ps, FindSeat(ps, id, false), c);
  }
}
