/** The game object of internal/game/blackjack.go. Every method changes the
    fields in place as the source does, and is proved to perform exactly the
    transition of the same name in module Rules. */
module Blackjack {
  import opened Wrappers
  import opened Cards
  import opened Decks
  import opened Scoring
  import opened Rules

  /** One seat as a viewer sees it: the balance only on the viewer's own seat. */
  datatype PlayerView = PlayerView(
    id: string, name: string, score: int, status: PlayerStatus, bet: int,
    isActive: bool, hand: seq<Card>, balance: Option<int>)

  /** The per-viewer game state. */
  datatype GameView = GameView(
    id: string, status: GameStatus, dealer: Dealer, tableId: string,
    minBet: int, maxBet: int, players: seq<PlayerView>)

  class BlackjackGame {
    const id: string
    const tableId: string
    const minBet: int
    const maxBet: int
    var players: seq<Player>
    var dealer: Dealer
    var deck: Deck
    var status: GameStatus
    var currentPlayerIndex: nat

    /** The round state the methods act on. */
    function Snapshot(): Round
      reads this, deck
    {
      Round(players, dealer, deck.cards, status, currentPlayerIndex)
    }

    /** NewBlackjackGame: a shuffled fresh deck, no seats, an empty dealer, Waiting.
        The identifier is passed in. */
    constructor (id: string, tableId: string, minBet: int, maxBet: int)
      ensures this.id == id && this.tableId == tableId && this.minBet == minBet && this.maxBet == maxBet
      ensures fresh(deck) && |deck.cards| == 52 && multiset(deck.cards) == multiset(StandardCards())
      ensures players == [] && dealer == Dealer([], 0) && status == Waiting && currentPlayerIndex == 0
    {
      var d := new Deck();
      d.Shuffle();
      this.id, this.tableId, this.minBet, this.maxBet := id, tableId, minBet, maxBet;
      players, dealer, deck, status, currentPlayerIndex := [], Dealer([], 0), d, Waiting, 0;
    }

    method AddPlayer(playerId: string, playerName: string, initialBalance: int) returns (seat: Option<Player>)
      modifies this
      ensures var j := Join(old(players), old(status), playerId, playerName, initialBalance);
        players == j.players && seat == j.seat
      ensures dealer == old(dealer) && deck == old(deck) && status == old(status)
      ensures currentPlayerIndex == old(currentPlayerIndex)
    {
      var i := 0;
      while i < |players|
        invariant 0 <= i <= |players| && players == old(players)
        invariant forall j :: 0 <= j < i ==> !Matches(players[j], playerId, false)
      {
        if players[i].id == playerId {
          if status == Waiting {
            players := players[i := players[i].(isActive := true)];
          }
          return Some(players[i]);
        }
        i := i + 1;
      }
      if status != Waiting {
        return None;
      }
      var p := NewSeat(playerId, playerName, initialBalance);
      players := players + [p];
      return Some(p);
    }

    method RemovePlayer(playerId: string) returns (ok: bool)
      modifies this
      ensures (players, ok) == Leave(old(players), playerId)
      ensures dealer == old(dealer) && deck == old(deck) && status == old(status)
      ensures currentPlayerIndex == old(currentPlayerIndex)
    {
      var i := 0;
      while i < |players|
        invariant 0 <= i <= |players| && players == old(players)
        invariant forall j :: 0 <= j < i ==> !Matches(players[j], playerId, false)
      {
        if players[i].id == playerId {
          players := players[..i] + players[i + 1..];
          return true;
        }
        i := i + 1;
      }
      return false;
    }

    method PlaceBet(playerId: string, amount: int) returns (ok: bool)
      modifies this
      ensures (players, ok) == Rules.PlaceBet(old(players), old(status), minBet, maxBet, playerId, amount)
      ensures dealer == old(dealer) && deck == old(deck) && status == old(status)
      ensures currentPlayerIndex == old(currentPlayerIndex)
    {
      if status != Betting {
        return false;
      }
      if amount < minBet || amount > maxBet {
        return false;
      }
      var i := 0;
      while i < |players|
        invariant 0 <= i <= |players| && players == old(players)
        invariant forall j :: 0 <= j < i ==> !Matches(players[j], playerId, false)
      {
        if players[i].id == playerId {
          if players[i].balance < amount {
            return false;
          }
          players := players[i := players[i].(bet := amount, balance := players[i].balance - amount)];
          return true;
        }
        i := i + 1;
      }
      return false;
    }

    method Start() returns (ok: bool)
      modifies this, deck
      ensures (Snapshot(), ok) == Rules.Start(old(Snapshot()))
      ensures deck == old(deck)
    {
      if status != Betting || |players| == 0 {
        return false;
      }
      var i := 0;
      while i < |players|
        invariant 0 <= i <= |players|
        invariant forall j :: 0 <= j < i ==> players[j].bet != 0
      {
        if players[i].bet == 0 {
          return false;
        }
        i := i + 1;
      }
      DealInitialCards();
      status := InProgress;
      currentPlayerIndex := 0;
      players := players[0 := players[0].(isActive := true)];
      ok := true;
    }

    method DealInitialCards()
      modifies this, deck
      ensures Snapshot() == Deal(old(Snapshot()))
      ensures deck == old(deck)
    {
      ghost var r0 := Snapshot();
      DealSeats();
      DrawnShift(r0.deck, 2 * |r0.players|);
      DealDealer();
    }

    /** The seat loop of DealInitialCards: seat i takes cards 2i and 2i+1 from
        the top of the deck. */
    method DealSeats()
      modifies this, deck
      ensures players == DealtSeats(old(players), old(deck.cards), |old(players)|)
      ensures deck.cards == old(deck.cards)[Min(2 * |old(players)|, |old(deck.cards)|)..]
      ensures deck == old(deck) && dealer == old(dealer) && status == old(status)
      ensures currentPlayerIndex == old(currentPlayerIndex)
    {
      ghost var d0, ps0 := deck.cards, players;
      var i := 0;
      while i < |players|
        invariant 0 <= i <= |players| == |ps0|
        invariant deck.cards == d0[Min(2 * i, |d0|)..]
        invariant forall j :: 0 <= j < i ==> players[j] == DealtSeat(ps0[j], Drawn(d0, 2 * j), Drawn(d0, 2 * j + 1))
        invariant forall j :: i <= j < |players| ==> players[j] == ps0[j]
        invariant dealer == old(dealer) && status == old(status) && deck == old(deck)
        invariant currentPlayerIndex == old(currentPlayerIndex)
      {
        DrawnShift(d0, 2 * i);
        DealSeat(i);
        i := i + 1;
      }
      DealtSeatsByIndex(ps0, d0, players);
    }

    /** One pass of the dealing loop of DealInitialCards: seat i takes the next
        two cards face up, is rescored, and is marked Blackjack on 21. */
    method DealSeat(i: nat)
      requires i < |players|
      modifies this, deck
      ensures players == old(players)[i := DealtSeat(old(players)[i], Drawn(old(deck.cards), 0), Drawn(old(deck.cards), 1))]
      ensures deck.cards == old(deck.cards)[Min(2, |old(deck.cards)|)..]
      ensures deck == old(deck) && dealer == old(dealer) && status == old(status)
      ensures currentPlayerIndex == old(currentPlayerIndex)
    {
      ghost var d0 := deck.cards;
      var p := players[i];
      DrawnIsTop(d0, 0);
      var card1, _ := deck.DrawCard();
      card1 := card1.(face := true);
      assert card1 == Drawn(d0, 0).(face := true);
      p := p.(hand := p.hand + [card1]);

      DrawnIsTop(d0, 1);
      var card2, _ := deck.DrawCard();
      card2 := card2.(face := true);
      assert card2 == Drawn(d0, 1).(face := true);
      p := p.(hand := p.hand + [card2]);

      var score := CalculateHandScore(p.hand);
      p := p.(score := score);
      if score == 21 {
        p := p.(status := PlayerBlackjack);
      }
      players := players[i := p];
    }

    /** The second half of DealInitialCards: the dealer takes the next card face
        up and the one after face down, and shows the value of the face-up card. */
    method DealDealer()
      modifies this, deck
      ensures var up := Drawn(old(deck.cards), 0).(face := true);
        dealer == Dealer(old(dealer).hand + [up, Drawn(old(deck.cards), 1).(face := false)], GetValue(up))
      ensures deck.cards == old(deck.cards)[Min(2, |old(deck.cards)|)..]
      ensures deck == old(deck) && players == old(players) && status == old(status)
      ensures currentPlayerIndex == old(currentPlayerIndex)
    {
      ghost var d0 := deck.cards;
      DrawnIsTop(d0, 0);
      var up, _ := deck.DrawCard();
      up := up.(face := true);
      dealer := dealer.(hand := dealer.hand + [up]);

      DrawnIsTop(d0, 1);
      var hole, _ := deck.DrawCard();
      hole := hole.(face := false);
      dealer := dealer.(hand := dealer.hand + [hole]);

      dealer := dealer.(score := GetValue(up));
    }

    method Hit(playerId: string) returns (card: Card, ok: bool)
      modifies this, deck
      ensures var o := Rules.Hit(old(Snapshot()), playerId);
        Snapshot() == o.round && card == o.card && ok == o.ok
      ensures deck == old(deck)
    {
      if status != InProgress {
        return ZeroCard, false;
      }
      ghost var r0 := Snapshot();
      var i := 0;
      while i < |players|
        invariant 0 <= i <= |players|
        invariant players == r0.players && dealer == r0.dealer && deck.cards == r0.deck
        invariant status == r0.status && currentPlayerIndex == r0.current && deck == old(deck)
        invariant forall j :: 0 <= j < i ==> !Matches(players[j], playerId, true)
      {
        var p := players[i];
        if p.id == playerId && p.isActive && p.status == PlayerActive {
          assert FindSeat(r0.players, playerId, true) == i;
          var c, drew := deck.DrawCard();
          if !drew {
            return ZeroCard, false;
          }
          c := c.(face := true);
          players := players[i := players[i].(hand := players[i].hand + [c])];
          var score := CalculateHandScore(players[i].hand);
          players := players[i := players[i].(score := score)];
          if score > 21 {
            players := players[i := players[i].(status := PlayerBusted, isActive := false)];
            ghost var h := p.hand + [c];
            ghost var r1 := r0.(players := r0.players[i := p.(hand := h, score := HandScore(h), status := PlayerBusted, isActive := false)],
                                deck := r0.deck[1..]);
            assert players == r1.players;
            assert Rules.Hit(r0, playerId).round == Rules.NextPlayer(r1);
            NextPlayer();
          }
          return c, true;
        }
        i := i + 1;
      }
      return ZeroCard, false;
    }

    method Stand(playerId: string) returns (ok: bool)
      modifies this, deck
      ensures (Snapshot(), ok) == Rules.Stand(old(Snapshot()), playerId)
      ensures deck == old(deck)
    {
      if status != InProgress {
        return false;
      }
      ghost var r0 := Snapshot();
      var i := 0;
      while i < |players|
        invariant 0 <= i <= |players|
        invariant players == r0.players && dealer == r0.dealer && deck.cards == r0.deck
        invariant status == r0.status && currentPlayerIndex == r0.current && deck == old(deck)
        invariant forall j :: 0 <= j < i ==> !Matches(players[j], playerId, true)
      {
        var p := players[i];
        if p.id == playerId && p.isActive && p.status == PlayerActive {
          assert FindSeat(r0.players, playerId, true) == i;
          players := players[i := players[i].(status := PlayerStood, isActive := false)];
          assert Rules.Stand(r0, playerId).0 == Rules.NextPlayer(Snapshot());
          NextPlayer();
          return true;
        }
        i := i + 1;
      }
      return false;
    }

    /** Scans the seats cyclically from the one after the current seat. The source
        divides by the number of seats, so it needs at least one. */
    method NextPlayer()
      requires |players| > 0
      modifies this, deck
      ensures Snapshot() == Rules.NextPlayer(old(Snapshot()))
      ensures deck == old(deck)
    {
      var n := |players|;
      var next := (currentPlayerIndex + 1) % n;
      var start := next;
      ghost var d: nat := 0;
      while true
        invariant n == |players| && start < n
        invariant d < n && next == Wrap(start + d, n)
        invariant ScanFrom(players, start, 0) == ScanFrom(players, start, d)
        invariant Snapshot() == old(Snapshot()) && deck == old(deck)
        invariant start == (old(currentPlayerIndex) + 1) % n && players == old(players)
        decreases n - d
      {
        if players[next].status == PlayerActive {
          assert ScanFrom(players, start, 0) == d;
          currentPlayerIndex := next;
          players := players[next := players[next].(isActive := true)];
          return;
        }
        WrapStep(start, d, n);
        next := (next + 1) % n;
        d := d + 1;
        if next == start {
          assert ScanFrom(players, start, 0) == n;
          DealerTurn();
          return;
        }
      }
    }

    /** Stepping one seat on with `% n` is the wrap-around of the next offset,
        and it returns to `start` only after a full lap. */
    static lemma WrapStep(start: nat, d: nat, n: nat)
      requires start < n && d < n
      ensures (Wrap(start + d, n) + 1) % n == Wrap(start + d + 1, n)
      ensures Wrap(start + d + 1, n) == start <==> d + 1 == n
    {
      var x := Wrap(start + d, n) + 1;
      assert 0 < x <= n;
      if x < n {
        assert x % n == x;
      } else {
        assert x % n == 0;
      }
    }

    method DealerTurn()
      modifies this, deck
      ensures Snapshot() == Rules.DealerTurn(old(Snapshot()))
      ensures deck == old(deck)
    {
      ghost var r0 := Snapshot();
      ghost var h0 := dealer.hand;
      var i := 0;
      while i < |dealer.hand|
        invariant 0 <= i <= |dealer.hand| == |h0|
        invariant forall j :: 0 <= j < i ==> dealer.hand[j] == h0[j].(face := true)
        invariant forall j :: i <= j < |h0| ==> dealer.hand[j] == h0[j]
        invariant players == r0.players && deck == old(deck) && deck.cards == r0.deck
        invariant status == r0.status && currentPlayerIndex == r0.current
      {
        dealer := dealer.(hand := dealer.hand[i := dealer.hand[i].(face := true)]);
        i := i + 1;
      }
      assert dealer.hand == FaceUpAll(h0);

      var score := CalculateHandScore(dealer.hand);
      dealer := dealer.(score := score);
      while dealer.score < 17
        invariant DealerDraw(dealer.hand, deck.cards) == DealerDraw(FaceUpAll(h0), r0.deck)
        invariant dealer.score == HandScore(dealer.hand)
        invariant players == r0.players && deck == old(deck)
        invariant status == r0.status && currentPlayerIndex == r0.current
        decreases |deck.cards|
      {
        var card, ok := deck.DrawCard();
        if !ok {
          break;
        }
        card := card.(face := true);
        dealer := dealer.(hand := dealer.hand + [card]);
        score := CalculateHandScore(dealer.hand);
        dealer := dealer.(score := score);
      }
      assert (dealer.hand, deck.cards) == DealerDraw(FaceUpAll(h0), r0.deck);

      DetermineWinners();
      status := Completed;
    }

    method DetermineWinners()
      modifies this
      ensures players == Settle(old(players), dealer)
      ensures dealer == old(dealer) && deck == old(deck) && status == old(status)
      ensures currentPlayerIndex == old(currentPlayerIndex)
    {
      var dealerScore := dealer.score;
      var dealerBusted := dealerScore > 21;
      ghost var settled := Settle(old(players), dealer);
      for i := 0 to |players|
        invariant |players| == |old(players)| == |settled|
        invariant forall j :: 0 <= j < i ==> players[j] == settled[j]
        invariant forall j :: i <= j < |players| ==> players[j] == old(players)[j]
        invariant dealer == old(dealer) && deck == old(deck) && status == old(status)
        invariant currentPlayerIndex == old(currentPlayerIndex)
      {
        var p := players[i];
        var balance := p.balance;
        match p.status {
          case PlayerBusted =>
          case PlayerBlackjack =>
            if |dealer.hand| == 2 && dealerScore == 21 {
              balance := balance + p.bet;
            } else {
              balance := balance + p.bet + ThreeHalves(p.bet);
            }
          case _ =>
            if dealerBusted {
              balance := balance + p.bet * 2;
            } else if p.score > dealerScore {
              balance := balance + p.bet * 2;
            } else if p.score == dealerScore {
              balance := balance + p.bet;
            }
        }
        assert balance == p.balance + Payout(p, dealer);
        assert p.(balance := balance) == settled[i];
        players := players[i := p.(balance := balance)];
      }
    }

    /** Counts every card at its value, Aces as 11, then turns Aces into 1 while
        the total is over 21. Reads no field of the game. */
    static method CalculateHandScore(hand: seq<Card>) returns (score: int)
      ensures score == HandScore(hand)
    {
      score := 0;
      var aces: nat := 0;
      for i := 0 to |hand|
        invariant score == RawTotal(hand[..i]) && aces == AceCount(hand[..i])
      {
        assert hand[..i + 1][..i] == hand[..i];
        if hand[i].rank == Ace {
          aces := aces + 1;
        }
        score := score + GetValue(hand[i]);
      }
      assert hand[..|hand|] == hand;
      ghost var total, all := score, aces;
      while aces > 0 && score > 21
        invariant aces <= all && score == total - 10 * (all - aces)
        invariant all - aces <= Conversions(total, all)
      {
        score := score - 10;
        aces := aces - 1;
      }
    }

    method PrepareForNextRound()
      modifies this
      ensures fresh(deck) && |deck.cards| == 52 && multiset(deck.cards) == multiset(StandardCards())
      ensures Snapshot() == Reset(old(Snapshot()), deck.cards)
    {
      var d := new Deck();
      d.Shuffle();
      ghost var shuffled := d.cards;
      deck := d;
      dealer := Dealer([], 0);
      for i := 0 to |players|
        invariant deck == d && d.cards == shuffled && dealer == Dealer([], 0) && status == old(status)
        invariant |players| == |old(players)|
        invariant forall j :: 0 <= j < i ==> players[j] == ResetSeat(old(players)[j])
        invariant forall j :: i <= j < |players| ==> players[j] == old(players)[j]
        invariant currentPlayerIndex == old(currentPlayerIndex)
      {
        players := players[i := players[i].(hand := [], score := 0, status := PlayerActive, bet := 0, isActive := false)];
      }
      status := Betting;
    }

    /** Every seat's public fields and hand for any viewer; the balance only on
        the seats whose id is the viewer's. */
    method GetGameState(viewer: string) returns (v: GameView)
      ensures v.id == id && v.status == status && v.dealer == dealer && v.tableId == tableId
      ensures v.minBet == minBet && v.maxBet == maxBet
      ensures |v.players| == |players|
      ensures forall i :: 0 <= i < |players| ==>
        var p, w := players[i], v.players[i];
        && w.id == p.id && w.name == p.name && w.score == p.score && w.status == p.status
        && w.bet == p.bet && w.isActive == p.isActive && w.hand == p.hand
        && (w.balance.Some? <==> p.id == viewer)
        && (w.balance.Some? ==> w.balance.value == p.balance)
    {
      var views: seq<PlayerView> := [];
      for i := 0 to |players|
        invariant |views| == i
        invariant forall j :: 0 <= j < i ==>
          views[j] == PlayerView(players[j].id, players[j].name, players[j].score, players[j].status,
                                 players[j].bet, players[j].isActive, players[j].hand,
                                 if players[j].id == viewer then Some(players[j].balance) else None)
      {
        var p := players[i];
        var w := PlayerView(p.id, p.name, p.score, p.status, p.bet, p.isActive, p.hand, None);
        if p.id == viewer {
          w := w.(balance := Some(p.balance));
        }
        views := views + [w];
      }
      v := GameView(id, status, dealer, tableId, minBet, maxBet, views);
    }
  }
}
