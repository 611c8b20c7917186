/** The rules of internal/game/blackjack.go as functions from one round state
    to the next. The class in module Blackjack is proved to perform exactly
    these transitions; the lemmas here state what the transitions promise. */
module Rules {
  import opened Wrappers
  import opened Cards
  import opened Scoring

  datatype GameStatus = Waiting | Betting | InProgress | Completed

  datatype PlayerStatus = PlayerActive | PlayerBusted | PlayerStood | PlayerBlackjack

  /** A seat. `isActive` is the turn flag. */
  datatype Player = Player(
    id: string, name: string, hand: seq<Card>, score: int,
    status: PlayerStatus, bet: int, balance: int, isActive: bool)

  datatype Dealer = Dealer(hand: seq<Card>, score: int)

  /** The mutable part of a game: seats in turn order, dealer, remaining deck,
      game status and the index of the seat whose turn it is. */
  datatype Round = Round(players: seq<Player>, dealer: Dealer, deck: seq<Card>, status: GameStatus, current: nat)

  function Min(a: int, b: int): int { if a <= b then a else b }

  // ---------------------------------------------------------------------------
  // Seat lookup

  /** A seat answers to `id`; when `onTurn` is set it must also hold the turn
      and still be playing (what Hit and Stand look for). */
  predicate Matches(p: Player, id: string, onTurn: bool) {
    p.id == id && (onTurn ==> p.isActive && p.status == PlayerActive)
  }

  /** Index of the first matching seat, or -1. */
  function FindSeat(ps: seq<Player>, id: string, onTurn: bool): (k: int)
    ensures -1 <= k < |ps|
    ensures k >= 0 ==> Matches(ps[k], id, onTurn)
    ensures forall j :: 0 <= j < |ps| && (k < 0 || j < k) ==> !Matches(ps[j], id, onTurn)
  {
    if ps == [] then -1
    else if Matches(ps[0], id, onTurn) then 0
    else
      var k := FindSeat(ps[1..], id, onTurn);
      if k < 0 then -1 else k + 1
  }

  predicate DistinctIds(ps: seq<Player>) {
    forall i, j :: 0 <= i < j < |ps| ==> ps[i].id != ps[j].id
  }

  // ---------------------------------------------------------------------------
  // Seating and betting

  function NewSeat(id: string, name: string, balance: int): Player {
    Player(id, name, [], 0, PlayerActive, 0, balance, false)
  }

  datatype Joined = Joined(players: seq<Player>, seat: Option<Player>)

  /** AddPlayer. A seated id is returned (and, while Waiting, given the turn
      flag); a new id is seated at the end only while Waiting. */
  function Join(ps: seq<Player>, status: GameStatus, id: string, name: string, balance: int): (j: Joined)
    ensures j.seat.None? ==> j.players == ps
    ensures |j.players| == |ps| || j.players == ps + [NewSeat(id, name, balance)]
  {
    var k := FindSeat(ps, id, false);
    if k >= 0 then
      if status == Waiting then
        var ps' := ps[k := ps[k].(isActive := true)];
        Joined(ps', Some(ps'[k]))
      else Joined(ps, Some(ps[k]))
    else if status != Waiting then Joined(ps, None)
    else Joined(ps + [NewSeat(id, name, balance)], Some(NewSeat(id, name, balance)))
  }

  /** RemovePlayer: drops the first seat with `id`. */
  function Leave(ps: seq<Player>, id: string): (r: (seq<Player>, bool))
    ensures |r.0| == if r.1 then |ps| - 1 else |ps|
    ensures !r.1 ==> r.0 == ps
  {
    var k := FindSeat(ps, id, false);
    if k < 0 then (ps, false) else (ps[..k] + ps[k + 1..], true)
  }

  /** PlaceBet: the stake is recorded and debited at once. */
  function PlaceBet(ps: seq<Player>, status: GameStatus, minBet: int, maxBet: int, id: string, amount: int): (r: (seq<Player>, bool))
    ensures |r.0| == |ps| && forall i :: 0 <= i < |ps| ==> r.0[i].id == ps[i].id
    ensures !r.1 ==> r.0 == ps
  {
    if status != Betting || amount < minBet || amount > maxBet then (ps, false)
    else
      var k := FindSeat(ps, id, false);
      if k < 0 || ps[k].balance < amount then (ps, false)
      else (ps[k := ps[k].(bet := amount, balance := ps[k].balance - amount)], true)
  }

  lemma {:induction false} FindSeatAppend(ps: seq<Player>, p: Player, id: string, onTurn: bool)
    ensures FindSeat(ps + [p], id, onTurn) ==
      if FindSeat(ps, id, onTurn) >= 0 then FindSeat(ps, id, onTurn)
      else if Matches(p, id, onTurn) then |ps| else -1
  {
    var k, k' := FindSeat(ps, id, onTurn), FindSeat(ps + [p], id, onTurn);
    assert forall j :: 0 <= j < |ps| ==> (ps + [p])[j] == ps[j];
    assert (ps + [p])[|ps|] == p;
  }

  /** What AddPlayer does, case by case. */
  lemma JoinOutcome(ps: seq<Player>, status: GameStatus, id: string, name: string, balance: int)
    ensures var j, k := Join(ps, status, id, name, balance), FindSeat(ps, id, false);
      && (j.seat.None? <==> k < 0 && status != Waiting)
      && (j.seat.None? ==> j.players == ps)
      && (k < 0 && status == Waiting ==>
            j.players == ps + [NewSeat(id, name, balance)] && j.seat == Some(NewSeat(id, name, balance)))
      && (k >= 0 ==>
            |j.players| == |ps| && j.seat == Some(j.players[k])
            && j.players[k] == ps[k].(isActive := ps[k].isActive || status == Waiting)
            && forall i :: 0 <= i < |ps| && i != k ==> j.players[i] == ps[i])
  {
  }

  /** Joining never seats an id twice. */
  lemma JoinKeepsIdsDistinct(ps: seq<Player>, status: GameStatus, id: string, name: string, balance: int)
    requires DistinctIds(ps)
    ensures DistinctIds(Join(ps, status, id, name, balance).players)
  {
    var k := FindSeat(ps, id, false);
    if k < 0 && status == Waiting {
      var qs := ps + [NewSeat(id, name, balance)];
      forall i, j | 0 <= i < j < |qs| ensures qs[i].id != qs[j].id {
        if j == |ps| { assert !Matches(ps[i], id, false); }
      }
    }
  }

  /** Removing a seat keeps the order of the others; an absent id changes nothing. */
  lemma LeaveOutcome(ps: seq<Player>, id: string)
    ensures var (qs, ok) := Leave(ps, id); var k := FindSeat(ps, id, false);
      && (ok <==> exists i :: 0 <= i < |ps| && ps[i].id == id)
      && (!ok ==> qs == ps)
      && (ok ==> |qs| == |ps| - 1
                 && (forall i :: 0 <= i < k ==> qs[i] == ps[i])
                 && (forall i :: k <= i < |qs| ==> qs[i] == ps[i + 1]))
  {
    var k := FindSeat(ps, id, false);
    if k >= 0 { assert Matches(ps[k], id, false); }
  }

  /** With distinct ids, a removed id is no longer seated. */
  lemma LeaveUnseats(ps: seq<Player>, id: string)
    requires DistinctIds(ps)
    ensures DistinctIds(Leave(ps, id).0)
    ensures FindSeat(Leave(ps, id).0, id, false) < 0
  {
    var k := FindSeat(ps, id, false);
    if k >= 0 {
      var qs := ps[..k] + ps[k + 1..];
      assert forall i :: 0 <= i < |qs| ==> qs[i] == ps[if i < k then i else i + 1];
      forall i | 0 <= i < |qs| ensures qs[i].id != id {
        assert ps[k].id == id;
      }
    }
  }

  /** Leaving right after joining as a new player in Waiting undoes the join. */
  lemma LeaveUndoesJoin(ps: seq<Player>, id: string, name: string, balance: int)
    requires FindSeat(ps, id, false) < 0
    ensures Leave(Join(ps, Waiting, id, name, balance).players, id) == (ps, true)
  {
    var qs := ps + [NewSeat(id, name, balance)];
    assert Join(ps, Waiting, id, name, balance).players == qs;
    FindSeatAppend(ps, NewSeat(id, name, balance), id, false);
    assert FindSeat(qs, id, false) == |ps|;
    assert qs[..|ps|] == ps;
    assert qs[|ps| + 1..] == [];
    assert qs[..|ps|] + qs[|ps| + 1..] == ps;
    assert Leave(qs, id) == (qs[..|ps|] + qs[|ps| + 1..], true);
  }

  /** Re-joining a seated id while Waiting raises its turn flag (AddPlayer's
      existing-seat branch), so joining is not idempotent. */
  lemma JoinTwiceRaisesTurnFlag(ps: seq<Player>, id: string, name: string, balance: int)
    requires FindSeat(ps, id, false) < 0
    ensures var once := Join(ps, Waiting, id, name, balance);
            var twice := Join(once.players, Waiting, id, name, balance);
            && once.seat == Some(NewSeat(id, name, balance)) && !once.seat.value.isActive
            && twice.seat == Some(NewSeat(id, name, balance).(isActive := true))
            && twice.players == ps + [NewSeat(id, name, balance).(isActive := true)]
  {
    FindSeatAppend(ps, NewSeat(id, name, balance), id, false);
  }

  /** PlaceBet succeeds exactly when the game is Betting, the amount lies in
      [minBet, maxBet], the id is seated and that seat can cover the amount. On
      success only that seat changes: bet becomes the amount and the balance drops
      by it. On failure nothing changes. */
  lemma PlaceBetOutcome(ps: seq<Player>, status: GameStatus, minBet: int, maxBet: int, id: string, amount: int)
    ensures var (qs, ok) := PlaceBet(ps, status, minBet, maxBet, id, amount); var k := FindSeat(ps, id, false);
      && (ok <==> status == Betting && minBet <= amount <= maxBet && k >= 0 && ps[k].balance >= amount)
      && (!ok ==> qs == ps)
      && (ok ==> |qs| == |ps| && qs[k].bet == amount && qs[k].balance == ps[k].balance - amount
                 && qs[k] == ps[k].(bet := amount, balance := qs[k].balance)
                 && forall i :: 0 <= i < |ps| && i != k ==> qs[i] == ps[i])
  {
  }

  /** A second successful PlaceBet overwrites the stake but debits again: the
      first amount is lost from balance + bet. */
  lemma PlaceBetTwiceDebitsTwice(ps: seq<Player>, minBet: int, maxBet: int, id: string, a: int, b: int)
    requires PlaceBet(ps, Betting, minBet, maxBet, id, a).1
    requires PlaceBet(PlaceBet(ps, Betting, minBet, maxBet, id, a).0, Betting, minBet, maxBet, id, b).1
    ensures var k := FindSeat(ps, id, false);
            var qs := PlaceBet(PlaceBet(ps, Betting, minBet, maxBet, id, a).0, Betting, minBet, maxBet, id, b).0;
            k >= 0 && qs[k].bet == b && qs[k].balance == ps[k].balance - a - b
  {
    var k := FindSeat(ps, id, false);
    var ps1 := PlaceBet(ps, Betting, minBet, maxBet, id, a).0;
    assert ps1[k].id == id;
    var k1 := FindSeat(ps1, id, false);
    assert forall j :: 0 <= j < |ps| ==> ps1[j].id == ps[j].id;
    assert k1 == k;
  }

  // ---------------------------------------------------------------------------
  // Dealing

  /** The card the k-th draw from `deck` yields: a failed draw yields the zero card. */
  function Drawn(deck: seq<Card>, k: nat): Card {
    if k < |deck| then deck[k] else ZeroCard
  }

  /** Drawing from the deck left after k draws yields Drawn(deck, k) and leaves
      the deck after k + 1 draws. */
  lemma DrawnIsTop(deck: seq<Card>, k: nat)
    ensures var rest := deck[Min(k, |deck|)..];
      && (rest == [] ==> Drawn(deck, k) == ZeroCard && deck[Min(k + 1, |deck|)..] == rest)
      && (rest != [] ==> Drawn(deck, k) == rest[0] && rest[1..] == deck[Min(k + 1, |deck|)..])
  {
  }

  /** The deck left after k draws: its first two cards are draws k and k+1, and
      two more draws leave the deck after k + 2 draws. */
  lemma DrawnShift(deck: seq<Card>, k: nat)
    ensures var rest := deck[Min(k, |deck|)..];
      && Drawn(rest, 0) == Drawn(deck, k) && Drawn(rest, 1) == Drawn(deck, k + 1)
      && rest[Min(2, |rest|)..] == deck[Min(k + 2, |deck|)..]
  {
  }

  /** A seat after receiving two face-up cards: rescored, and marked Blackjack
      when the score is 21 (status otherwise untouched). */
  function DealtSeat(p: Player, c1: Card, c2: Card): Player {
    var h := p.hand + [c1.(face := true)] + [c2.(face := true)];
    var s := HandScore(h);
    p.(hand := h, score := s, status := if s == 21 then PlayerBlackjack else p.status)
  }

  /** The first k seats after each has been dealt its two cards, seat j taking
      draws 2j and 2j+1. */
  function DealtSeats(ps: seq<Player>, deck: seq<Card>, k: nat): (qs: seq<Player>)
    requires k <= |ps|
    ensures |qs| == k
    ensures forall j :: 0 <= j < k ==> qs[j] == DealtSeat(ps[j], Drawn(deck, 2 * j), Drawn(deck, 2 * j + 1))
  {
    if k == 0 then []
    else DealtSeats(ps, deck, k - 1) + [DealtSeat(ps[k - 1], Drawn(deck, 2 * (k - 1)), Drawn(deck, 2 * (k - 1) + 1))]
  }

  /** A sequence that agrees seat by seat with DealtSeats is DealtSeats. */
  lemma DealtSeatsByIndex(ps: seq<Player>, deck: seq<Card>, qs: seq<Player>)
    requires |qs| == |ps|
    requires forall j :: 0 <= j < |qs| ==> qs[j] == DealtSeat(ps[j], Drawn(deck, 2 * j), Drawn(deck, 2 * j + 1))
    ensures qs == DealtSeats(ps, deck, |ps|)
  {
  }

  /** DealInitialCards: two cards to each seat in order, then one face-up and
      one face-down card to the dealer, whose score shows the face-up card only. */
  function Deal(r: Round): (d: Round)
    ensures |d.players| == |r.players| && |d.dealer.hand| == |r.dealer.hand| + 2
    ensures d.status == r.status && d.current == r.current
  {
    var n := |r.players|;
    var up := Drawn(r.deck, 2 * n).(face := true);
    var hole := Drawn(r.deck, 2 * n + 1).(face := false);
    r.(players := DealtSeats(r.players, r.deck, n),
       dealer := Dealer(r.dealer.hand + [up, hole], GetValue(up)),
       deck := r.deck[Min(2 * n + 2, |r.deck|)..])
  }

  predicate CanStart(r: Round) {
    r.status == Betting && |r.players| > 0 && forall i :: 0 <= i < |r.players| ==> r.players[i].bet != 0
  }

  /** Start: deal, go InProgress and hand the turn to seat 0. */
  function Start(r: Round): (s: (Round, bool))
    ensures !s.1 ==> s.0 == r
    ensures s.1 ==> s.0.status == InProgress && s.0.current == 0 && |s.0.players| == |r.players|
  {
    if !CanStart(r) then (r, false)
    else
      var d := Deal(r);
      (d.(status := InProgress, current := 0, players := d.players[0 := d.players[0].(isActive := true)]), true)
  }

  /** Start fails, changing nothing, unless the game is Betting with at least one
      seat and every stake nonzero. */
  lemma StartRefusal(r: Round)
    ensures Start(r).1 <==> CanStart(r)
    ensures !CanStart(r) ==> Start(r).0 == r
  {
  }

  /** A successful Start passes the turn to seat 0 and leaves the rest of the
      seats' turn flags alone; it does not care whether seat 0 was dealt a
      natural. */
  lemma StartTurn(r: Round)
    requires CanStart(r)
    ensures var r' := Start(r).0;
      && r'.status == InProgress && r'.current == 0
      && |r'.players| == |r.players| && r'.players[0].isActive
      && forall i :: 0 < i < |r.players| ==> r'.players[i].isActive == r.players[i].isActive
  {
  }

  /** On a successful Start seat i gains the draws 2i and 2i+1, face up, is
      rescored, and becomes Blackjack iff it now scores 21 (a Blackjack status
      it already had stays). Stake and balance are untouched. */
  lemma StartDealsSeat(r: Round, i: nat)
    requires CanStart(r) && i < |r.players|
    ensures var p, q := r.players[i], Start(r).0.players[i];
      && q.hand == p.hand + [Drawn(r.deck, 2 * i).(face := true), Drawn(r.deck, 2 * i + 1).(face := true)]
      && q.score == HandScore(q.hand)
      && (q.status == PlayerBlackjack <==> q.score == 21 || p.status == PlayerBlackjack)
      && (q.status != PlayerBlackjack ==> q.status == p.status)
      && q.id == p.id && q.bet == p.bet && q.balance == p.balance
  {
    var n := |r.players|;
    var d := Deal(r);
    assert d.players[i] == DealtSeat(r.players[i], Drawn(r.deck, 2 * i), Drawn(r.deck, 2 * i + 1));
    assert Start(r).0.players[i] == d.players[i].(isActive := i == 0 || d.players[i].isActive);
  }

  /** On a successful Start the dealer gains the draws 2n (face up) and 2n+1
      (face down) and shows only the face-up card's value; the deck loses the
      2n+2 cards dealt, or all it had. */
  lemma StartDealsDealer(r: Round)
    requires CanStart(r)
    ensures var r', n := Start(r).0, |r.players|;
      && r'.dealer.hand == r.dealer.hand + [Drawn(r.deck, 2 * n).(face := true), Drawn(r.deck, 2 * n + 1).(face := false)]
      && r'.dealer.score == GetValue(Drawn(r.deck, 2 * n))
      && r'.deck == r.deck[Min(2 * n + 2, |r.deck|)..]
  {
    var d := Deal(r);
    assert Start(r).0.dealer == d.dealer && Start(r).0.deck == d.deck;
  }

  /** With at least 2n+2 cards in the deck no draw fails: every card dealt is a
      real card taken in order from the top. */
  lemma StartWithFullDeck(r: Round, i: nat)
    requires CanStart(r) && |r.deck| >= 2 * |r.players| + 2 && i < |r.players|
    ensures Drawn(r.deck, 2 * i) == r.deck[2 * i] && Drawn(r.deck, 2 * i + 1) == r.deck[2 * i + 1]
    ensures Drawn(r.deck, 2 * |r.players|) == r.deck[2 * |r.players|]
    ensures Drawn(r.deck, 2 * |r.players| + 1) == r.deck[2 * |r.players| + 1]
    ensures Start(r).0.deck == r.deck[2 * |r.players| + 2..]
  {
    StartDealsDealer(r);
  }

  // ---------------------------------------------------------------------------
  // Turns

  /** `x` reduced into [0, n) by one wrap-around; for 0 <= x < 2n this is x % n. */
  function Wrap(x: nat, n: nat): (y: nat)
    requires 0 < n && x < 2 * n
    ensures y < n && y == x % n
  {
    if x < n then x else x - n
  }

  /** Offset of seat `i` from `start` going round the table. */
  function Offset(start: nat, i: nat, n: nat): (j: nat)
    requires start < n && i < n
    ensures j < n && Wrap(start + j, n) == i
  {
    if i >= start then i - start else i + n - start
  }

  /** The seat `j` places after `start`, wrapping around. */
  function Ring(ps: seq<Player>, start: nat, j: nat): Player
    requires start < |ps| && j < |ps|
  {
    ps[Wrap(start + j, |ps|)]
  }

  /** First offset e >= d (within one lap) whose seat is still playing, or |ps|. */
  function ScanFrom(ps: seq<Player>, start: nat, d: nat): (e: nat)
    requires start < |ps| && d <= |ps|
    ensures d <= e <= |ps|
    ensures e < |ps| ==> Ring(ps, start, e).status == PlayerActive
    ensures forall j :: d <= j < e ==> Ring(ps, start, j).status != PlayerActive
    decreases |ps| - d
  {
    if d == |ps| then d
    else if Ring(ps, start, d).status == PlayerActive then d
    else ScanFrom(ps, start, d + 1)
  }

  predicate SomeonePlaying(ps: seq<Player>) {
    exists i :: 0 <= i < |ps| && ps[i].status == PlayerActive
  }

  /** NextPlayer: give the turn to the first still-playing seat after the
      current one (wrapping around); if there is none, play the dealer. */
  function NextPlayer(r: Round): (r': Round)
    requires |r.players| > 0
    ensures |r'.players| == |r.players|
    ensures r'.status == r.status || r'.status == Completed
  {
    var n := |r.players|;
    var start := (r.current + 1) % n;
    var e := ScanFrom(r.players, start, 0);
    if e < n then
      var k := Wrap(start + e, n);
      r.(current := k, players := r.players[k := r.players[k].(isActive := true)])
    else DealerTurn(r)
  }

  /** When some seat is still playing, NextPlayer hands the turn to one of them,
      and every seat passed over on the way (in seating order, wrapping round from
      the seat after the current one) is no longer playing. Nothing else changes. */
  lemma NextPlayerPassesTurn(r: Round)
    requires |r.players| > 0 && SomeonePlaying(r.players)
    ensures var r', n := NextPlayer(r), |r.players|; var start := (r.current + 1) % n;
      && r'.current < n && r.players[r'.current].status == PlayerActive
      && r'.players == r.players[r'.current := r.players[r'.current].(isActive := true)]
      && r'.dealer == r.dealer && r'.deck == r.deck && r'.status == r.status
      && forall j :: 0 <= j < Offset(start, r'.current, n) ==> Ring(r.players, start, j).status != PlayerActive
  {
    var n := |r.players|;
    var start := (r.current + 1) % n;
    var e := ScanFrom(r.players, start, 0);
    var i :| 0 <= i < n && r.players[i].status == PlayerActive;
    var o := Offset(start, i, n);
    assert Ring(r.players, start, o) == r.players[i];
    assert e <= o;
    var k := Wrap(start + e, n);
    assert NextPlayer(r) == r.(current := k, players := r.players[k := r.players[k].(isActive := true)]);
    assert Offset(start, k, n) == e;
  }

  /** When no seat is still playing, NextPlayer is the dealer's turn. */
  lemma NextPlayerEndsRound(r: Round)
    requires |r.players| > 0 && !SomeonePlaying(r.players)
    ensures NextPlayer(r) == DealerTurn(r)
  {
  }

  datatype HitResult = HitResult(round: Round, card: Card, ok: bool)

  /** Hit: draw one face-up card for the seat `id` if it holds the turn and is
      still playing; a score over 21 busts the seat and moves the turn on. */
  function Hit(r: Round, id: string): (o: HitResult)
    ensures !o.ok ==> o.round == r && o.card == ZeroCard
    ensures |o.round.players| == |r.players|
  {
    var k := FindSeat(r.players, id, true);
    if r.status != InProgress || k < 0 || r.deck == [] then HitResult(r, ZeroCard, false)
    else
      var c := r.deck[0].(face := true);
      var p := r.players[k];
      var h := p.hand + [c];
      var s := HandScore(h);
      if s > 21 then
        HitResult(NextPlayer(r.(players := r.players[k := p.(hand := h, score := s, status := PlayerBusted, isActive := false)],
                                deck := r.deck[1..])), c, true)
      else
        HitResult(r.(players := r.players[k := p.(hand := h, score := s)], deck := r.deck[1..]), c, true)
  }

  /** Stand: the seat `id`, if it holds the turn and is still playing, stands and
      the turn moves on. */
  function Stand(r: Round, id: string): (s: (Round, bool))
    ensures !s.1 ==> s.0 == r
    ensures |s.0.players| == |r.players|
  {
    var k := FindSeat(r.players, id, true);
    if r.status != InProgress || k < 0 then (r, false)
    else (NextPlayer(r.(players := r.players[k := r.players[k].(status := PlayerStood, isActive := false)])), true)
  }

  /** Two seat lists agree on everything a seat plays with; turn flags and
      balances may differ. */
  predicate SameHands(ps: seq<Player>, qs: seq<Player>) {
    |ps| == |qs| &&
    forall i :: 0 <= i < |ps| ==>
      qs[i] == ps[i].(isActive := qs[i].isActive, balance := qs[i].balance)
  }

  /** The dealer's turn and the turn hand-over touch only turn flags and balances of
      seats, and raise the turn flag only of a seat still playing. */
  lemma NextPlayerKeepsHands(r: Round)
    requires |r.players| > 0
    ensures var r' := NextPlayer(r);
      && SameHands(r.players, r'.players)
      && forall i :: 0 <= i < |r.players| && r.players[i].status != PlayerActive ==>
           r'.players[i].isActive == r.players[i].isActive
  {
    if SomeonePlaying(r.players) {
      NextPlayerPassesTurn(r);
    } else {
      NextPlayerEndsRound(r);
    }
  }

  /** What the turn hand-over does, stated without NextPlayer: when a seat is
      still playing, the first such seat after the current one (wrapping round)
      becomes current and takes the turn flag, every seat passed over is not
      playing, and nothing else changes; otherwise the dealer plays. */
  predicate HandedOver(r: Round, r': Round)
    requires |r.players| > 0
  {
    var n := |r.players|;
    var start := (r.current + 1) % n;
    if SomeonePlaying(r.players) then
      && r'.current < n && r.players[r'.current].status == PlayerActive
      && r'.players == r.players[r'.current := r.players[r'.current].(isActive := true)]
      && r'.dealer == r.dealer && r'.deck == r.deck && r'.status == r.status
      && forall j :: 0 <= j < Offset(start, r'.current, n) ==> Ring(r.players, start, j).status != PlayerActive
    else
      r' == DealerTurn(r)
  }

  /** NextPlayer is the hand-over, and it leaves every seat's hand, stake and
      status as they were. */
  lemma NextPlayerHandsOver(r: Round)
    requires |r.players| > 0
    ensures HandedOver(r, NextPlayer(r))
    ensures SameHands(r.players, NextPlayer(r).players)
  {
    NextPlayerKeepsHands(r);
    if SomeonePlaying(r.players) {
      NextPlayerPassesTurn(r);
    } else {
      NextPlayerEndsRound(r);
    }
  }

  /** Hit fails, changing nothing, unless the game is InProgress, the seat holds
      the turn and is playing, and the deck is not empty. On success the card
      returned is the top card turned face up, it joins the seat's hand, the seat
      is rescored, and it is busted and loses the turn exactly when the new score
      exceeds 21; a seat that did not bust keeps the turn. */
  lemma HitOutcome(r: Round, id: string)
    ensures var o, k := Hit(r, id), FindSeat(r.players, id, true);
      && (o.ok <==> r.status == InProgress && k >= 0 && r.deck != [])
      && (!o.ok ==> o.round == r && o.card == ZeroCard)
      && (o.ok ==>
            var q := o.round.players[k];
            && o.card == r.deck[0].(face := true)
            && |o.round.players| == |r.players|
            && o.round.players[k].hand == r.players[k].hand + [o.card]
            && o.round.players[k].score == HandScore(o.round.players[k].hand)
            && (o.round.players[k].score > 21 <==> o.round.players[k].status == PlayerBusted)
            && (o.round.players[k].score > 21 ==> !o.round.players[k].isActive)
            && (o.round.players[k].score <= 21 ==>
                  o.round.players[k].isActive && o.round.current == r.current
                  && o.round.status == InProgress && o.round.deck == r.deck[1..]
                  && o.round.dealer == r.dealer
                  && o.round.players == r.players[k := r.players[k].(hand := q.hand, score := q.score)])
            && (o.round.players[k].score > 21 ==>
                  var busted := r.players[k].(hand := q.hand, score := q.score, status := PlayerBusted, isActive := false);
                  var r1 := r.(players := r.players[k := busted], deck := r.deck[1..]);
                  && HandedOver(r1, o.round)
                  && SameHands(r1.players, o.round.players)))
  {
    var k := FindSeat(r.players, id, true);
    if r.status == InProgress && k >= 0 && r.deck != [] {
      var c := r.deck[0].(face := true);
      var p := r.players[k];
      var h := p.hand + [c];
      var s := HandScore(h);
      if s > 21 {
        var r1 := r.(players := r.players[k := p.(hand := h, score := s, status := PlayerBusted, isActive := false)], deck := r.deck[1..]);
        NextPlayerKeepsHands(r1);
        NextPlayerHandsOver(r1);
        assert r1.players[k].status != PlayerActive;
      }
    }
  }

  /** Stand fails with no change unless the game is InProgress and the seat holds
      the turn and is playing; on success that seat has stood and lost the turn,
      its hand untouched, and the turn is handed over from there. */
  lemma StandOutcome(r: Round, id: string)
    ensures var (r', ok) := Stand(r, id); var k := FindSeat(r.players, id, true);
      && (ok <==> r.status == InProgress && k >= 0)
      && (!ok ==> r' == r)
      && (ok ==>
            && |r'.players| == |r.players|
            && r'.players[k].status == PlayerStood && !r'.players[k].isActive
            && r'.players[k].hand == r.players[k].hand && r'.players[k].score == r.players[k].score
            && var r1 := r.(players := r.players[k := r.players[k].(status := PlayerStood, isActive := false)]);
               HandedOver(r1, r') && SameHands(r1.players, r'.players))
  {
    var k := FindSeat(r.players, id, true);
    if r.status == InProgress && k >= 0 {
      var r1 := r.(players := r.players[k := r.players[k].(status := PlayerStood, isActive := false)]);
      NextPlayerKeepsHands(r1);
      NextPlayerHandsOver(r1);
      assert r1.players[k].status != PlayerActive;
    }
  }

  // ---------------------------------------------------------------------------
  // Turn discipline

  /** Only the seat at `current` may hold the turn flag. */
  predicate TurnHeld(r: Round) {
    forall i :: 0 <= i < |r.players| && r.players[i].isActive ==> i == r.current
  }

  predicate NobodyOnTurn(ps: seq<Player>) {
    forall i :: 0 <= i < |ps| ==> !ps[i].isActive
  }

  /** From a round where nobody holds the turn, a NextPlayer that finds a
      playing seat leaves exactly that seat, now current, on turn. */
  lemma NextPlayerHandsTurnOver(r: Round)
    requires |r.players| > 0 && NobodyOnTurn(r.players) && SomeonePlaying(r.players)
    ensures NextPlayer(r).current < |NextPlayer(r).players|
    ensures TurnHeld(NextPlayer(r)) && NextPlayer(r).players[NextPlayer(r).current].isActive
  {
    NextPlayerPassesTurn(r);
  }

  /** From a round where nobody holds the turn, a NextPlayer that finds no playing
      seat completes the game with nobody on turn. */
  lemma NextPlayerLeavesNobodyOnTurn(r: Round)
    requires |r.players| > 0 && NobodyOnTurn(r.players) && !SomeonePlaying(r.players)
    ensures NextPlayer(r).status == Completed && NobodyOnTurn(NextPlayer(r).players)
  {
    NextPlayerEndsRound(r);
    var hd := DealerDraw(FaceUpAll(r.dealer.hand), r.deck);
    var d := Dealer(hd.0, HandScore(hd.0));
    assert forall i :: 0 <= i < |r.players| ==> Settle(r.players, d)[i].isActive == r.players[i].isActive;
  }

  /** Start from a round where nobody holds the turn leaves exactly seat 0 on turn. */
  lemma StartHandsTurnToSeatZero(r: Round)
    requires CanStart(r) && NobodyOnTurn(r.players)
    ensures TurnHeld(Start(r).0) && Start(r).0.players[0].isActive
  {
  }

  /** Hit and Stand keep the turn with the seat at `current`; while the game is
      still InProgress after a successful move, that seat does hold the turn. */
  lemma HitKeepsTurnDiscipline(r: Round, id: string)
    requires TurnHeld(r)
    ensures TurnHeld(Hit(r, id).round)
    ensures Hit(r, id).ok && Hit(r, id).round.status == InProgress ==>
              Hit(r, id).round.current < |Hit(r, id).round.players| && Hit(r, id).round.players[Hit(r, id).round.current].isActive
  {
    var k := FindSeat(r.players, id, true);
    if r.status == InProgress && k >= 0 && r.deck != [] {
      var c := r.deck[0].(face := true);
      var p := r.players[k];
      var h := p.hand + [c];
      var s := HandScore(h);
      if s > 21 {
        var r1 := r.(players := r.players[k := p.(hand := h, score := s, status := PlayerBusted, isActive := false)], deck := r.deck[1..]);
        assert NobodyOnTurn(r1.players);
        if SomeonePlaying(r1.players) {
          NextPlayerHandsTurnOver(r1);
        } else {
          NextPlayerLeavesNobodyOnTurn(r1);
        }
      }
    }
  }

  lemma StandKeepsTurnDiscipline(r: Round, id: string)
    requires TurnHeld(r)
    ensures TurnHeld(Stand(r, id).0)
    ensures Stand(r, id).1 && Stand(r, id).0.status == InProgress ==>
              Stand(r, id).0.current < |Stand(r, id).0.players| && Stand(r, id).0.players[Stand(r, id).0.current].isActive
  {
    var k := FindSeat(r.players, id, true);
    if r.status == InProgress && k >= 0 {
      var r1 := r.(players := r.players[k := r.players[k].(status := PlayerStood, isActive := false)]);
      assert NobodyOnTurn(r1.players);
      if SomeonePlaying(r1.players) {
        NextPlayerHandsTurnOver(r1);
      } else {
        NextPlayerLeavesNobodyOnTurn(r1);
      }
    }
  }

  /** Start gives the turn to seat 0 even when seat 0 was dealt a natural. Then no
      seat can Hit or Stand: seat 0 is no longer playing and nobody else holds
      the turn, so the round cannot proceed. */
  lemma NaturalOnSeatZeroStallsRound(r: Round, id: string)
    requires CanStart(r) && NobodyOnTurn(r.players)
    requires Start(r).0.players[0].status == PlayerBlackjack
    ensures !Hit(Start(r).0, id).ok && !Stand(Start(r).0, id).1
  {
    var r' := Start(r).0;
    StartTurn(r);
    assert forall i :: 0 <= i < |r'.players| ==> !Matches(r'.players[i], id, true);
    assert FindSeat(r'.players, id, true) < 0;
  }

  // ---------------------------------------------------------------------------
  // Dealer and settlement

  function FaceUpAll(h: seq<Card>): (r: seq<Card>)
    ensures |r| == |h| && forall i :: 0 <= i < |h| ==> r[i] == h[i].(face := true)
  {
    seq(|h|, i requires 0 <= i < |h| => h[i].(face := true))
  }

  /** The dealer draws face-up cards from the top while the score is below 17
      and the deck is not empty. Result: final hand and remaining deck. */
  function DealerDraw(hand: seq<Card>, deck: seq<Card>): (hd: (seq<Card>, seq<Card>))
    ensures |hd.1| <= |deck| && |hd.0| == |hand| + |deck| - |hd.1|
    ensures HandScore(hd.0) >= 17 || hd.1 == []
    decreases |deck|
  {
    if HandScore(hand) >= 17 || deck == [] then (hand, deck)
    else DealerDraw(hand + [deck[0].(face := true)], deck[1..])
  }

  /** Drawing the top card first and then j - 1 more gives the same hand as
      drawing j cards at once. */
  lemma FaceUpStep(hand: seq<Card>, deck: seq<Card>, j: nat)
    requires 0 < j <= |deck|
    ensures hand + FaceUpAll(deck[..j]) == (hand + [deck[0].(face := true)]) + FaceUpAll(deck[1..][..j - 1])
  {
    assert deck[..j] == [deck[0]] + deck[1..][..j - 1];
  }

  /** The dealer's draw takes a run of k top cards, face up, and stops at 17 or
      more or on an empty deck. */
  lemma {:induction false} DealerDrawTakesTopRun(hand: seq<Card>, deck: seq<Card>)
    ensures var hd := DealerDraw(hand, deck); var k := |deck| - |hd.1|;
      && 0 <= k <= |deck| && hd.1 == deck[k..]
      && hd.0 == hand + FaceUpAll(deck[..k])
      && (HandScore(hd.0) >= 17 || hd.1 == [])
    decreases |deck|
  {
    if HandScore(hand) >= 17 || deck == [] {
      assert hand + FaceUpAll(deck[..0]) == hand;
    } else {
      var hand' := hand + [deck[0].(face := true)];
      DealerDrawTakesTopRun(hand', deck[1..]);
      var hd := DealerDraw(hand', deck[1..]);
      assert DealerDraw(hand, deck) == hd;
      var k := |deck| - |hd.1|;
      assert hd.1 == deck[1..][k - 1..] == deck[k..];
      FaceUpStep(hand, deck, k);
      assert hd.0 == hand + FaceUpAll(deck[..k]);
    }
  }

  /** The dealer takes the shortest run of top cards that reaches 17, or the
      whole deck if none does. */
  lemma {:induction false} DealerDrawTakesShortestRun(hand: seq<Card>, deck: seq<Card>)
    ensures var hd := DealerDraw(hand, deck); var k := |deck| - |hd.1|;
      && 0 <= k <= |deck| && hd.1 == deck[k..]
      && hd.0 == hand + FaceUpAll(deck[..k])
      && (HandScore(hd.0) >= 17 || hd.1 == [])
      && forall j :: 0 <= j < k ==> HandScore(hand + FaceUpAll(deck[..j])) < 17
    decreases |deck|
  {
    DealerDrawTakesTopRun(hand, deck);
    if HandScore(hand) < 17 && deck != [] {
      var hand' := hand + [deck[0].(face := true)];
      DealerDrawTakesShortestRun(hand', deck[1..]);
      var hd := DealerDraw(hand', deck[1..]);
      assert DealerDraw(hand, deck) == hd;
      var k := |deck| - |hd.1|;
      forall j | 0 <= j < k ensures HandScore(hand + FaceUpAll(deck[..j])) < 17 {
        if j == 0 {
          assert hand + FaceUpAll(deck[..0]) == hand;
        } else {
          FaceUpStep(hand, deck, j);
        }
      }
    }
  }

  /** DealerTurn: every dealer card face up, draw to 17, settle, complete. */
  function DealerTurn(r: Round): (t: Round)
    ensures t.status == Completed && t.current == r.current && |t.players| == |r.players|
    ensures |t.deck| <= |r.deck|
  {
    var hd := DealerDraw(FaceUpAll(r.dealer.hand), r.deck);
    var dealer := Dealer(hd.0, HandScore(hd.0));
    r.(dealer := dealer, deck := hd.1, players := Settle(r.players, dealer), status := Completed)
  }

  /** After the dealer's turn all dealer cards are face up, the dealer score is the
      hand's score and is at least 17 unless the deck ran out, the deck lost
      exactly the cards the dealer drew, and the game is Completed with every seat
      settled. */
  lemma DealerTurnOutcome(r: Round)
    ensures var r' := DealerTurn(r); var k := |r.dealer.hand|;
      && r'.status == Completed
      && (forall i :: 0 <= i < |r'.dealer.hand| ==> r'.dealer.hand[i].face)
      && r'.dealer.score == HandScore(r'.dealer.hand)
      && (r'.dealer.score >= 17 || r'.deck == [])
      && |r'.dealer.hand| >= k && r'.dealer.hand[..k] == FaceUpAll(r.dealer.hand)
      && |r'.deck| <= |r.deck|
      && r'.deck == r.deck[|r.deck| - |r'.deck|..]
      && r'.dealer.hand[k..] == FaceUpAll(r.deck[..|r.deck| - |r'.deck|])
      && r'.players == Settle(r.players, r'.dealer)
      && r'.current == r.current
  {
    var hand := FaceUpAll(r.dealer.hand);
    DealerDrawTakesTopRun(hand, r.deck);
    var hd := DealerDraw(hand, r.deck);
    var k := |r.deck| - |hd.1|;
    FacesUp(hand, FaceUpAll(r.deck[..k]));
  }

  /** Two face-up runs joined are face up. */
  lemma FacesUp(a: seq<Card>, b: seq<Card>)
    requires forall i :: 0 <= i < |a| ==> a[i].face
    requires forall i :: 0 <= i < |b| ==> b[i].face
    ensures forall i :: 0 <= i < |a + b| ==> (a + b)[i].face
  {
  }

  /** int(float64(b) * 1.5): three halves of b, truncated toward zero. */
  function ThreeHalves(b: int): (r: int)
    ensures b >= 0 ==> 0 <= 2 * r <= 3 * b < 2 * r + 2
    ensures b < 0 ==> 2 * r - 2 < 3 * b <= 2 * r
  {
    if b >= 0 then (3 * b) / 2 else -((-3 * b) / 2)
  }

  /** What a seat gets back at settlement (its stake was debited when it bet). */
  function Payout(p: Player, dealer: Dealer): (v: int)
    ensures p.status == PlayerBusted ==> v == 0
    ensures v == 0 || v == p.bet || v == 2 * p.bet || v == p.bet + ThreeHalves(p.bet)
  {
    match p.status
    case PlayerBusted => 0
    case PlayerBlackjack =>
      if |dealer.hand| == 2 && dealer.score == 21 then p.bet else p.bet + ThreeHalves(p.bet)
    case _ =>
      if dealer.score > 21 then 2 * p.bet
      else if p.score > dealer.score then 2 * p.bet
      else if p.score == dealer.score then p.bet
      else 0
  }

  /** DetermineWinners: every seat's balance grows by its payout. */
  function Settle(ps: seq<Player>, dealer: Dealer): (qs: seq<Player>)
    ensures |qs| == |ps|
    ensures forall i :: 0 <= i < |ps| ==> qs[i] == ps[i].(balance := qs[i].balance)
  {
    seq(|ps|, i requires 0 <= i < |ps| => ps[i].(balance := ps[i].balance + Payout(ps[i], dealer)))
  }

  /** Settlement touches only balances, and a seat's balance grows by exactly one
      of: nothing (busted, or beaten by the dealer), its stake (push), twice its
      stake (a win), or its stake plus three halves of it (an unmatched natural).
      A natural is pushed only by a two-card dealer 21. */
  lemma SettlementOutcome(ps: seq<Player>, dealer: Dealer, i: nat)
    requires i < |ps|
    ensures var p, q := ps[i], Settle(ps, dealer)[i]; var gain := q.balance - p.balance;
      && q == p.(balance := q.balance)
      && (p.status == PlayerBusted ==> gain == 0)
      && (p.status == PlayerBlackjack ==>
            gain == if |dealer.hand| == 2 && dealer.score == 21 then p.bet else p.bet + ThreeHalves(p.bet))
      && (p.status == PlayerActive || p.status == PlayerStood ==>
            && (gain == 2 * p.bet <== dealer.score > 21 || p.score > dealer.score)
            && (gain == p.bet <== dealer.score <= 21 && p.score == dealer.score)
            && (gain == 0 <== dealer.score <= 21 && p.score < dealer.score))
  {
  }

  /** With a non-negative stake settlement never lowers a balance and never pays
      more than the stake plus three halves of it. */
  lemma SettlementBounds(p: Player, dealer: Dealer)
    requires p.bet >= 0
    ensures 0 <= Payout(p, dealer) <= p.bet + ThreeHalves(p.bet)
  {
  }

  /** The dealer busts at 24 against a seat that stood on 20 and a seat with a
      natural: the first wins its stake, the second wins three halves of it. */
  lemma DealerBustScenario(a: Player, b: Player, dealer: Dealer)
    requires dealer.score == 24
    requires a.status == PlayerStood && a.score == 20 && a.bet >= 0
    requires b.status == PlayerBlackjack && b.score == 21 && b.bet >= 0
    ensures var qs := Settle([a, b], dealer);
      qs[0].balance == a.balance + 2 * a.bet && qs[1].balance == b.balance + b.bet + ThreeHalves(b.bet)
  {
  }

  /** A natural against a three-card dealer 21 is paid at 3:2, not pushed: only a
      two-card dealer 21 pushes a natural. */
  lemma NaturalBeatsThreeCardTwentyOne(p: Player, c1: Card, c2: Card, c3: Card)
    requires p.status == PlayerBlackjack && p.bet >= 0
    ensures Payout(p, Dealer([c1, c2, c3], 21)) == p.bet + ThreeHalves(p.bet)
    ensures Payout(p, Dealer([c1, c2], 21)) == p.bet
  {
  }

  // ---------------------------------------------------------------------------
  // Next round

  function ResetSeat(p: Player): Player {
    p.(hand := [], score := 0, status := PlayerActive, bet := 0, isActive := false)
  }

  /** PrepareForNextRound with the freshly shuffled `deck`. The turn index is kept. */
  function Reset(r: Round, deck: seq<Card>): (t: Round)
    ensures |t.players| == |r.players| && NobodyOnTurn(t.players)
    ensures t.status == Betting && t.deck == deck
  {
    Round(seq(|r.players|, i requires 0 <= i < |r.players| => ResetSeat(r.players[i])),
          Dealer([], 0), deck, Betting, r.current)
  }

  /** The next round starts in Betting with the given deck and an empty dealer;
      every seat keeps its id, name and balance, and has an empty hand scoring 0,
      status Active, no stake and no turn. */
  lemma ResetOutcome(r: Round, deck: seq<Card>)
    ensures var r' := Reset(r, deck);
      && r'.status == Betting && r'.deck == deck && r'.dealer == Dealer([], 0)
      && |r'.players| == |r.players|
      && NobodyOnTurn(r'.players)
      && forall i :: 0 <= i < |r.players| ==>
           && r'.players[i].id == r.players[i].id && r'.players[i].name == r.players[i].name
           && r'.players[i].balance == r.players[i].balance
           && r'.players[i].hand == [] && r'.players[i].score == 0
           && r'.players[i].status == PlayerActive && r'.players[i].bet == 0
  {
  }
}
