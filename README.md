# Blackjack engine and in-memory game store, in Dafny

This project models the game engine of a multiplayer blackjack backend
(`internal/game`) and its in-memory game store (`internal/store/memory.go`),
and proves what the rules promise.

- **Cards** (`cards.dfy`): suits, ranks and the card record. `GetValue` gives an
  Ace 11, a ten or a picture card 10, a pip card its number, and the zero card 0.
- **Decks** (`deck.dfy`): class `Deck` holds the cards left, top card first.
  - The constructor builds the 52 cards suit by suit, Ace to King.
  - `Shuffle` is the Fisher-Yates loop. The random index is a nondeterministic
    choice, and the result is proved to be a permutation.
  - `DrawCard` takes the top card. On an empty deck it reports failure and
    returns the zero card.
- **Scoring** (`scoring.dfy`): a closed form `HandScore` of the two-pass score
  (count every Ace as 11, then turn Aces into 1 while over 21). It is proved to
  be the best total the hand can make.
- **Rules** (`rules.dfy`): every engine operation as a function from one round
  state to the next. A `Round` holds seats, dealer, deck, status and turn index.
  The lemmas here state what the operations promise:
  - seating;
  - bet bounds and escrow;
  - dealing order;
  - turn rotation and turn discipline;
  - the dealer's stop-at-17 rule;
  - payouts;
  - the reset between rounds.
- **Blackjack** (`blackjack.dfy`): class `BlackjackGame` with the engine's fields
  and one method per Go method, each written as the Go code is, with its loops.
  Every state-changing method is proved to perform exactly the matching `Rules`
  transition: `Snapshot() == Rules.X(old(Snapshot()))`. `CalculateHandScore` is
  proved equal to `HandScore`. `GetGameState` is proved to hide every balance but
  the viewer's.
- **Conservation** (`conservation.dfy`): for every card, the number of its
  copies over the deck, the dealer's hand and the seats' hands. Start (with a
  full enough deck), Hit, Stand, the turn hand-over and the dealer's turn keep
  it. AddPlayer and PlaceBet keep it too, and RemovePlayer takes out exactly
  the removed hand.
- **Store** (`memory_store.dfy`): class `MemoryStore` with the map of games by
  id and the map of per-table game lists. Its methods are the Go methods.
  - A class invariant `Valid` is kept by SaveGame and DeleteGame: every stored
    game is filed under its own id and appears in its table's list.

Where the code behaves unexpectedly, the model follows the code:

- AddPlayer on an id already seated while Waiting sets that seat's turn flag
  (`internal/game/blackjack.go:86-88`). It does not return the seat unchanged.
  - So re-joining is not idempotent (`Rules.JoinTwiceRaisesTurnFlag`).
  - Start raises seat 0's flag without clearing the others (`Rules.StartTurn`).
    So a seat raised by a re-join keeps its flag through Start, and two seats
    can hold the turn. That needs the game to go from Waiting to Betting with
    its flags intact. No code of the engine or the handlers does that (see
    below), so the round needs a direct assignment to the status field.
- RemovePlayer never moves the game to Completed, even when the table empties.
  That is done by the HTTP handler, which is not part of this model.
- A natural is pushed only by a two-card dealer 21 (`blackjack.go:349`).
  Against a three-card 21 it is paid 3:2 (`Rules.NaturalBeatsThreeCardTwentyOne`).
- The `IsActive` field is documented as "this player's turn" (`blackjack.go:36`).
  Start gives seat 0 that flag even when seat 0 holds a natural. Hit and Stand
  then refuse it, since it is no longer Active, and no other seat holds the
  turn, so the round stalls (`Rules.NaturalOnSeatZeroStallsRound`).
- PrepareForNextRound checks no status. It moves a game in any status,
  Waiting included, to Betting, and clears every turn flag (`Rules.ResetOutcome`).
  No handler assigns Betting: the only such line (`internal/api/handlers.go:96`)
  is commented out. In the model, `status` is an ordinary field.
- PrepareForNextRound does not reset `CurrentPlayerIndex` (`Rules.Reset` keeps it).

## Model

| member | source | states |
|---|---|---|
| Cards.GetValue | internal/game/card.go:37-62 | a card is worth at most 11 |
| Cards.ValueByRank | internal/game/card.go:37-62 | 11 exactly for an Ace; 10 exactly for Ten, Jack, Queen, King; 2..9 exactly for the pip ranks; 0 exactly for the zero card's empty rank |
| Cards.PipValue | internal/game/card.go:43-58 | the pip rank at position k of Two..Nine is worth k + 1 |
| Cards.ValueIgnoresAllButRank | internal/game/card.go:37-62 | two cards of the same rank have the same value, whatever their suit, face flag or stored value |
| Decks.StandardCards | internal/game/deck.go:13-31 | the fresh deck has 52 cards |
| Decks.StandardCardAt | internal/game/deck.go:15-28 | position 13·s + r of the fresh deck is suit s, rank r, face up, stored value 0 |
| Decks.StandardCardsDistinct | internal/game/deck.go:15-28 | no suit/rank pair occurs twice in the fresh deck |
| Decks.StandardCardsAreReal | internal/game/deck.go:15-28 | every fresh card has a real suit and rank, is face up and stores value 0 |
| Decks.Deck.constructor | internal/game/deck.go:13-31 | the new deck is exactly the suit-major, Ace-to-King sequence |
| Decks.Deck.Shuffle | internal/game/deck.go:34-42 | the shuffled deck is a permutation of the old one (same length, same multiset) |
| Decks.Deck.DrawCard | internal/game/deck.go:45-53 | succeeds iff the deck is not empty; on success returns the old top card and leaves the old tail, one card fewer; on failure returns the zero card and changes nothing |
| Decks.Deck.RemainingCards | internal/game/deck.go:56-58 | the number of cards left |
| Scoring.RawTotal | internal/game/blackjack.go:380-385 | the first pass: the sum of the card values, each at most 11, so at most 11 per card |
| Scoring.AceCount | internal/game/blackjack.go:380-385 | the first pass's Ace counter: never more Aces than cards |
| Scoring.HandScore | internal/game/blackjack.go:375-394 | the score is the raw total less a whole number of 10s; `Scoring.HandScoreIsBestTotal` states which total it is |
| Scoring.Conversions | internal/game/blackjack.go:388-391 | never converts more Aces than the hand holds |
| Scoring.AcesBounded | internal/game/blackjack.go:380-385 | a hand has no more Aces than cards, and the raw total is at least 11 per Ace |
| Scoring.HandScoreIsBestTotal | internal/game/blackjack.go:375-394 | the score is the raw total less 10 per converted Ace, at most every Ace converted; it is the largest such total not over 21, all Aces converted when every total busts, and never negative |
| Scoring.NoAdjustmentUnderTwentyTwo | internal/game/blackjack.go:388-391 | a raw total of at most 21 is the score |
| Scoring.HardBust | internal/game/blackjack.go:388-391 | a hand over 21 with every Ace counted as 1 scores over 21 |
| Scoring.ScoreExamples | internal/game/blackjack.go:375-394 | empty hand 0; Ace-King 21; Ace-Ace 12; Ace-Ace-Nine 21; Five-Six-Queen 21 |
| Rules.FindSeat | internal/game/blackjack.go:83-92 | the loops' seat search: the index of the first matching seat, or -1 when no seat matches |
| Rules.FindSeatAppend | internal/game/blackjack.go:116 | appending a seat leaves an earlier match in place and otherwise finds the new seat iff it matches |
| Rules.Join | internal/game/blackjack.go:81-120 | AddPlayer: when no seat comes back the list is unchanged; otherwise it keeps its length or gains exactly the new seat at the end; full contract in `Rules.JoinOutcome` |
| Rules.JoinOutcome | internal/game/blackjack.go:81-120 | AddPlayer returns nothing iff the id is new and the game is not Waiting, changing nothing; a new id in Waiting is appended with an empty hand, Active, no stake; a seated id is returned with only its turn flag raised, and raised only in Waiting |
| Rules.JoinKeepsIdsDistinct | internal/game/blackjack.go:81-120 | AddPlayer never seats an id twice |
| Rules.Leave | internal/game/blackjack.go:123-133 | RemovePlayer: a success drops exactly one seat; a failure changes nothing; full contract in `Rules.LeaveOutcome` |
| Rules.LeaveOutcome | internal/game/blackjack.go:123-133 | RemovePlayer succeeds iff the id is seated, drops exactly the first such seat keeping the others in order, and changes nothing otherwise |
| Rules.LeaveUnseats | internal/game/blackjack.go:123-133 | with distinct ids, the removed id is no longer seated |
| Rules.LeaveUndoesJoin | internal/game/blackjack.go:81-133 | removing a new id just added in Waiting restores the seat list |
| Rules.JoinTwiceRaisesTurnFlag | internal/game/blackjack.go:83-92 | adding the same new id twice in Waiting leaves one seat, with its turn flag raised by the second call |
| Rules.PlaceBet | internal/game/blackjack.go:136-161 | PlaceBet keeps every seat in place with its id, and a refused bet changes nothing; full contract in `Rules.PlaceBetOutcome` |
| Rules.PlaceBetOutcome | internal/game/blackjack.go:136-161 | succeeds iff Betting, minBet ≤ amount ≤ maxBet, the id is seated and its balance covers the amount; then only that seat changes, its stake is the amount and its balance drops by it; otherwise nothing changes |
| Rules.PlaceBetTwiceDebitsTwice | internal/game/blackjack.go:154-155 | a second bet overwrites the stake but debits the balance again |
| Rules.Deal | internal/game/blackjack.go:190-224 | DealInitialCards keeps the seat count, status and turn index and gives the dealer two cards; seat by seat in `Rules.DealtSeats`, `Rules.StartDealsSeat` and `Rules.StartDealsDealer` |
| Rules.DealtSeats | internal/game/blackjack.go:193-211 | seat j receives the draws 2j and 2j+1 |
| Rules.Start | internal/game/blackjack.go:164-188 | a refused Start changes nothing; a successful one leaves the game InProgress with turn index 0 and the same seats; full contract in `Rules.StartRefusal` and `Rules.StartTurn` |
| Rules.StartRefusal | internal/game/blackjack.go:164-174 | Start succeeds iff Betting with a seat and every stake nonzero; a refused Start changes nothing |
| Rules.StartTurn | internal/game/blackjack.go:176-187 | after Start the game is InProgress, turn index 0, seat 0 holds the turn, other turn flags unchanged |
| Rules.StartDealsSeat | internal/game/blackjack.go:193-211 | seat i gains draws 2i and 2i+1 face up, is rescored, and is Blackjack iff it scores 21 (or already was); id, stake and balance unchanged |
| Rules.StartDealsDealer | internal/game/blackjack.go:213-223 | the dealer gains draw 2n face up and 2n+1 face down, scores the face-up card alone, and the deck loses the 2n+2 cards dealt (or all it had) |
| Rules.StartWithFullDeck | internal/game/blackjack.go:190-224 | with at least 2n+2 cards every dealt card is the real card at its position from the top |
| Rules.Wrap | internal/game/blackjack.go:284 | the one-step wrap is `x % n`, and lands in range |
| Rules.Offset | internal/game/blackjack.go:284-300 | the distance round the table from the start seat to seat i, which leads back to i |
| Rules.ScanFrom | internal/game/blackjack.go:287-301 | the scan of NextPlayer: the first offset from the start whose seat is Active, passing only non-Active seats, or a full lap |
| Rules.NextPlayer | internal/game/blackjack.go:282-302 | keeps the seat count, and either keeps the status or completes the game; full contract in `Rules.NextPlayerPassesTurn` and `Rules.NextPlayerEndsRound` |
| Rules.NextPlayerPassesTurn | internal/game/blackjack.go:282-292 | when a seat is Active NextPlayer makes it current and raises its flag, every seat passed over is not Active, and nothing else changes |
| Rules.NextPlayerEndsRound | internal/game/blackjack.go:294-300 | when no seat is Active NextPlayer is the dealer's turn |
| Rules.NextPlayerKeepsHands | internal/game/blackjack.go:282-302 | NextPlayer changes only turn flags and balances, and raises the flag only of an Active seat |
| Rules.NextPlayerHandsOver | internal/game/blackjack.go:282-302 | NextPlayer is the hand-over stated without it: the first Active seat after `current` becomes current and takes the flag, the seats passed over are not Active, and nothing else changes; with no Active seat the dealer plays. Hands, stakes and statuses of all seats are kept |
| Rules.Hit | internal/game/blackjack.go:227-259 | a refused Hit changes nothing and returns the zero card; the seat count never changes; full contract in `Rules.HitOutcome` |
| Rules.Stand | internal/game/blackjack.go:262-279 | a refused Stand changes nothing; the seat count never changes; full contract in `Rules.StandOutcome` |
| Rules.HitOutcome | internal/game/blackjack.go:227-259 | Hit succeeds iff InProgress, the seat holds the turn and is Active, and the deck is not empty; a failure changes nothing and returns the zero card. On success the returned card is the top card face up and joins the hand, the seat is rescored, and it busts and loses the turn exactly when over 21. Without a bust the seat keeps the turn and only its hand and score change, with dealer, status and other seats as they were and the deck one card shorter. After a bust the busted round is handed over (`Rules.HandedOver`): the next Active seat after `current` takes the turn, or the dealer plays; no seat's hand, stake or status changes in the hand-over |
| Rules.StandOutcome | internal/game/blackjack.go:262-279 | Stand succeeds iff InProgress and the seat holds the turn and is Active; a failure changes nothing. On success the seat has Stood and lost the turn, hand and score untouched, and that round is handed over (`Rules.HandedOver`): the next Active seat after `current` takes the turn with everything else unchanged, or the dealer plays and the game completes; no seat's hand, stake or status changes in the hand-over |
| Rules.NextPlayerHandsTurnOver | internal/game/blackjack.go:287-292 | from a round with nobody on turn, a hand-over leaves exactly the new current seat on turn |
| Rules.NextPlayerLeavesNobodyOnTurn | internal/game/blackjack.go:296-300 | with nobody Active the hand-over completes the game with nobody on turn |
| Rules.StartHandsTurnToSeatZero | internal/game/blackjack.go:184-185 | from nobody on turn, Start leaves exactly seat 0 on turn |
| Rules.HitKeepsTurnDiscipline | internal/game/blackjack.go:227-259 | Hit keeps the turn flag on the current seat only, and while still InProgress after a success the current seat holds it |
| Rules.StandKeepsTurnDiscipline | internal/game/blackjack.go:262-279 | the same for Stand |
| Rules.NaturalOnSeatZeroStallsRound | internal/game/blackjack.go:184-185 | when Start deals seat 0 a natural, no id can Hit or Stand afterwards |
| Rules.DealerDraw | internal/game/blackjack.go:314-324 | the hand grows by exactly as many cards as the deck loses, and the loop ends with a score of at least 17 or an empty deck; full contract in `Rules.DealerDrawTakesShortestRun` |
| Rules.DealerDrawTakesTopRun | internal/game/blackjack.go:315-324 | the dealer draws a run of top cards, face up, leaving the rest of the deck, and stops at 17 or on an empty deck |
| Rules.DealerDrawTakesShortestRun | internal/game/blackjack.go:315-324 | the run is the shortest: every shorter run scores below 17 |
| Rules.DealerTurn | internal/game/blackjack.go:305-332 | the game ends Completed with the same seats and turn index and no more cards in the deck; full contract in `Rules.DealerTurnOutcome` |
| Rules.DealerTurnOutcome | internal/game/blackjack.go:305-332 | after the dealer's turn every dealer card is face up, the score is the hand's score and at least 17 unless the deck ran out, the deck lost exactly the cards drawn, every seat is settled, and the game is Completed |
| Rules.ThreeHalves | internal/game/blackjack.go:354 | three halves of the stake, truncated toward zero |
| Rules.Payout | internal/game/blackjack.go:342-370 | a busted seat gets nothing back; any seat gets back nothing, its stake, twice its stake, or its stake plus three halves; case by case in `Rules.SettlementOutcome` |
| Rules.Settle | internal/game/blackjack.go:335-372 | DetermineWinners keeps the seat count and changes nothing of a seat but its balance; full contract in `Rules.SettlementOutcome` |
| Rules.SettlementOutcome | internal/game/blackjack.go:335-372 | settlement changes only balances: busted gets 0; a natural gets its stake back against a two-card dealer 21, else stake plus three halves; others get twice the stake on a dealer bust or a higher score, the stake on a tie, nothing on a lower score |
| Rules.SettlementBounds | internal/game/blackjack.go:335-372 | with a non-negative stake a payout is between 0 and stake plus three halves |
| Rules.DealerBustScenario | internal/game/blackjack.go:349-361 | a dealer bust pays a stood 20 twice its stake and a natural its stake plus three halves |
| Rules.NaturalBeatsThreeCardTwentyOne | internal/game/blackjack.go:349-355 | a natural is paid 3:2 against a three-card dealer 21 and pushed against a two-card one |
| Rules.Reset | internal/game/blackjack.go:397-418 | the next round is Betting with the new deck, the same number of seats and nobody on turn; full contract in `Rules.ResetOutcome` |
| Rules.ResetOutcome | internal/game/blackjack.go:397-418 | the next round is Betting with the new deck and an empty dealer; every seat keeps id, name and balance and is emptied, Active, with no stake and no turn |
| Conservation.StartConservesCards | internal/game/blackjack.go:164-224 | a successful Start with at least 2n+2 cards in the deck keeps every card's number of copies over deck, dealer hand and seat hands |
| Conservation.HitConservesCards | internal/game/blackjack.go:227-259 | Hit, refused or not, busting or not, keeps every card's number of copies on the table |
| Conservation.StandConservesCards | internal/game/blackjack.go:262-279 | Stand keeps every card's number of copies on the table |
| Conservation.NextPlayerConservesCards | internal/game/blackjack.go:282-302 | the turn hand-over, and the dealer's turn it may start, keeps every card's number of copies on the table |
| Conservation.DealerTurnConservesCards | internal/game/blackjack.go:305-332 | the dealer's turn moves cards from the deck to the dealer's hand and keeps every card's number of copies on the table |
| Conservation.JoinConservesCards | internal/game/blackjack.go:81-120 | AddPlayer keeps every card's number of copies in the seat hands (a new seat has an empty hand) |
| Conservation.PlaceBetConservesCards | internal/game/blackjack.go:136-161 | PlaceBet keeps every card's number of copies in the seat hands |
| Conservation.LeaveDiscardsHand | internal/game/blackjack.go:123-133 | RemovePlayer takes out exactly the removed seat's hand: the copies left in the seats plus those in that hand are the copies before |
| Blackjack.BlackjackGame.constructor | internal/game/blackjack.go:59-78 | a new game: the given table and bet limits, a shuffled fresh 52-card deck, no seats, an empty dealer, Waiting, turn index 0 |
| Blackjack.BlackjackGame.AddPlayer | internal/game/blackjack.go:81-120 | performs `Rules.Join` on the seats and returns its seat |
| Blackjack.BlackjackGame.RemovePlayer | internal/game/blackjack.go:123-133 | performs `Rules.Leave` |
| Blackjack.BlackjackGame.PlaceBet | internal/game/blackjack.go:136-161 | performs `Rules.PlaceBet` |
| Blackjack.BlackjackGame.Start | internal/game/blackjack.go:164-188 | performs `Rules.Start` on the whole game state |
| Blackjack.BlackjackGame.DealInitialCards | internal/game/blackjack.go:190-224 | performs `Rules.Deal` |
| Blackjack.BlackjackGame.DealSeats | internal/game/blackjack.go:193-211 | the seat loop gives every seat its two cards (`Rules.DealtSeats`) and takes 2n cards off the deck |
| Blackjack.BlackjackGame.DealSeat | internal/game/blackjack.go:194-210 | one pass of the seat loop: seat i becomes `Rules.DealtSeat` of the next two draws |
| Blackjack.BlackjackGame.DealDealer | internal/game/blackjack.go:213-223 | the dealer gains the next draw face up and the one after face down, and scores the first |
| Blackjack.BlackjackGame.Hit | internal/game/blackjack.go:227-259 | performs `Rules.Hit`, returning its card and flag |
| Blackjack.BlackjackGame.Stand | internal/game/blackjack.go:262-279 | performs `Rules.Stand` |
| Blackjack.BlackjackGame.NextPlayer | internal/game/blackjack.go:282-302 | performs `Rules.NextPlayer` |
| Blackjack.BlackjackGame.DealerTurn | internal/game/blackjack.go:305-332 | performs `Rules.DealerTurn` |
| Blackjack.BlackjackGame.DetermineWinners | internal/game/blackjack.go:335-372 | every seat's balance becomes the `Rules.Settle` one; nothing else changes |
| Blackjack.BlackjackGame.CalculateHandScore | internal/game/blackjack.go:375-394 | the two-pass loop computes `HandScore` |
| Blackjack.BlackjackGame.PrepareForNextRound | internal/game/blackjack.go:397-418 | a fresh shuffled 52-card deck, and the state becomes `Rules.Reset` of the old one with that deck |
| Blackjack.BlackjackGame.GetGameState | internal/game/blackjack.go:421-457 | the view copies the game's id, status, dealer, table and limits, and every seat's public fields and hand; a seat's balance is shown iff it is the viewer's |
| Store.FirstOpen | internal/store/memory.go:79-85 | the position of the first game that is not Completed, with every earlier one Completed, or the list length |
| Store.FirstWithId | internal/store/memory.go:104-110 | the position of the first game with the id, with no earlier match, or the list length |
| Store.RemoveFirstCutsFirstMatch | internal/store/memory.go:102-111 | removing cuts out exactly the first match and keeps the rest in order; with no match the list is unchanged |
| Store.RemoveFirstKeepsOthers | internal/store/memory.go:102-111 | removing drops one entry iff there is a match; every game with another id survives and nothing new appears |
| Store.RemoveFirstUndoesAppend | internal/store/memory.go:26-114 | deleting a game just appended under an id absent from the list gives the list back |
| Store.MemoryStore.constructor | internal/store/memory.go:18-23 | a new store has both indices empty and is valid |
| Store.MemoryStore.SaveGame | internal/store/memory.go:26-40 | files the game under its id, replacing any earlier one, and appends it to its table's list even when it is there already, so that list grows by exactly one; keeps `Valid` |
| Store.MemoryStore.GetGame | internal/store/memory.go:43-53 | succeeds iff the id is stored, returning that game; otherwise GameNotFound |
| Store.MemoryStore.GetTableGames | internal/store/memory.go:56-66 | the table's list, or an empty list, with no error, for an unknown table |
| Store.MemoryStore.GetActiveTableGame | internal/store/memory.go:69-86 | TableNotFound for an unknown table; otherwise the earliest game of the list that is not Completed, or NoActiveGame if every game is Completed |
| Store.MemoryStore.DeleteGame | internal/store/memory.go:89-114 | GameNotFound with no change for an unknown id. Otherwise it removes the id from the map and the first entry with that id from the stored game's table list, and keeps `Valid`; from a valid store that list then has exactly one entry fewer |
| Store.MemoryStore.GetAllGames | internal/store/memory.go:117-127 | one entry per stored id, ids distinct, each entry the game stored under its id, and every stored game listed |

## Left out

- Timestamps (`CreatedAt`, `UpdatedAt`) and the `time` package: clock reads are not modelled.
- Game ids: `uuid.New()` is replaced by a constructor parameter.
- The random source of `Shuffle`: the random index is a nondeterministic choice in [0, i], so any Fisher-Yates outcome is allowed.
- The debug `fmt.Println` calls in AddPlayer: output only.
- The `sync.RWMutex` of the memory store, and concurrency in general: every store operation is modelled as one atomic step.
- Integer width: Go's `int` is 64-bit, but the model uses unbounded integers, so overflow of balances and stakes is not modelled.
- Rules.ThreeHalves: `int(float64(b) * 1.5)` is modelled as exact truncation toward zero. The two agree while the product 1.5·|b| stays below 2^52, where a float64 still holds halves exactly, that is for |b| < 2^53/3 (about 3.0·10^15). Larger odd stakes can round up instead.
- Blackjack.BlackjackGame.AddPlayer: Go returns a pointer into the seat list for a seated id and a pointer to a copy for a new one. The model returns the seat's value, so later writes through that pointer are not modelled.
- Store.MemoryStore.DeleteGame: Go's `append(tableGames[:i], tableGames[i+1:]...)` shifts the shared backing array, so a slice obtained earlier from GetTableGames changes too. The model's lists are values, so that aliasing is not modelled.
- Store.MemoryStore.GetAllGames: Go's map iteration order is unspecified. The model fixes no particular order.
- Blackjack.BlackjackGame.NextPlayer: requires at least one seat. Go would divide by zero with none. Its only callers, Hit and Stand, always have a seat.
- Blackjack.BlackjackGame.GetGameState: the Go result is a `map[string]interface{}` for JSON. The model returns a record with the same keys, the balance being optional.
- `CalculateHandScore`'s receiver: it reads no game field, so the model's method is `static`. Its closed form is `Scoring.HandScore`.
- Card conservation where the code itself breaks it. A failed draw during the deal appends the zero card `Card{}` (`blackjack.go:195-220`), so Start keeps the counts only with at least 2n+2 cards in the deck. RemovePlayer discards the removed hand (`blackjack.go:127`), and `Conservation.LeaveDiscardsHand` states exactly what is lost. PrepareForNextRound replaces the deck and empties every hand, so no count carries over to the next round.
- The HTTP handlers, the websocket hub, the database layer and the server's `main`: these are not part of this model.
