# PokerGame table model

A Dafny model of the Texas Hold'em table server in `server.js`. It covers the
`PokerGame` class, which is one room's table, and the connection handlers
that create rooms and handle a seat's disconnect and reconnect. The model
follows the class's own lifecycle:

- seating a player, where the first player becomes host;
- opening a hand: the sweep of long-disconnected seats, the seat pass, the
  dealer move, the blinds and the two dealing passes;
- the action handler for fold, check, call and raise, with its turn guard;
- the round-close check, the street reveals and the two turn scans;
- the showdown split and the last-player-standing payout;
- the host's kick, and the disconnect and reconnect handlers.

Modules, in dependency order:

- `Wrappers`: `Option`.
- `Cards`: cards, the ordered 52-card build and the shuffle.
- `Seats`: the seat record, chip sums, the active-seat filter, `findIndex`,
  the ring step `(i + 1) % n`, the two turn scans, the timeout sweep and new
  seats.
- `Opening`: the seats as `startRound` leaves them, written as functions, and
  the lemmas about them.
- `Settlement`: the showdown winners, the split and the pot taken by the
  last seat.
- `Table`: the class `PokerGame`. Its fields are those of the source, and its
  methods change them step by step as the source does. The value `Hand` holds
  the fields that betting changes, and pure functions of a `Hand`
  (`ActionTaken`, `RoundEnded`, `StageAdvanced`, `Revealed` and the rest) state
  each betting step on that value.
- `Rooms`: the room id of a connection and the room registry.
- `Findings`: the settlement and the room lookup as written, together with
  the counterexamples described under Findings.

Each state-changing method's `ensures` ties the new state to the old one.
The betting methods equate `Snapshot()`, their fields as one `Hand`, with a
function of the old snapshot. The other methods state each field they change
through the functions in `Seats`, `Opening` and `Settlement`. Lemmas state
those functions' properties. The class invariant `Valid()` covers several
facts:

- no stack, bet or pot is negative;
- the cards on the board match the stage;
- the deck holds distinct cards and enough of them for the reveals still to
  come.

Every public method preserves `Valid()`. Each also states its chip
accounting, `Total()`, the sum of the stacks plus the pot:

- no action, blind, deal or turn move changes `Total()`;
- a kick lowers it by the kicked seat's stack;
- the timeout sweep lowers it by the stacks of the seats it removes;
- the showdown split lowers it by the pot's odd chips, which nobody is paid,
  or by the whole pot when no active seat was scored (every evaluation threw,
  or no seat was active);
- a new hand (`StartRound`) resets the pot to 0 and drops whatever it holds,
  in the model as in the source (server.js:125-132). The pot is not empty then
  when the seat on turn checks or raises after the showdown: the bet to match
  is back at the big blind, so a check there pays 100.

## Model

| member | source | states |
|---|---|---|
| Cards.BuildDeck | server.js:94-99 | the deck is built suit by suit, values inside: position k holds suit k/13 and value k%13, 52 cards |
| Cards.BuiltDeckIsFull | server.js:92-99 | the built deck has 52 distinct cards, each a standard card, and every standard card is in it |
| Cards.Shuffle | server.js:100-103 | the shuffled deck is the built deck reordered by a permutation of its positions |
| Cards.ShufflePreservesDistinct | server.js:100-103 | reordering by a permutation keeps the cards distinct |
| Cards.ShuffleKeepsCards | server.js:100-103 | the shuffle of a deck of distinct cards holds exactly the same cards, as a multiset |
| Cards.PermutationCovers | server.js:100-103 | a permutation of the positions picks every position |
| Cards.DistinctPrefix | server.js:159 | popping cards off the end of a deck of distinct cards leaves distinct cards |
| Seats.SumChipsUpdate | server.js:172-180 | changing one seat changes the chip sum by exactly that seat's difference |
| Seats.RemoveSeatSpec | server.js:387 | `splice(t, 1)` keeps the seats before t, shifts those after t down one, and removes exactly t's chips |
| Seats.IndexOfAfterRemove | server.js:387-396 | any other seat is still found by its id after the target is spliced out |
| Seats.IndexOf | server.js:185 | `find`/`findIndex` by id: the first seat with that id, or -1 exactly when no seat has it |
| Seats.ActiveUpToSpec | server.js:223 | the active filter holds exactly the active positions below k, in increasing order |
| Seats.ActiveIndicesSpec | server.js:223 | `filter(active)`: exactly the active seats, in increasing order; it is empty exactly when no seat is active |
| Seats.SoleActive | server.js:225-226 | with one active seat, that seat is the only active one |
| Seats.ActiveUpToSameStatus | server.js:196-213 | seats with the same statuses have the same active filter |
| Seats.SameStatusActive | server.js:247 | seats with the same statuses have the same active seats |
| Seats.FundedMatchesActive | server.js:134-145 | once the seat pass has run, the active seats are exactly the seats that had chips |
| Seats.NextIsMod | server.js:150-152 | the ring step `Next` equals `(i + 1) % n` |
| Seats.NextTwoDiffer | server.js:151-152 | with at least two seats, the small and big blind seats differ |
| Seats.SlotClosed | server.js:287-291 | k ring steps from start reach `(start + k) % n` |
| Seats.SlotCovers | server.js:287-291 | n steps round the ring visit every seat |
| Seats.FirstActiveStepSpec | server.js:290-293 | the scan stops at the first active seat after k steps, or after n steps |
| Seats.FirstActiveStepFinds | server.js:287-297 | the scan finds a seat exactly when some seat is active, and the seat it finds is the nearest active seat |
| Seats.NearestActiveUnique | server.js:287-297 | the nearest active seat is unique |
| Seats.NextTurnFromSpec | server.js:284-299 | the turn moves to the nearest active seat after the current one, and stays where it is when no seat is active |
| Seats.SeekFromSpec | server.js:276-282 | `findNextActivePlayer` stops at the nearest active seat at or after start |
| Seats.ScanForActive | server.js:287-297 | the loop of `nextTurn`: it counts its steps, skips only inactive seats, and stops on an active seat or after n steps |
| Seats.SeekActive | server.js:277-280 | the loop of `findNextActivePlayer`: it stops on the nearest active seat |
| Seats.Retained | server.js:106-119 | (definition) the seats not disconnected for more than five minutes, in order |
| Seats.RetainedSpec | server.js:106-119 | the sweep keeps exactly the seats not disconnected for more than 5 minutes; kept and dropped seats split the seats and their chips |
| Seats.RetainedStacksOk | server.js:109-118 | the sweep keeps stacks non-negative and never adds seats |
| Seats.NewSeat | server.js:71-83 | the fresh seat: 10000 chips, active, empty hand, host flag, and the given name or "Player n+1" when the name is empty |
| Opening.PreparedSeats | server.js:134-145 | the seat pass keeps ids, names and stacks; seats with chips become active with an empty hand, no bet and no flags; the others sit out |
| Opening.PreparedActive | server.js:134-148 | after the seat pass the active count equals the count of seats with chips |
| Opening.PreparedChips | server.js:134-145 | the seat pass moves no chips |
| Opening.PreparedStacks | server.js:134-145 | the seat pass keeps stacks non-negative |
| Opening.PostedBlind | server.js:168-182 | (definition) the seat pays the blind, or its whole stack when short, carries that as its bet, and is flagged as small or big blind |
| Opening.PostTwoSpec | server.js:168-182 | the blind seats each pay their blind, or their whole stack when it is short, and are flagged; no other seat changes; the pot takes what they paid |
| Opening.PostTwoStacks | server.js:168-182 | posting the blinds keeps stacks non-negative |
| Opening.PostTwoChips | server.js:168-182 | the chips the blinds take from the stacks are the chips they add to the pot |
| Opening.BlindedStatus | server.js:150-155 | the blinds change no seat's status |
| Opening.PassCard | server.js:157-161 | the card a seat gets in the second pass is the one below the first pass's cards |
| Opening.WithHoleCardsKeeps | server.js:157-161 | dealing changes only active seats' hands, keeps the active seats and moves no chips |
| Opening.WithHoleCardsTotals | server.js:157-161 | dealing keeps the active seats, the chip sum and non-negative stacks |
| Opening.WithHoleCardsDealt | server.js:157-161 | every active seat ends with exactly two cards: its card from the top pass, then its card from the second pass |
| Opening.OpenedSeatsSpec | server.js:121-163 | the seats of a new hand are the swept seats readied, with both blinds posted and flagged and the hole cards dealt; blinds plus stacks equal the old stacks |
| Opening.OpenedBlinds | server.js:134-155 | readied and blinded seats keep identity, carry both blind flags and hold empty hands |
| Opening.OpenedBlindsChips | server.js:150-182 | the pot after the blinds is the small blind plus the big blind, each capped by its seat's stack |
| Settlement.BestUpToSpec | server.js:311-331 | the running best rank is the highest rank any seat scored so far, or -1 when none did |
| Settlement.AtScoreSpec | server.js:311-331 | the running winners are exactly the seats scoring the given rank, in seat order |
| Settlement.Winners | server.js:311-331 | (definition) the active seats scored with the best rank, in seat order |
| Settlement.WinnersSpec | server.js:311-331 | winners are exactly the active seats whose cards the evaluator scores with the highest rank; a seat whose evaluation throws is never a winner; some seat wins exactly when some active seat was scored |
| Settlement.SelectWinners | server.js:311-331 | the loop of `settleShowdown` returns exactly the winners and the highest rank |
| Settlement.WinShare | server.js:333 | `Math.floor(pot / k)`: k shares fit in the pot and fewer than k chips are left over |
| Settlement.TakePot | server.js:351-353 | the last seat takes the whole pot; no other seat changes, and the seats' chips rise by the pot |
| Settlement.PaidOutStep | server.js:334-335 | paying one more winner credits only that seat |
| Settlement.PaidOutKeeps | server.js:334-335 | paying winners changes only stacks and keeps them non-negative |
| Settlement.WinnersSameCards | server.js:311-331 | clearing bets never changes who wins |
| Table.ActionApplied | server.js:193-213 | only the acting seat, the pot, the bet to match and the aggressor change; a fold folds the seat and any other action keeps its status; no chip is created or lost, the pot never shrinks, and stacks stay non-negative |
| Table.ActionTaken | server.js:193-217 | the action applied, and the acted list afterwards holds exactly the seats it held plus the seat on turn |
| Table.Revealed | server.js:253-264 | only the stage, the deck and the board change, and the stage moves to the next one |
| Table.RevealedMovesCards | server.js:253-264 | the deck loses cards from its end only, the board gains exactly the stage's cards, each taken from the deck, and a distinct deck with no card on the board stays so |
| Table.StreetOpened | server.js:253-273 | seats and pot are unchanged, the stage moves on, and the turn lands on an active seat whenever one exists |
| Table.StageAdvancedOutcome | server.js:244-274 | next stage, bets and actions cleared, the round counted; the seats keep all but bets and stacks, and before the river no chip moves |
| Table.RoundEndedLone | server.js:222-228 | one active seat left: it takes the whole pot, no other seat and no other field changes, and no chip is lost |
| Table.RoundEndedClosed | server.js:230-238 | a closed round with other than one active seat moves to the next stage with the round reset, keeping the seats, and moves no chip before the river |
| Table.RoundEndedOpen | server.js:230-241 | an open round with other than one active seat changes only the turn, which lands on an active seat outside the showdown |
| Table.RoundCleared | server.js:247-251 | (definition) bets cleared, the bet at the big blind, no actions, no aggressor, the round counted |
| Table.ShowdownPaid | server.js:265-268 | (definition) showdown, the winners paid the floor share, the pot emptied |
| Table.StageAdvanced | server.js:244-274 | (definition) the resets, then the showdown from the river or the next street |
| Table.TurnPassed | server.js:284-299 | (definition) outside showdown the turn moves to the nearest active seat after it |
| Table.PlayContinued | server.js:230-241 | (definition) a closed round advances the stage, an open one passes the turn |
| Table.RoundEnded | server.js:222-242 | (definition) one active seat takes the pot, otherwise `PlayContinued` |
| Table.KickVerdict | server.js:360-374 | (definition) missing kicker or target, then not host, then self-kick, in that order |
| Table.CallAmount | server.js:197-203 | a check or call pays what is missing to match the bet, capped by the stack; afterwards the seat has matched or has nothing left |
| Table.PokerGame.constructor | server.js:45-60 | a new table: no seats, no host, empty deck and board, pot 0, waiting, bet at the big blind |
| Table.PokerGame.AddPlayer | server.js:62-89 | a full table refuses and nothing changes; otherwise the new seat is appended, the first seat becomes host, and the second seat of a waiting table opens a hand |
| Table.PokerGame.CleanupDisconnectedPlayers | server.js:106-119 | the seats become the swept seats, and the table loses exactly the dropped seats' chips |
| Table.PokerGame.CreateDeck | server.js:91-104 | the deck is the built deck shuffled: 52 distinct standard cards, exactly the built ones, every standard card among them |
| Table.PokerGame.StartRound | server.js:121-166 | after the sweep, fewer than two funded seats leave everything else unchanged; otherwise the hand opens from the swept seats, no chip is lost, and the turn is on an active seat |
| Table.PokerGame.OpenHand | server.js:125-165 | the table is exactly the opened hand: readied seats, blinds, hole cards, the rest of the deck, and the turn on the nearest active seat after the seat following the big blind (the source sets the seat after the big blind, then `nextTurn` moves on once more) |
| Table.PokerGame.ResetAndReady | server.js:125-155 | the hand's fields are reset, the deck is the shuffle, the dealer has moved one seat, and the blinds are posted |
| Table.PokerGame.ReadySeats | server.js:134-155 | the seat pass, the dealer move and the blinds, with the pot holding exactly the blinds paid |
| Table.PokerGame.ResetHand | server.js:125-132 | preflop, empty board, an empty pot, the bet at the big blind, no actions, and a fresh shuffled deck |
| Table.PokerGame.PrepareSeats | server.js:134-145 | the seats become the readied seats; the active count is the funded count |
| Table.PokerGame.PostBlinds | server.js:150-155 | the dealer moves one seat and the next two seats post the blinds; the chip total is unchanged |
| Table.PokerGame.PostBlind | server.js:168-182 | a seat index past the end changes nothing; otherwise the seat pays the blind, or all its chips when short, and the pot takes the same |
| Table.PokerGame.DealAndOpenTurn | server.js:157-165 | hole cards are dealt from the top of the deck, and the turn goes to the nearest active seat after the seat following the big blind |
| Table.PokerGame.DealHoleCards | server.js:157-161 | the seats hold their two hole cards, the deck loses exactly two cards per active seat, and the deck's cards stay distinct |
| Table.PokerGame.DealTwoRounds | server.js:157-161 | the two dealing passes produce exactly the dealt seats |
| Table.PokerGame.DealRound | server.js:158-160 | one pass: every active seat in order takes the top card, and other seats are untouched |
| Table.PokerGame.OpenTurn | server.js:163-165 | the turn goes to the nearest active seat after the given seat |
| Table.PokerGame.HandleAction | server.js:184-220 | a caller not on turn, or not active, changes nothing; otherwise the hand afterwards is `RoundEnded` of `ActionTaken` by the caller's seat. A fold folds the caller, other actions change no status, the chip total is kept until the showdown, and the turn stays on an active seat |
| Table.PokerGame.Act | server.js:190-219 | the hand afterwards is `RoundEnded` of `ActionTaken`: the action, the acted record, then one of the three outcomes of the round-close rule |
| Table.PokerGame.TakeAction | server.js:193-217 | the hand afterwards is exactly `ActionTaken` of the hand before: the action, and the seat on turn recorded as having acted, once; the chip total is kept |
| Table.PokerGame.ApplyAction | server.js:193-213 | the hand afterwards is `ActionApplied` of the hand before. Fold: folded, bet cleared. Check or call: pays the call amount. Raise with enough chips: pays the big blind, sets the bet, and becomes the aggressor. Anything else: no change |
| Table.PokerGame.FoldStep | server.js:193-195 | the seat is folded and its bet cleared, no chip moves; the hand is `ActionApplied` for a fold |
| Table.PokerGame.CallStep | server.js:196-203 | the seat pays the call amount into the pot; the hand is `ActionApplied` for a check or a call |
| Table.PokerGame.RaiseStep | server.js:204-212 | with at least the big blind, the seat pays it, the bet becomes the seat's new bet, and it is the aggressor; otherwise nothing changes; the hand is `ActionApplied` for a raise |
| Table.PokerGame.CheckRoundEnd | server.js:222-242 | the hand afterwards is `RoundEnded` of the hand before: one active seat takes the pot and nothing else changes; a closed round advances the stage; otherwise the turn moves to the nearest active seat |
| Table.PokerGame.AdvanceRound | server.js:230-241 | the hand afterwards is `PlayContinued` of the hand before: when all active seats have acted and matched (or are all-in), the next stage with the round reset; otherwise only the turn moves on |
| Table.PokerGame.NextStage | server.js:244-274 | the hand afterwards is `StageAdvanced` of the hand before: bets cleared and the round reset; streets reveal their cards and restart the turn from the dealer; the river goes to the showdown and pays the winners |
| Table.PokerGame.ResetRound | server.js:247-251 | the hand afterwards is `RoundCleared`: bets cleared, the bet at the big blind, no actions, no aggressor, and the betting round counted |
| Table.PokerGame.ClearBets | server.js:247 | every bet is 0; nothing else changes |
| Table.PokerGame.OpenStreet | server.js:253-273 | the hand afterwards is `StreetOpened` of the hand before: the stage's cards are revealed as `Revealed` states, the turn restarts at the first active seat after the dealer and, outside showdown, moves on once, landing on an active seat |
| Table.PokerGame.RevealStage | server.js:253-264 | the hand afterwards is `Revealed` of the hand before. Flop: burn one card, then three to the board in pop order. Turn and river: burn one card, then one to the board |
| Table.PokerGame.RevealFlop | server.js:253-256 | burn the last card, then the next three to the board in pop order; the hand afterwards is `Revealed` |
| Table.PokerGame.RevealOne | server.js:257-264 | burn the last card, then the next one to the board, and the stage moves on; the hand afterwards is `Revealed` |
| Table.PokerGame.PopCard | server.js:255 | the last card of the deck is taken off |
| Table.PokerGame.GoToShowdown | server.js:265-268 | the hand afterwards is `ShowdownPaid`: showdown, with the winners paid their equal shares |
| Table.PokerGame.FindNextActivePlayer | server.js:276-282 | the turn goes to the nearest active seat after the dealer |
| Table.PokerGame.NextTurn | server.js:284-299 | the hand afterwards is `TurnPassed`: at the showdown nothing moves; otherwise the turn goes to the nearest active seat after the current one, and stays put when no seat is active |
| Table.PokerGame.SettleShowdown | server.js:310-335 | every winner gets the floor share and no other stack changes; only the odd chips leave the table, or the whole pot when no seat was scored |
| Table.PokerGame.PayWinners | server.js:333-335 | each winner's stack rises by the share; the sum rises by share times winners |
| Table.PokerGame.SettleWinner | server.js:351-358 | the last seat takes the pot and the chip total is kept |
| Table.PokerGame.KickPlayer | server.js:360-400 | the verdict follows the source's checks in order, and a refusal changes nothing; a kick splices out the target, keeps the host seated, loses exactly its stack, and rescans the turn when it was the target's |
| Table.PokerGame.RemoveSeat | server.js:387-391 | the seat is spliced out with its chips, and the turn is rescanned when it was that seat's |
| Table.PokerGame.Disconnect | server.js:453-470 | an unknown id changes nothing; a seat off turn is marked disconnected with the time and nothing else changes; for the seat on turn, the hand afterwards is `RoundEnded` of the hand with that seat stamped and folded |
| Table.PokerGame.MarkDisconnected | server.js:459-461 | the seat is disconnected, stamped with the time, and no chip moves |
| Table.PokerGame.FoldOnTurn | server.js:462-466 | the hand afterwards is `RoundEnded` of the hand with the seat on turn folded |
| Table.PokerGame.DisconnectOnTurn | server.js:459-466 | the hand afterwards is `RoundEnded` of the hand with the seat on turn stamped with the time and folded; the seat ends folded with that time |
| Table.PokerGame.Reconnect | server.js:472-481 | the caller's first seat, if disconnected, becomes active; otherwise nothing changes |
| Rooms.RoomIdFor | server.js:429 | a missing or empty room id gives "room1", any other is used as given |
| Rooms.Registry.constructor | server.js:425 | no rooms at first |
| Rooms.Registry.GetOrCreate | server.js:432-434 | every room id, whatever its name, ends with a table of its own: a known room keeps its table; an unknown room gets a fresh waiting table, and no other room changes |
| Findings.SettleWinnerAsWritten | server.js:351-358 | as written, the last seat is paid and the pot keeps its value, so the table's chips grow by the pot |
| Findings.SettleWinnerReplayAsWritten | server.js:351-358 | two settlements as written create two pots' worth of chips where there was one |
| Findings.DisconnectReplaysSettlement | server.js:453-466 | the concrete table where a disconnect after the fold pays 150 twice: 20000 chips become 20300 |
| Findings.SettleWinnerReplayCorrected | server.js:351-358 | with the pot emptied, a second settlement changes nothing |
| Findings.SettleShowdownAsWritten | server.js:333-335 | as written, the winners get the floor share and the pot keeps its value |
| Findings.ShowdownFoldReplaysPot | server.js:186-228 | the concrete tie where a fold at the showdown pays the split 300 again: the stacks end with 20300 chips and the pot still reads 300 |
| Findings.ShowdownFoldCorrected | server.js:193-228 | with the pot emptied at the showdown, a fold there moves no chip and leaves the pot at 0 |
| Findings.ConnectAsWritten | server.js:425-434 | as written, a connection adds at most its own room id to the rooms that exist |
| Findings.InheritedRoomAsWritten | server.js:425-434 | as written, a room named after an inherited object member and not yet created never gets a table |
| Findings.ConstructorRoomAsWritten | server.js:425-438 | as written, the first connection to room "constructor" leaves the registry empty |

## Left out

- Broadcasting, the per-seat notifications, logging and the socket calls to the kicked seat are output only and are not modelled (server.js:164, 272, 302-303, 336-342, 354, 376-385, 398, 402-422, 467, 478).
- The 10-second action timer and the 5-second restart after a settlement are not modelled. The timer's auto-check is the same `handleAction(id, Check)` a client can send (server.js:305-307). The restart is `startRound`, which the model offers as a method (server.js:345-347, 357).
- `Math.random`: the shuffle takes the permutation it applies as a parameter, `perm`, so every Fisher-Yates outcome is one such permutation (server.js:100-103).
- `Date.now()` is the parameter `now` (server.js:81, 107, 461).
- The hand evaluator `PokerSolver.Hand.solve` comes from a library this model does not include. It is a function parameter `rank` that maps a seat's hole cards followed by the board to a rank (five cards for a seat that joined mid-hand with no hole cards), `None` when it throws (server.js:320-330). A second call to it, made only to name the winning hand in a message, is output (server.js:338-341).
- Cards are compared as values, while the source compares card strings `value + suit`; the two are equivalent for the 52 standard cards.
- `name || 'Player n'` also treats a missing name as empty; names are strings here, so "missing" is the empty string (server.js:73).
- The `join_game`, `action` and `kick_player` handlers only look up the room and call the table's method (server.js:436-451). The remaining lines of the file set up the HTTP server and sockets, and are not modelled.
- Table.PokerGame.HandleAction: a fold by the last active seat at any stage but the river, the showdown included, leaves no active seat. The source can then loop forever in `findNextActivePlayer`, so the model excludes that case in the precondition `ActionSafe` (server.js:276-280).
- Table.PokerGame.CheckRoundEnd: the same unending scan, when no seat is active and the stage is not the river, is excluded by `RoundEndSafe`.
- Table.PokerGame.NextStage: the same unending scan is excluded by requiring an active seat unless the stage is the river.
- Table.PokerGame.KickPlayer: kicking the seat on turn when no other seat is active would loop forever, and is excluded by `KickSafe` (server.js:389-391).
- Table.PokerGame.Disconnect: force-folding the last active seat before the river would loop forever, and is excluded by `DisconnectSafe` (server.js:462-465). The simplest such case is the only seat at a waiting table: it is on turn at index 0, and its disconnect runs `nextStage` with no active seat to find.
- Table.PokerGame.StartRound: the second "fewer than two seats in play" return can never fire, because the seat pass leaves exactly the funded seats in play and at least two are funded. The model states that count and has no branch for it (server.js:147-148).
- Table.PokerGame.KickPlayer: when the host is the kicker, and the kicker is never the target, the host is still seated, so the reassignment of the host never fires. The model proves the host is still seated (server.js:393-396).
- `% this.players.length` is the ring step `Next`, proved equal to `(i + 1) % n` by `Seats.NextIsMod` for every i. `dealerIdx` is not kept below the seat count: a kick or the timeout sweep can leave it at or past the end, as in the source, and `Next` then steps from it exactly as `(dealerIdx + 1) % n` does.
- Table.PokerGame.SettleShowdown and Table.PokerGame.SettleWinner: both empty the pot after paying, which the source does not do (see Findings). A showdown's odd chips, or its whole pot when no seat was scored, therefore leave the table in the model. In the source the whole pot stays in `pot` after the split, and a later fold or disconnect of the seat still on turn pays it out again (the first and third Findings rows). The members whose contracts carry the emptied pot are Table.PokerGame.GoToShowdown, Table.PokerGame.NextStage, Table.PokerGame.AdvanceRound, Table.PokerGame.CheckRoundEnd, Table.PokerGame.Act, Table.PokerGame.HandleAction, Table.PokerGame.FoldOnTurn, Table.PokerGame.DisconnectOnTurn and Table.PokerGame.Disconnect.
- Table.PokerGame.KickPlayer keeps the source's turn index when the kicked seat sat before the turn. The splice shifts the seats after it down one, so the turn passes to the seat that followed. When the turn seat was the last seat, the index falls past the end (server.js:387-391).
- Duplicate socket ids are not refused by `addPlayer`, and the model keeps that behaviour. `handleAction` then changes the first seat with the id, as `find` does, and `Authorized` states that guard exactly (server.js:185-187).

## Findings

| source | as written | input that shows it | evidently intended | confidence | as-written member | corrected member |
|---|---|---|---|---|---|---|
| server.js:351-358 | `settleWinner` pays the pot to the last active seat but leaves `pot` as it was. During the 5 seconds before the restart, the stage is still a betting stage and the turn is still on the seat that folded. If that seat disconnects, the handler at server.js:462-465 folds it again and runs `checkRoundEnd`, which pays the same pot a second time. | Two seats after the blinds: "a" with 9950 chips and folded on turn, "b" with 9900 chips and active, pot 150, 20000 chips in all. "a" disconnects: "b" ends with 10200 chips while the pot still reads 150, so the table holds 20300 chips. | The pot is paid once, and a second settlement of the same hand pays nothing. | not executed | Findings.SettleWinnerAsWritten, Findings.DisconnectReplaysSettlement | Table.PokerGame.SettleWinner, Findings.SettleWinnerReplayCorrected |
| server.js:425-438 | `rooms` is a plain object, so `!rooms[roomId]` also sees the members every object inherits. For a room id such as "constructor", "toString" or "__proto__", the lookup finds a function or an object, and no table is created. The next `join_game` then calls `addPlayer` on that inherited member, which has no such method, and the handler throws; `action` and `kick_player` throw the same way. | A first connection with room id "constructor" to a server with no rooms, then `join_game`. | Every room id gets its own table on first connection, for example with a `Map` or an object without a prototype. | not executed | Findings.ConnectAsWritten, Findings.ConstructorRoomAsWritten | Rooms.Registry.GetOrCreate |
| server.js:265-268, 310-335 | `settleShowdown` pays the winners their shares but leaves `pot` as it was, and the river branch of `nextStage` returns without moving the turn. The seat that closed the river is still on turn and active, and the guard of `handleAction` never tests the stage. A fold from it in the 5 seconds before the restart finds one active seat, and `settleWinner` pays that seat the whole pot again. | Heads-up, 9850 chips each and 300 in the pot; both check the river and the hands tie, so each seat ends with 10000. "b", on turn, sends "fold": "a" is paid 300 again, and the stacks hold 20300 chips while the pot still reads 300. | The pot is paid out once at the showdown, and nothing is paid after it. | not executed | Findings.SettleShowdownAsWritten, Findings.ShowdownFoldReplaysPot | Table.PokerGame.HandleAction, Findings.ShowdownFoldCorrected |
