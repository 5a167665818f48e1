# BoomingCat room engine in Dafny

This project models the game server `server.js` of BoomingCat. It is a one-room
exploding-kittens style card game. The room holds:

- players with hands;
- a seating order;
- a draw pile whose top is its last element, and a discard pile;
- a phase: waiting, playing or ended;
- a current seat with a number of turn slots, and per-player attack debt;
- the defuse lock, held by a player who must put a drawn Bomb back;
- one pending action card, waiting out a nope window.

The model has three layers:

- `Engine` (engine.dfy) states the room as a value, `GameState`. It has one function per
  function or socket handler of `server.js`, each taking the same branches in the same order.
  Refusals are modelled too: each handler's verdict is a `...Check` function returning
  `Accepted` or `Rejected(reason)`.
- `Room.Game` (room.dfy) is the room as `server.js` keeps it: module-level variables that the
  handlers update in place.
  - The source's loops are loops here: the seat scan, the revival of the players, the
    Fisher-Yates shuffle on an array, and the top-three peek.
  - Every method ensures `State() == Engine.X(old(State()), ...)`, so every lemma about
    `Engine` holds of the class.
  - The constructor establishes the room invariant `Invariants.Inv`. The `*KeepsInv` lemmas
    show each handler keeps it.
- The lemma modules state what the code promises:
  - `Invariants`: the room invariant. A pending action and the defuse lock never coexist,
    players and seats agree, and while playing the current seat holds a living player with
    somebody else alive.
  - `Conservation`: no card is created or lost by any sequence of round commands.
  - `Turns`: turn passing and attack debt.
  - `Drawing`: the outcomes of a draw.
  - `Commands`: the handlers' verdicts and effects.

Card names: 炸弹 Bomb, 拆除 Defuse, 跳过 Skip, 攻击 Attack, 预知 SeeFuture, 克隆牌 Clone,
底抽 DrawFromBottom, 洗混 Shuffle, 阻止 Nope, 普通牌 Plain. Socket ids are `PlayerId` strings.

Randomness is a parameter. `rand: seq<nat>` stands for the values `Math.random` yields to a
shuffle. The k-th swap of the loop at position i uses `rand[k] % (i + 1)`, so every outcome
of the source's shuffle is some `rand`.

The nope timer is the command `ResolvePending`, which the environment may issue at any point.
The model covers every interleaving of it with the handlers.

Behaviour of the code that the model keeps as written:

- A Bomb that kills the current player moves the turn twice, which skips a player.
  `recomputePhaseAndMaybeEndOrStart` first moves the turn to the next living player and drains
  their debt (server.js:199-203). `performDraw` then zeroes the turn slots and advances again
  (server.js:346-348). `Drawing.BombDeathSkipsNext` proves that the skipped player loses
  their turn and any debt.
- A Nope does not restart the nope window. The window is the single timer set when the action
  was opened.
- Hands are the fixed starting hand `[Defuse, Defuse, Plain]`, given on joining and at each
  round start. Cards are never dealt from the deck.
- Going back to waiting (server.js:173-183, 616-628) does not clear the deck or the discard
  pile.
- There is no pair-card steal. The source has no such card.
- A room can get stuck. Take three players x, a, b in that seating, with a on the move and a
  pending DrawFromBottom of a's whose bottom card is a Bomb that a can defuse. x disconnects
  (server.js:633-651): the seating shrinks, but the turn index is not adjusted, so it now
  names b. The timer's draw does not check whose turn it is (server.js:296-298), so a draws
  the Bomb, defuses it and takes the lock. `insertBomb` refuses a, who is not at the current
  index (server.js:593). b's plays (server.js:249) and draws (server.js:582) are refused while
  the lock is held. The room is freed only by a restart, by the departure of the lock holder
  (server.js:639-642), or by a departure that leaves fewer than two players, which sends the
  room back to waiting (server.js:173-183). Here either remaining player's departure does it.
  The model keeps this:
  `Engine.InsertBombCheck`, `Engine.ValidateCanPlayTurnCard` and `Engine.DrawCardCheck` follow
  the same guards.

## Model

| member | source | states |
|---|---|---|
| Cards.IndexOf | server.js:314 | the first position of the card in the hand, or -1 exactly when the card is absent |
| Cards.RemoveFirst | server.js:317 | `splice(indexOf(c), 1)` removes exactly one copy of `c` and keeps every other card |
| Deck.DiscardTop | server.js:67-69 | the last discarded card, or none exactly when the pile is empty |
| Deck.ShuffledIsPermutation | server.js:38-43 | the Fisher-Yates shuffle returns a permutation of its input, for every random sequence |
| Deck.ShuffleDownPermutes | server.js:39-42 | each tail of the shuffle loop keeps the multiset of cards |
| Deck.SwapPermutes | server.js:41 | one swap of the shuffle keeps the multiset of cards |
| Deck.ShuffleInPlace | server.js:38-43 | the in-place shuffle of an array leaves exactly the order `Shuffled` describes, a permutation of the old contents |
| Deck.InsertAtPlaces | server.js:602 | `splice(idx, 0, c)` puts `c` at `idx`, keeps the order of the other cards, and lands on top exactly when `idx` is the old length |
| Deck.PeekTopThree | server.js:381-385 | the SeeFuture preview is the top min(3, deck size) cards, topmost first |
| Roster.AlivePlayers | server.js:71-73 | the living players are exactly the seated players with a record that is not dead, without repeats |
| Roster.AliveInSeatOrder | server.js:71-73 | the list of the living keeps the seating order: an earlier entry sits at an earlier seat |
| Roster.AllListedAlive | server.js:71-73 | when every seated player is alive, the filter returns the whole seating |
| Roster.AliveAfterDeath | server.js:339 | marking one living seated player dead shortens the list of the living by exactly one |
| Roster.AliveSame | server.js:71-73 | the list of the living depends only on who is alive |
| Roster.NextAliveSame | server.js:79-87 | the seat scan depends only on who is alive, not on hands or other record fields |
| Roster.Connected | server.js:169 | the seating filtered to players with a record holds exactly the seated players with a record, without repeats, and is unchanged when all have records |
| Roster.ConnectedInSeatOrder | server.js:169 | the filtered seating keeps the seating order: an earlier entry sits at an earlier seat |
| Roster.Without | server.js:637 | the seating without the leaving player holds exactly everybody else, without repeats |
| Roster.WithoutInSeatOrder | server.js:637 | the players who stay keep their seating order: an earlier entry sits at an earlier seat |
| Roster.IndexOfId | server.js:239 | `indexOf` returns the first seat of the id, or -1 exactly when the id is not seated |
| Roster.NextAliveFrom | server.js:81-85 | the scan from a given step returns the first living seat at or after that step, or -1 when none is left |
| Roster.GetNextAliveIndex | server.js:79-87 | returns -1 exactly when nobody seated is alive; otherwise the first living seat after `from`, going round |
| Roster.NextAliveMovesOn | server.js:79-87 | when another seat holds a living player, the scan never returns the starting seat |
| Roster.AllHandsUpdate | server.js:317 | changing one seated player's record changes the sum of hands by exactly that player's hand change |
| Invariants.SetCurrentKeepsInv | server.js:89-99 | moving the turn to a living seat keeps the room invariant |
| Invariants.EndRoundKeepsInv | server.js:152-166 | ending a round keeps the room invariant |
| Invariants.EndOneTurnKeepsInv | server.js:264-293 | using up a turn slot keeps the room invariant |
| Invariants.StartNewRoundKeepsInv | server.js:212-244 | starting a round keeps the room invariant |
| Invariants.RecomputeKeepsInv | server.js:168-210 | recomputing the phase restores the room invariant after seats, players or deaths change |
| Invariants.PerformDrawKeepsInv | server.js:296-356 | every draw outcome keeps the room invariant |
| Invariants.ResolveActiveEffectKeepsInv | server.js:359-407 | every card effect keeps the room invariant |
| Invariants.ResolvePendingKeepsInv | server.js:433-451 | the nope timer keeps the room invariant |
| Invariants.PlayNopeKeepsInv | server.js:474-497 | a Nope keeps the room invariant |
| Invariants.PlayCardKeepsInv | server.js:500-570 | playing a card keeps the room invariant: a pending action is never opened during the defuse lock |
| Invariants.DrawCardKeepsInv | server.js:573-587 | the drawCard handler keeps the room invariant |
| Invariants.InsertBombKeepsInv | server.js:590-613 | putting the Bomb back keeps the room invariant |
| Invariants.RestartGameKeepsInv | server.js:615-631 | restarting keeps the room invariant |
| Invariants.ConnectKeepsInv | server.js:455-466 | a connection keeps the room invariant |
| Invariants.DisconnectKeepsInv | server.js:633-651 | a disconnect keeps the room invariant, the lock and the pending action of the leaver included |
| Conservation.EndOneTurnConserves | server.js:264-293 | passing a turn moves no card |
| Conservation.RecomputeConserves | server.js:168-210 | recomputing during a round moves no card |
| Conservation.EliminationConserves | server.js:338-350 | after a death, the recompute and the turn advance move no card |
| Conservation.PerformDrawConserves | server.js:296-356 | a draw creates or loses no card: the drawn card reaches a hand, the discard pile, or (a Bomb under the lock) is held until it is put back |
| Conservation.AttackConserves | server.js:366-377 | Attack moves no card |
| Conservation.ShuffleConserves | server.js:398-403 | Shuffle keeps the deck's cards |
| Conservation.ResolveActiveEffectConserves | server.js:359-407 | no card effect creates or loses a card |
| Conservation.ResolvePendingConserves | server.js:433-451 | the nope timer creates or loses no card |
| Conservation.PlayNopeConserves | server.js:488-489 | a Nope creates or loses no card |
| Conservation.PlayCardConserves | server.js:500-570 | playing a card creates or loses no card |
| Conservation.DrawCardConserves | server.js:573-587 | the drawCard handler creates or loses no card |
| Conservation.InsertBombConserves | server.js:590-613 | putting the Bomb back creates or loses no card: the Bomb held under the lock is counted before and in the deck after |
| Conservation.StepConserves | server.js:474-613 | each round command keeps the invariant and the multiset of all cards (deck, discard, hands, the Bomb under the lock) |
| Conservation.RunConserves | server.js:433-613 | any sequence of round commands and timer firings keeps the invariant and the multiset of all cards |
| Turns.SetCurrentGivesTurns | server.js:89-99 | the new current seat gets 1 + its debt in turn slots (1 for a seat past the end); nothing else changes but the turn fields |
| Turns.SetCurrentDrainsDebt | server.js:95-97 | the new current player's debt becomes 0 and every other debt is unchanged |
| Turns.SomeoneAliveIsFound | server.js:79-87 | with somebody alive, the scan returns a living seat |
| Turns.EndOneTurnCases | server.js:264-293 | nothing outside play or under the lock; with at most one alive the round ends with the sole survivor as winner; otherwise one slot is used, and with none left the turn goes to the next living seat, another player than the current one, with 1 + that player's debt |
| Turns.TurnPassesToAnother | server.js:281-292 | under the invariant a finished turn goes to a different living player and play continues |
| Turns.AttackAddsDebt | server.js:366-377 | the next living player owes one more turn and every other debt is unchanged; when the attacker had more slots they keep the turn, otherwise the target moves up with 2 + earlier debt and owes nothing |
| Turns.AttackWithoutTarget | server.js:366-371 | when the scan finds no living seat the Attack ends the round with the attacker as winner; under the invariant with an action pending the scan always finds one |
| Drawing.EndOneTurnKeepsTable | server.js:264-293 | passing a turn changes no hand, seat, deck or discard pile and opens no pending action |
| Drawing.RefusedDrawChangesNothing | server.js:297-303 | a draw outside play, by a dead player or from an empty deck changes nothing |
| Drawing.SafeCardJoinsHand | server.js:353-355 | a card other than the Bomb goes to the end of the drawer's hand, and a turn slot is used: under the lock the turn stays; with one alive the round ends; with slots left the same seat keeps the turn with one slot fewer; otherwise the next living seat gets 1 + its debt |
| Drawing.BombDefused | server.js:310-336 | a Bomb is neutralised by a Clone when the discard pile shows a Defuse, otherwise by a Defuse; the spent card is discarded and the drawer holds the lock, alive, with the turn |
| Drawing.DefuseHolderSurvives | server.js:327-336 | a drawer holding a Defuse is never eliminated |
| Drawing.RecomputeKeepsTable | server.js:168-210 | during a round, recompute changes no player, seat, deck or discard |
| Drawing.AfterDeathHolds | server.js:338-340 | after an unprotected Bomb the seating is intact and one player fewer is alive |
| Drawing.EliminationKeepsTable | server.js:341-350 | the recompute and the advance after a death change no hand, seat, deck or discard; the seating after them is the seating after the death |
| Drawing.EliminationCrownsSurvivor | server.js:188-191 | when the death leaves one living player, the round ends with that player as winner |
| Drawing.BombEliminates | server.js:338-350 | a Bomb without a Defuse or a usable Clone kills the drawer, who keeps their hand; the Bomb is discarded; with two alive before, the other player wins |
| Drawing.RecomputeMovesOffDead | server.js:196-203 | recompute moves the turn from the dead seat to the next living seat |
| Drawing.EliminationAdvancesTwice | server.js:338-350 | after a death, the turn moves from the dead seat to the next living seat and then once more |
| Drawing.BombDeathSkipsNext | server.js:338-350 | with three or more alive, a fatal draw gives the turn to the second living seat after the dead one; the skipped player's debt is cleared |
| Commands.PlayNopeAcceptedIff | server.js:474-486 | a Nope is accepted exactly during play, with an action pending, from a living holder of a Nope who is not in the defuse lock |
| Commands.SelfDefusingNopeUnreachable | server.js:259 | under the invariant the self-defusing refusal never fires |
| Commands.PlayNopeEffect | server.js:483-496 | an accepted Nope moves one Nope from the hand to the discard pile and adds one to the count; nothing else changes; a refused one changes nothing |
| Commands.ResolvePendingClears | server.js:433-438 | the timer always clears the pending action; with nothing pending it does nothing |
| Commands.DrawLeavesNothingPending | server.js:296-356 | a draw never opens a pending action |
| Commands.OddNopesCancel | server.js:440-445 | an odd Nope count cancels the action, and clearing it is the only change |
| Commands.NopeParityDecides | server.js:440-450 | only the parity of the Nope count matters: two more Nopes cancel each other |
| Commands.PlayCardAcceptedIff | server.js:500-560 | a card is accepted exactly when the player may act and holds the action card, or plays a Clone over an action card on the discard pile |
| Commands.TurnCardNeedsTurn | server.js:246-253 | only the current living player acts, during play, with nothing pending and no lock |
| Commands.PlayCardEffect | server.js:514-570 | an accepted card goes from the hand to the discard pile and opens a pending action with no Nopes; a Clone takes the effect on top of the discard pile; the effect is always an action card; a refused card changes nothing |
| Commands.DrawCardFollowsCheck | server.js:573-587 | the handler refuses exactly what its verdict refuses and otherwise draws from the top |
| Commands.InsertBombPlaces | server.js:590-613 | the index is clamped into 0..deck size; the Bomb is inserted there with the other cards in order; the lock is released; the top card is public exactly when the Bomb is on top and the defuser asked; one turn slot ends: with slots left the defuser keeps the turn with one fewer, otherwise the next living seat, another one, gets 1 + its debt |
| Commands.RevivedResetsAll | server.js:226-230 | the revival loop gives every listed player the starting hand, alive, and adds or drops no record |
| Commands.RevivedAllAlive | server.js:226-232 | after the revival every seated player is alive |
| Commands.StartNewRoundFirstSeat | server.js:232-240 | with all seats connected, the first seat gets the opening turn |
| Commands.StartNewRoundOpensTurn | server.js:220-240 | the opening turn is seat 0 with one slot, and nobody owes a turn |
| Commands.StartNewRoundDeals | server.js:212-244 | a new round holds the 26 round cards in some order, an empty discard, every player alive with the starting hand, no lock and nothing pending |
| Commands.RestartGameOutcome | server.js:615-631 | with fewer than two seats the room waits and keeps its players and deck; otherwise a new round starts |
| Commands.RecomputeKeepsSeats | server.js:168-210 | with all seats connected, recompute keeps the seating and the set of records |
| Commands.JoinKeepsCurrent | server.js:458-464 | a newcomer during a round leaves the current player on the move and alive |
| Commands.ConnectJoins | server.js:455-466 | a newcomer is seated last with a record; the second arrival starts a round; during a round nothing else changes |
| Commands.RecomputeLeavesNoAction | server.js:168-210 | recompute never opens a pending action |
| Commands.RecomputeKeepsGone | server.js:168-210 | recompute never brings a departed player back, and with fewer than two seats the room waits |
| Commands.DisconnectRemoves | server.js:633-651 | after a disconnect the player has no record, seat or debt, does not hold the lock and is not the actor of a pending action; with fewer than two seats left the room waits |
| Room.Game.constructor | server.js:9-34 | the initial globals: empty room, waiting, one turn slot; the room invariant holds |
| Room.Game.NextAliveIndex | server.js:79-87 | the seat scan loop returns what `GetNextAliveIndex` specifies: a living seat, or -1 exactly when nobody is alive |
| Room.Game.SetCurrentTurnIndex | server.js:89-99 | the new state is `Engine.SetCurrentTurnIndex` of the old |
| Room.Game.EndRound | server.js:152-166 | the new state is `Engine.EndRound` of the old |
| Room.Game.MoveTurnOrEnd | server.js:285-292 | the round ends when the scan found no seat, otherwise the turn moves there |
| Room.Game.ResetToWaiting | server.js:173-183 | the new state is `Engine.ResetToWaiting` of the old |
| Room.Game.ShuffleIntoDeck | server.js:38-60 | the deck becomes `Shuffled(cards, rand)`, shuffled in an array in place; nothing else changes |
| Room.Game.ReviveListed | server.js:226-230 | the loop over the seats leaves the records `Revived` describes |
| Room.Game.StartNewRound | server.js:212-244 | the new state is `Engine.StartNewRound` of the old |
| Room.Game.Recompute | server.js:168-210 | the new state is `Engine.Recompute` of the old |
| Room.Game.EndOneTurnOrAdvance | server.js:264-293 | the new state is `Engine.EndOneTurnOrAdvance` of the old |
| Room.Game.PerformDraw | server.js:296-356 | the new state is `Engine.PerformDraw` of the old |
| Room.Game.Neutralise | server.js:317-335 | the spent card leaves the hand for the discard pile and the drawer takes the lock |
| Room.Game.FinishElimination | server.js:343-350 | the new state is `Engine.EliminationAfterRecompute` of the old |
| Room.Game.ResolveActiveEffect | server.js:359-407 | the new state is `Engine.ResolveActiveEffect` of the old; the SeeFuture preview is the top three cards, topmost first |
| Room.Game.ResolvePending | server.js:433-451 | the new state is `Engine.ResolvePending` of the old; only a SeeFuture that was not noped yields a preview, the top three cards topmost first |
| Room.Game.PlayNope | server.js:474-497 | the verdict is `PlayNopeCheck` and the new state `Engine.PlayNope` of the old |
| Room.Game.PlayCard | server.js:500-570 | the verdict is `PlayCardCheck` and the new state `Engine.PlayCard` of the old |
| Room.Game.DrawCard | server.js:573-587 | the verdict is `DrawCardCheck` and the new state `Engine.DrawCard` of the old |
| Room.Game.InsertBomb | server.js:590-613 | the verdict is `InsertBombCheck` and the new state `Engine.InsertBomb` of the old |
| Room.Game.RestartGame | server.js:615-631 | the new state is `Engine.RestartGame` of the old |
| Room.Game.Connect | server.js:455-466 | the new state is `Engine.Connect` of the old |
| Room.Game.Depart | server.js:636-648 | the leaver's record, seat, debt, lock and pending action go, exactly as `Engine.Departed` states |
| Room.Game.Disconnect | server.js:633-651 | the new state is `Engine.Disconnect` of the old |

## Left out

- Socket.io plumbing is not modelled: `emit`, `broadcastState`, `buildState`, the `gameState`
  snapshots and the `requestState` handler. None of them changes the room.
- Error messages are not modelled. A refusal is a `Rejection` value instead of a Chinese
  message sent to the socket.
- Timers and `Date.now` are not modelled: `startedAt`, `resolveAt` and `NOPE_WINDOW_MS`. The
  timer callback is the command `ResolvePending`, which may fire between any two commands.
- Clearing the previous timer in `clearPendingAction` is not modelled, because at most one
  timer exists per pending action.
- The distribution of `Math.random` is not modelled. It is replaced by the parameter `rand`,
  which covers every possible swap choice.
- `insertBomb` coerces `index` with `Number` and returns early on a non-finite value. The model
  takes an `int`, so non-numeric input is out of scope.
- `playCard`'s refusal of a missing `card` argument is not modelled, because the model's card is
  always present.
- Card conservation is proved for the round commands only. Connect and Disconnect create or drop
  whole hands. A restart deals a fresh deck. A player who disconnects while holding the lock
  takes the Bomb out of play with them.
- Room.Game handlers do not require or ensure `Valid()` themselves. Each handler's new state is
  the matching `Engine` function of the old one, and the `Invariants.*KeepsInv` lemmas carry the
  invariant across them.
