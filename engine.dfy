/**
 * The room's game state as a value, and one transition function per function or handler of
 * server.js that changes it. Each function follows the branches of its JavaScript original;
 * the class in room.dfy performs the same steps in place and is proved to agree with these.
 *
 * Randomness: `rand` stands for the values Math.random yields to a shuffle (see Deck.Shuffled).
 */
module Engine {
  import opened Cards
  import opened Deck
  import opened Roster

  const MinPlayers: nat := 2

  datatype Phase = Waiting | Playing | Ended

  /** The action card waiting out its nope window. */
  datatype PendingAction = PendingAction(
    actorId: PlayerId,
    displayCard: Card,         // the card put on the table (Clone when cloning)
    effectCard: Card,          // the effect that runs on resolution
    clonedCard: Option<Card>,  // the copied effect when displayCard is Clone
    nopeCount: nat)

  /** The module-level globals of server.js. */
  datatype GameState = GameState(
    players: map<PlayerId, Player>,
    playerIds: seq<PlayerId>,           // join order
    currentTurnIndex: nat,
    currentTurnsLeft: int,              // turn slots left for the current player, this one included
    pendingExtraTurns: map<PlayerId, nat>,  // attack debt
    deck: seq<Card>,                    // top = last element
    discardPile: seq<Card>,
    topCardPublic: Option<Card>,
    phase: Phase,
    winnerId: Option<PlayerId>,
    defusingPlayerId: Option<PlayerId>, // the defuse lock
    pendingAction: Option<PendingAction>)

  /** Why a command was refused; the source reports these as error messages or ignores the command. */
  datatype Rejection =
    | NotPlaying
    | ActionPending
    | DefuseInProgress
    | PlayerDead
    | NotYourTurn
    | NoPendingAction
    | SelfDefusing
    | CardNotHeld(card: Card)
    | DiscardEmpty
    | NotClonable(top: Card)
    | UnsupportedCard(card: Card)
    | DeckEmpty
    | NotDefuser

  datatype Outcome = Accepted | Rejected(reason: Rejection)

  /** `socket.id === playerIds[currentTurnIndex]`. */
  predicate IsCurrent(s: GameState, pid: PlayerId) {
    s.currentTurnIndex < |s.playerIds| && s.playerIds[s.currentTurnIndex] == pid
  }

  /** The current seat exists and holds a living player. */
  predicate CurrentIsAlive(s: GameState) {
    s.currentTurnIndex < |s.playerIds| && IsAlive(s.players, s.playerIds[s.currentTurnIndex])
  }

  function Alive(s: GameState): seq<PlayerId> {
    AlivePlayers(s.playerIds, s.players)
  }

  function NextAlive(s: GameState, from: nat): int {
    GetNextAliveIndex(s.playerIds, s.players, from)
  }

  /** The sole survivor, or None when nobody is alive (the argument of endRound). */
  function SoleSurvivor(alive: seq<PlayerId>): Option<PlayerId> {
    if |alive| == 1 then Some(alive[0]) else None
  }

  // ---------------------------------------------------------------------------------------
  // Turn bookkeeping

  /** setCurrentTurnIndex: move the turn to seat `idx` and drain that player's attack debt. */
  function SetCurrentTurnIndex(s: GameState, idx: nat): GameState {
    if idx < |s.playerIds| then
      var pid := s.playerIds[idx];
      s.(currentTurnIndex := idx,
         pendingExtraTurns := s.pendingExtraTurns[pid := 0],
         currentTurnsLeft := 1 + Debt(s.pendingExtraTurns, pid))
    else
      s.(currentTurnIndex := idx, currentTurnsLeft := 1)
  }

  /** endRound */
  function EndRound(s: GameState, winner: Option<PlayerId>): GameState {
    s.(phase := Ended, winnerId := winner, topCardPublic := None, defusingPlayerId := None,
       currentTurnIndex := 0, currentTurnsLeft := 0, pendingAction := None)
  }

  /** The reset to the waiting phase shared by recompute and restartGame. */
  function ResetToWaiting(s: GameState): GameState {
    s.(phase := Waiting, winnerId := None, topCardPublic := None, defusingPlayerId := None,
       currentTurnIndex := 0, currentTurnsLeft := 0, pendingExtraTurns := map[],
       pendingAction := None)
  }

  /** The players after the revival loop of startNewRound. */
  function Revived(players: map<PlayerId, Player>, ids: seq<PlayerId>): map<PlayerId, Player> {
    map id | id in players :: if id in ids then Player(StartingHand, false) else players[id]
  }

  /** startNewRound: fresh shuffled deck, empty discard, everybody revived with the starting hand. */
  function StartNewRound(s: GameState, rand: seq<nat>): GameState {
    var t := s.(deck := Shuffled(NewRoundCards, rand), topCardPublic := None, discardPile := [],
                phase := Playing, winnerId := None, defusingPlayerId := None,
                pendingExtraTurns := map[], currentTurnsLeft := 1, pendingAction := None,
                players := Revived(s.players, s.playerIds));
    var alive := Alive(t);
    if |alive| == 0 then t.(phase := Waiting)
    else
      var idx := IndexOfId(t.playerIds, alive[0]);
      SetCurrentTurnIndex(t, if idx >= 0 then idx else 0)
  }

  /** recomputePhaseAndMaybeEndOrStart: drop seats without a record, then settle the phase. */
  function Recompute(s: GameState, rand: seq<nat>): GameState {
    RecomputePhase(s.(playerIds := Connected(s.playerIds, s.players)), rand)
  }

  /** The rest of recomputePhaseAndMaybeEndOrStart, once every seat has a record. */
  function RecomputePhase(s1: GameState, rand: seq<nat>): GameState {
    if |s1.playerIds| < MinPlayers then ResetToWaiting(s1)
    else if s1.phase == Waiting then StartNewRound(s1, rand)
    else if s1.phase == Playing then
      var alive := Alive(s1);
      if |alive| <= 1 then EndRound(s1, SoleSurvivor(alive))
      else if !CurrentIsAlive(s1) then
        var next := NextAlive(s1, s1.currentTurnIndex);
        if next == -1 then EndRound(s1, None) else SetCurrentTurnIndex(s1, next)
      else s1
    else s1
  }

  /** endOneTurnOrAdvance: use up one turn slot, passing the turn when none is left. */
  function EndOneTurnOrAdvance(s: GameState): GameState {
    if s.phase != Playing then s
    else if s.defusingPlayerId.Some? then s
    else
      var alive := Alive(s);
      if |alive| <= 1 then EndRound(s, SoleSurvivor(alive))
      else
        var t := s.(currentTurnsLeft := s.currentTurnsLeft - 1);
        if t.currentTurnsLeft > 0 then t
        else
          var next := NextAlive(t, t.currentTurnIndex);
          if next == -1 then EndRound(t, None) else SetCurrentTurnIndex(t, next)
  }

  // ---------------------------------------------------------------------------------------
  // Drawing

  /** The card a draw takes: the last one from the top, the first one from the bottom. */
  function DrawnCard(deck: seq<Card>, fromBottom: bool): Card
    requires |deck| > 0
  {
    if fromBottom then deck[0] else deck[|deck| - 1]
  }

  /** The deck after `deck.shift()` or `deck.pop()`. */
  function DeckAfterDraw(deck: seq<Card>, fromBottom: bool): seq<Card>
    requires |deck| > 0
  {
    if fromBottom then deck[1..] else deck[..|deck| - 1]
  }

  /** Whether a drawn Bomb is neutralised by a Clone standing in for the Defuse on the discard pile. */
  predicate CanCloneAsDefuse(s: GameState, pid: PlayerId)
    requires pid in s.players
  {
    Clone in s.players[pid].hand && DiscardTop(s.discardPile) == Some(Defuse)
  }

  /** Spend `c` from the drawer's hand to neutralise the Bomb and enter the defuse lock. */
  function Neutralise(s: GameState, pid: PlayerId, c: Card): GameState
    requires pid in s.players && c in s.players[pid].hand
  {
    var p := s.players[pid];
    s.(players := s.players[pid := p.(hand := RemoveFirst(p.hand, c))],
       discardPile := s.discardPile + [c],
       defusingPlayerId := Some(pid))
  }

  /**
   * The end of performDraw once the drawer is marked dead and the Bomb discarded: recompute,
   * and if still Playing, zero the turn slots and end one. The phase is Playing here, so
   * recompute cannot start a round and needs no random values.
   */
  function EliminationAfterRecompute(dead: GameState): GameState {
    var u := Recompute(dead, []);
    if u.phase == Playing then EndOneTurnOrAdvance(u.(currentTurnsLeft := 0)) else u
  }

  /** performDraw */
  function PerformDraw(s: GameState, pid: PlayerId, fromBottom: bool): GameState {
    if s.phase != Playing || !IsAlive(s.players, pid) then s
    else if |s.deck| == 0 then s
    else
      var card := DrawnCard(s.deck, fromBottom);
      var t := s.(topCardPublic := None, deck := DeckAfterDraw(s.deck, fromBottom));
      var p := s.players[pid];
      if card == Bomb then
        if CanCloneAsDefuse(t, pid) then Neutralise(t, pid, Clone)
        else if Defuse in p.hand then Neutralise(t, pid, Defuse)
        else
          EliminationAfterRecompute(
            t.(players := s.players[pid := p.(isDead := true)], discardPile := s.discardPile + [Bomb]))
      else
        EndOneTurnOrAdvance(t.(players := s.players[pid := p.(hand := p.hand + [card])]))
  }

  // ---------------------------------------------------------------------------------------
  // Card effects and the nope window

  /** The Attack card's charge: the target owes one more turn than before. */
  function OweOneMoreTurn(s: GameState, target: PlayerId): GameState {
    s.(pendingExtraTurns := s.pendingExtraTurns[target := Debt(s.pendingExtraTurns, target) + 1])
  }

  /** resolveActiveEffect */
  function ResolveActiveEffect(s: GameState, actor: PlayerId, effect: Card, rand: seq<nat>): GameState {
    match effect
    case Skip => EndOneTurnOrAdvance(s)
    case Attack =>
      var next := NextAlive(s, s.currentTurnIndex);
      if next == -1 then EndRound(s, Some(actor))
      else
        EndOneTurnOrAdvance(OweOneMoreTurn(s, s.playerIds[next]))
    case SeeFuture => s   // the preview goes to the actor only; the state does not change
    case DrawFromBottom => PerformDraw(s, actor, true)
    case Shuffle => s.(deck := Shuffled(s.deck, rand), topCardPublic := None)
    case _ => s
  }

  /** The timer callback of createPendingAction: clear the action, then cancel or resolve it. */
  function ResolvePending(s: GameState, rand: seq<nat>): GameState {
    match s.pendingAction
    case None => s
    case Some(pa) =>
      var t := s.(pendingAction := None);
      if pa.nopeCount % 2 == 1 then t
      else ResolveActiveEffect(t, pa.actorId, pa.effectCard, rand)
  }

  /** validateCanPlayTurnCard */
  function ValidateCanPlayTurnCard(s: GameState, pid: PlayerId): Outcome {
    if s.phase != Playing then Rejected(NotPlaying)
    else if s.pendingAction.Some? then Rejected(ActionPending)
    else if s.defusingPlayerId.Some? then Rejected(DefuseInProgress)
    else if !IsAlive(s.players, pid) then Rejected(PlayerDead)
    else if !IsCurrent(s, pid) then Rejected(NotYourTurn)
    else Accepted
  }

  /** validateCanPlayNope */
  function ValidateCanPlayNope(s: GameState, pid: PlayerId): Outcome {
    if s.phase != Playing then Rejected(NotPlaying)
    else if s.pendingAction.None? then Rejected(NoPendingAction)
    else if !IsAlive(s.players, pid) then Rejected(PlayerDead)
    else if s.defusingPlayerId == Some(pid) then Rejected(SelfDefusing)
    else Accepted
  }

  /** The verdict of the playNope handler. */
  function PlayNopeCheck(s: GameState, pid: PlayerId): Outcome {
    var v := ValidateCanPlayNope(s, pid);
    if v.Rejected? then v
    else if Nope !in s.players[pid].hand then Rejected(CardNotHeld(Nope))
    else Accepted
  }

  /** The playNope handler: one Nope from the hand to the discard pile, one more on the count. */
  function PlayNope(s: GameState, pid: PlayerId): GameState {
    if PlayNopeCheck(s, pid).Rejected? then s
    else
      var p := s.players[pid];
      var pa := s.pendingAction.value;
      s.(players := s.players[pid := p.(hand := RemoveFirst(p.hand, Nope))],
         discardPile := s.discardPile + [Nope],
         pendingAction := Some(pa.(nopeCount := pa.nopeCount + 1)))
  }

  /** The verdict of the playCard handler. */
  function PlayCardCheck(s: GameState, pid: PlayerId, card: Card): Outcome {
    var v := ValidateCanPlayTurnCard(s, pid);
    if v.Rejected? then v
    else
      var hand := s.players[pid].hand;
      if card == Clone then
        if Clone !in hand then Rejected(CardNotHeld(Clone))
        else match DiscardTop(s.discardPile)
          case None => Rejected(DiscardEmpty)
          case Some(top) => if IsActionCard(top) then Accepted else Rejected(NotClonable(top))
      else if !IsActionCard(card) then Rejected(UnsupportedCard(card))
      else if card !in hand then Rejected(CardNotHeld(card))
      else Accepted
  }

  /**
   * The playCard handler: the card goes from the hand to the discard pile and opens a pending
   * action; a Clone copies the effect on top of the discard pile.
   */
  function PlayCard(s: GameState, pid: PlayerId, card: Card): GameState {
    if PlayCardCheck(s, pid, card).Rejected? then s
    else
      var p := s.players[pid];
      var effect := if card == Clone then DiscardTop(s.discardPile).value else card;
      var cloned := if card == Clone then Some(effect) else None;
      s.(players := s.players[pid := p.(hand := RemoveFirst(p.hand, card))],
         discardPile := s.discardPile + [card],
         pendingAction := Some(PendingAction(pid, card, effect, cloned, 0)))
  }

  /** The verdict of the drawCard handler, including performDraw's empty-deck refusal. */
  function DrawCardCheck(s: GameState, pid: PlayerId): Outcome {
    if s.phase != Playing then Rejected(NotPlaying)
    else if s.pendingAction.Some? then Rejected(ActionPending)
    else if s.defusingPlayerId.Some? then Rejected(DefuseInProgress)
    else if !IsCurrent(s, pid) then Rejected(NotYourTurn)
    else if !IsAlive(s.players, pid) then Rejected(PlayerDead)
    else if |s.deck| == 0 then Rejected(DeckEmpty)
    else Accepted
  }

  /** The drawCard handler: its guards, then a draw from the top. */
  function DrawCard(s: GameState, pid: PlayerId): GameState {
    if s.phase != Playing || s.pendingAction.Some? || s.defusingPlayerId.Some?
       || !IsCurrent(s, pid) || !IsAlive(s.players, pid) then s
    else PerformDraw(s, pid, false)
  }

  /** The verdict of the insertBomb handler (the source ignores refused requests silently). */
  function InsertBombCheck(s: GameState, pid: PlayerId): Outcome {
    if s.phase != Playing then Rejected(NotPlaying)
    else if s.pendingAction.Some? then Rejected(ActionPending)
    else if !IsCurrent(s, pid) then Rejected(NotYourTurn)
    else if s.defusingPlayerId != Some(pid) then Rejected(NotDefuser)
    else if !IsAlive(s.players, pid) then Rejected(PlayerDead)
    else Accepted
  }

  /** The insertBomb handler: put the Bomb back at the clamped index, leave the lock, end a turn slot. */
  function InsertBomb(s: GameState, pid: PlayerId, index: int, isPublic: bool): GameState {
    if InsertBombCheck(s, pid).Rejected? then s
    else
      var idx := Clamp(index, |s.deck|);
      var deck := InsertAt(s.deck, idx, Bomb);
      var isAtTop := idx == |deck| - 1;
      EndOneTurnOrAdvance(
        s.(deck := deck,
           topCardPublic := if isAtTop && isPublic then Some(Bomb) else None,
           defusingPlayerId := None))
  }

  /** The restartGame handler. */
  function RestartGame(s: GameState, rand: seq<nat>): GameState {
    if |s.playerIds| < MinPlayers then ResetToWaiting(s) else StartNewRound(s, rand)
  }

  /** A new connection: a fresh player record with the starting hand, appended to the join order. */
  function Connect(s: GameState, pid: PlayerId, rand: seq<nat>): GameState {
    var t := s.(players := s.players[pid := Player(StartingHand, false)],
                playerIds := if pid in s.playerIds then s.playerIds else s.playerIds + [pid]);
    Recompute(t, rand)
  }

  /** The disconnect handler: drop every trace of the player, then recompute. */
  function Disconnect(s: GameState, pid: PlayerId, rand: seq<nat>): GameState {
    Recompute(Departed(s, pid), rand)
  }

  /** The state the disconnect handler hands to recompute. */
  function Departed(s: GameState, pid: PlayerId): GameState {
    var t1 := s.(players := s.players - {pid}, playerIds := Without(s.playerIds, pid));
    var t2 := if t1.defusingPlayerId == Some(pid)
              then t1.(defusingPlayerId := None, topCardPublic := None) else t1;
    var t3 := t2.(pendingExtraTurns := t2.pendingExtraTurns - {pid});
    if t3.pendingAction.Some? && t3.pendingAction.value.actorId == pid
    then t3.(pendingAction := None) else t3
  }
}
