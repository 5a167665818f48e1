/**
 * The room as server.js keeps it: module-level variables updated in place by the helper
 * functions and the socket handlers. Each method performs the steps of its JavaScript original
 * on the fields and is proved to leave the room in the state the matching Engine function
 * computes, so every lemma about Engine applies to the class. The constructor establishes the
 * room invariant (Valid, that is Invariants.Inv of State()); the handlers do not restate it, and
 * a caller carries it from one handler to the next with the Invariants.*KeepsInv lemmas.
 */
module Room {
  import opened Cards
  import opened Deck
  import opened Roster
  import opened Engine
  import opened Invariants

  class Game {
    var players: map<PlayerId, Player>
    var playerIds: seq<PlayerId>
    var currentTurnIndex: nat
    var currentTurnsLeft: int
    var pendingExtraTurns: map<PlayerId, nat>
    var deck: seq<Card>
    var discardPile: seq<Card>
    var topCardPublic: Option<Card>
    var phase: Phase
    var winnerId: Option<PlayerId>
    var defusingPlayerId: Option<PlayerId>
    var pendingAction: Option<PendingAction>

    /** The room as a value. */
    function State(): GameState
      reads this
    {
      GameState(players, playerIds, currentTurnIndex, currentTurnsLeft, pendingExtraTurns,
                deck, discardPile, topCardPublic, phase, winnerId, defusingPlayerId, pendingAction)
    }

    ghost predicate Valid()
      reads this
    {
      Inv(State())
    }

    /** The initial values of the globals: an empty room waiting for players. */
    constructor()
      ensures State() == GameState(map[], [], 0, 1, map[], [], [], None, Waiting, None, None, None)
      ensures Valid()
    {
      players := map[];
      playerIds := [];
      currentTurnIndex := 0;
      deck := [];
      topCardPublic := None;
      discardPile := [];
      phase := Waiting;
      winnerId := None;
      defusingPlayerId := None;
      pendingExtraTurns := map[];
      currentTurnsLeft := 1;
      pendingAction := None;
    }

    // -------------------------------------------------------------------------------------
    // Helpers

    /** getNextAliveIndex: the circular scan over the seats after `from`. */
    method NextAliveIndex(from: nat) returns (idx: int)
      ensures idx == GetNextAliveIndex(playerIds, players, from)
      ensures idx == -1 <==> forall i :: 0 <= i < |playerIds| ==> !IsAlive(players, playerIds[i])
      ensures idx != -1 ==> 0 <= idx < |playerIds| && IsAlive(players, playerIds[idx])
    {
      if |playerIds| == 0 {
        return -1;
      }
      var step := 1;
      while step <= |playerIds|
        invariant 1 <= step <= |playerIds| + 1
        invariant NextAliveFrom(playerIds, players, from, step) == NextAliveFrom(playerIds, players, from, 1)
        decreases |playerIds| + 1 - step
      {
        var i := (from + step) % |playerIds|;
        var pid := playerIds[i];
        if pid in players && !players[pid].isDead {
          return i;
        }
        step := step + 1;
      }
      return -1;
    }

    /** setCurrentTurnIndex */
    method SetCurrentTurnIndex(idx: nat)
      modifies this
      ensures State() == Engine.SetCurrentTurnIndex(old(State()), idx)
    {
      currentTurnIndex := idx;
      if idx >= |playerIds| {
        currentTurnsLeft := 1;
        return;
      }
      var pid := playerIds[idx];
      var extra := Debt(pendingExtraTurns, pid);
      pendingExtraTurns := pendingExtraTurns[pid := 0];
      currentTurnsLeft := 1 + extra;
    }

    /** endRound */
    method EndRound(newWinner: Option<PlayerId>)
      modifies this
      ensures State() == Engine.EndRound(old(State()), newWinner)
    {
      phase := Ended;
      winnerId := newWinner;
      topCardPublic := None;
      defusingPlayerId := None;
      currentTurnIndex := 0;
      currentTurnsLeft := 0;
      pendingAction := None;
    }

    /** The tail shared by recompute and endOneTurnOrAdvance: end the round when no seat was found. */
    method MoveTurnOrEnd(next: int)
      requires next >= -1
      modifies this
      ensures State() == if next == -1 then Engine.EndRound(old(State()), None)
                         else Engine.SetCurrentTurnIndex(old(State()), next)
    {
      if next == -1 {
        EndRound(None);
      } else {
        SetCurrentTurnIndex(next);
      }
    }

    /** The reset to the waiting phase of recompute and restartGame. */
    method ResetToWaiting()
      modifies this
      ensures State() == Engine.ResetToWaiting(old(State()))
    {
      ghost var s0 := State();
      phase, winnerId, topCardPublic, defusingPlayerId := Waiting, None, None, None;
      currentTurnIndex, currentTurnsLeft, pendingExtraTurns := 0, 0, map[];
      pendingAction := None;
      assert State() == GameState(s0.players, s0.playerIds, 0, 0, map[], s0.deck, s0.discardPile,
                                  None, Waiting, None, None, None);
    }

    /** Replace the deck by a shuffle of `cards`, swapping in an array as shuffleArrayInPlace does. */
    method ShuffleIntoDeck(cards: seq<Card>, rand: seq<nat>)
      modifies this
      ensures deck == Shuffled(cards, rand)
      ensures State() == old(State()).(deck := deck)
    {
      var a := new Card[|cards|](i requires 0 <= i < |cards| => cards[i]);
      assert a[..] == cards;
      ShuffleInPlace(a, rand);
      deck := a[..];
    }

    /** The loop of startNewRound over the seats: every listed player with a record is revived. */
    method ReviveListed()
      modifies this
      ensures State() == old(State()).(players := Revived(old(players), playerIds))
    {
      ghost var before := players;
      var i := 0;
      while i < |playerIds|
        invariant 0 <= i <= |playerIds|
        invariant players.Keys == before.Keys
        invariant forall id :: id in players ==>
          players[id] == if id in playerIds[..i] then Player(StartingHand, false) else before[id]
        invariant State() == old(State()).(players := players)
      {
        var id := playerIds[i];
        if id in players {
          players := players[id := Player(StartingHand, false)];
        }
        assert playerIds[..i + 1] == playerIds[..i] + [id];
        i := i + 1;
      }
      assert playerIds[..i] == playerIds;
      assert players == Revived(before, playerIds);
    }

    /** startNewRound */
    method StartNewRound(rand: seq<nat>)
      modifies this
      ensures State() == Engine.StartNewRound(old(State()), rand)
    {
      ghost var s0 := State();
      ShuffleIntoDeck(NewRoundCards, rand);
      topCardPublic := None;
      discardPile := [];
      phase := Playing;
      winnerId := None;
      defusingPlayerId := None;
      pendingExtraTurns := map[];
      currentTurnsLeft := 1;
      pendingAction := None;
      ReviveListed();
      assert State() == s0.(deck := Shuffled(NewRoundCards, rand), topCardPublic := None, discardPile := [],
                            phase := Playing, winnerId := None, defusingPlayerId := None,
                            pendingExtraTurns := map[], currentTurnsLeft := 1, pendingAction := None,
                            players := Revived(s0.players, s0.playerIds));
      ghost var t := State();

      var alive := AlivePlayers(playerIds, players);
      if |alive| == 0 {
        phase := Waiting;
        assert State() == t.(phase := Waiting);
        return;
      }
      var idx := IndexOfId(playerIds, alive[0]);
      SetCurrentTurnIndex(if idx >= 0 then idx else 0);
    }

    /** recomputePhaseAndMaybeEndOrStart */
    method Recompute(rand: seq<nat>)
      modifies this
      ensures State() == Engine.Recompute(old(State()), rand)
    {
      playerIds := Connected(playerIds, players);
      if |playerIds| < MinPlayers {
        ResetToWaiting();
        return;
      }
      if phase == Waiting {
        StartNewRound(rand);
        return;
      }
      if phase == Playing {
        var alive := AlivePlayers(playerIds, players);
        if |alive| <= 1 {
          EndRound(SoleSurvivor(alive));
          return;
        }
        if !(currentTurnIndex < |playerIds| && IsAlive(players, playerIds[currentTurnIndex])) {
          var next := NextAliveIndex(currentTurnIndex);
          MoveTurnOrEnd(next);
        }
      }
    }

    /** endOneTurnOrAdvance */
    method EndOneTurnOrAdvance()
      modifies this
      ensures State() == Engine.EndOneTurnOrAdvance(old(State()))
    {
      if phase != Playing {
        return;
      }
      if defusingPlayerId.Some? {
        return;
      }
      var alive := AlivePlayers(playerIds, players);
      if |alive| <= 1 {
        EndRound(SoleSurvivor(alive));
        return;
      }
      currentTurnsLeft := currentTurnsLeft - 1;
      if currentTurnsLeft > 0 {
        return;
      }
      var next := NextAliveIndex(currentTurnIndex);
      MoveTurnOrEnd(next);
    }

    /** performDraw */
    method PerformDraw(pid: PlayerId, fromBottom: bool)
      modifies this
      ensures State() == Engine.PerformDraw(old(State()), pid, fromBottom)
    {
      if phase != Playing || !IsAlive(players, pid) {
        return;
      }
      if |deck| == 0 {
        return;
      }
      ghost var s0 := State();
      topCardPublic := None;
      var card;
      if fromBottom {
        card := deck[0];
        deck := deck[1..];
      } else {
        card := deck[|deck| - 1];
        deck := deck[..|deck| - 1];
      }
      ghost var t := State();
      assert t == s0.(topCardPublic := None, deck := DeckAfterDraw(s0.deck, fromBottom));
      assert card == DrawnCard(s0.deck, fromBottom);
      var player := players[pid];
      if card == Bomb {
        if Clone in player.hand && DiscardTop(discardPile) == Some(Defuse) {
          assert CanCloneAsDefuse(t, pid);
          Neutralise(pid, Clone);
          return;
        }
        if Defuse in player.hand {
          Neutralise(pid, Defuse);
          return;
        }
        players := players[pid := player.(isDead := true)];
        discardPile := discardPile + [Bomb];
        assert State() == t.(players := s0.players[pid := player.(isDead := true)],
                             discardPile := s0.discardPile + [Bomb]);
        FinishElimination();
        return;
      }
      players := players[pid := player.(hand := player.hand + [card])];
      assert State() == t.(players := s0.players[pid := player.(hand := player.hand + [card])]);
      EndOneTurnOrAdvance();
    }

    /** performDraw's way out of a Bomb: spend `c`, discard it, and take the defuse lock. */
    method Neutralise(pid: PlayerId, c: Card)
      requires pid in players && c in players[pid].hand
      modifies this
      ensures State() == Engine.Neutralise(old(State()), pid, c)
    {
      var player := players[pid];
      players := players[pid := player.(hand := RemoveFirst(player.hand, c))];
      discardPile := discardPile + [c];
      defusingPlayerId := Some(pid);
    }

    /** The end of performDraw after a death: recompute, then end the turn if the round goes on. */
    method FinishElimination()
      modifies this
      ensures State() == EliminationAfterRecompute(old(State()))
    {
      // Called only while Playing, so recompute cannot start a round: it needs no random values.
      Recompute([]);
      if phase == Playing {
        currentTurnsLeft := 0;
        EndOneTurnOrAdvance();
      }
    }

    /**
     * resolveActiveEffect. The SeeFuture preview, sent to the actor alone, is returned: the top
     * three cards of the deck (fewer when the deck is shorter), topmost first.
     */
    method ResolveActiveEffect(actor: PlayerId, effect: Card, rand: seq<nat>) returns (preview: seq<Card>)
      modifies this
      ensures State() == Engine.ResolveActiveEffect(old(State()), actor, effect, rand)
      ensures effect == SeeFuture ==>
        (|preview| == (if |deck| < 3 then |deck| else 3)
         && forall m :: 0 <= m < |preview| ==> preview[m] == deck[|deck| - 1 - m])
      ensures effect != SeeFuture ==> preview == []
    {
      preview := [];
      match effect
      case Skip =>
        EndOneTurnOrAdvance();
      case Attack =>
        var next := NextAliveIndex(currentTurnIndex);
        if next == -1 {
          EndRound(Some(actor));
          return;
        }
        var target := playerIds[next];
        pendingExtraTurns := pendingExtraTurns[target := Debt(pendingExtraTurns, target) + 1];
        assert State() == OweOneMoreTurn(old(State()), target);
        EndOneTurnOrAdvance();
      case SeeFuture =>
        preview := PeekTopThree(deck);
      case DrawFromBottom =>
        PerformDraw(actor, true);
      case Shuffle =>
        ShuffleIntoDeck(deck, rand);
        topCardPublic := None;
      case _ =>
    }

    // -------------------------------------------------------------------------------------
    // The nope timer and the socket handlers

    /**
     * The timer of createPendingAction firing: clear the action, then cancel or resolve it. Only
     * a SeeFuture that was not noped yields a preview: the top three cards, topmost first.
     */
    method ResolvePending(rand: seq<nat>) returns (preview: seq<Card>)
      modifies this
      ensures State() == Engine.ResolvePending(old(State()), rand)
      ensures (old(pendingAction).Some? && old(pendingAction).value.nopeCount % 2 == 0
               && old(pendingAction).value.effectCard == SeeFuture) ==>
        |preview| == (if |old(deck)| < 3 then |old(deck)| else 3)
        && forall m :: 0 <= m < |preview| ==> preview[m] == old(deck)[|old(deck)| - 1 - m]
      ensures (old(pendingAction).None? || old(pendingAction).value.nopeCount % 2 == 1
               || old(pendingAction).value.effectCard != SeeFuture) ==> preview == []
    {
      preview := [];
      var pa := pendingAction;
      pendingAction := None;
      if pa.None? {
        return;
      }
      if pa.value.nopeCount % 2 == 1 {
        return;
      }
      preview := ResolveActiveEffect(pa.value.actorId, pa.value.effectCard, rand);
    }

    /** The playNope handler. */
    method PlayNope(pid: PlayerId) returns (o: Outcome)
      modifies this
      ensures o == PlayNopeCheck(old(State()), pid)
      ensures State() == Engine.PlayNope(old(State()), pid)
    {
      o := ValidateCanPlayNope(State(), pid);
      if o.Rejected? {
        return;
      }
      var hand := players[pid].hand;
      if Nope !in hand {
        return Rejected(CardNotHeld(Nope));
      }
      players := players[pid := players[pid].(hand := RemoveFirst(hand, Nope))];
      discardPile := discardPile + [Nope];
      pendingAction := Some(pendingAction.value.(nopeCount := pendingAction.value.nopeCount + 1));
    }

    /** The playCard handler: a turn card, or a Clone of the action card on top of the discard pile. */
    method PlayCard(pid: PlayerId, card: Card) returns (o: Outcome)
      modifies this
      ensures o == PlayCardCheck(old(State()), pid, card)
      ensures State() == Engine.PlayCard(old(State()), pid, card)
    {
      o := ValidateCanPlayTurnCard(State(), pid);
      if o.Rejected? {
        return;
      }
      var hand := players[pid].hand;
      if card == Clone {
        if Clone !in hand {
          return Rejected(CardNotHeld(Clone));
        }
        var top := DiscardTop(discardPile);
        if top.None? {
          return Rejected(DiscardEmpty);
        }
        if !IsActionCard(top.value) {
          return Rejected(NotClonable(top.value));
        }
        players := players[pid := players[pid].(hand := RemoveFirst(hand, Clone))];
        discardPile := discardPile + [Clone];
        pendingAction := Some(PendingAction(pid, Clone, top.value, Some(top.value), 0));
        return;
      }
      if !IsActionCard(card) {
        return Rejected(UnsupportedCard(card));
      }
      if card !in hand {
        return Rejected(CardNotHeld(card));
      }
      players := players[pid := players[pid].(hand := RemoveFirst(hand, card))];
      discardPile := discardPile + [card];
      pendingAction := Some(PendingAction(pid, card, card, None, 0));
    }

    /** The drawCard handler: a draw from the top by the current player. */
    method DrawCard(pid: PlayerId) returns (o: Outcome)
      modifies this
      ensures o == DrawCardCheck(old(State()), pid)
      ensures State() == Engine.DrawCard(old(State()), pid)
    {
      o := DrawCardCheck(State(), pid);
      if phase != Playing || pendingAction.Some? || defusingPlayerId.Some? {
        return;
      }
      if !(currentTurnIndex < |playerIds| && playerIds[currentTurnIndex] == pid) {
        return;
      }
      if !IsAlive(players, pid) {
        return;
      }
      PerformDraw(pid, false);
    }

    /** The insertBomb handler: the defuser puts the Bomb back at `index`, clamped to the deck. */
    method InsertBomb(pid: PlayerId, index: int, isPublic: bool) returns (o: Outcome)
      modifies this
      ensures o == InsertBombCheck(old(State()), pid)
      ensures State() == Engine.InsertBomb(old(State()), pid, index, isPublic)
    {
      o := InsertBombCheck(State(), pid);
      if o.Rejected? {
        return;
      }
      var idx := index;
      if idx < 0 {
        idx := 0;
      }
      if idx > |deck| {
        idx := |deck|;
      }
      assert idx == Clamp(index, |deck|);
      ghost var s0 := State();
      deck := InsertAt(deck, idx, Bomb);
      var isAtTop := idx == |deck| - 1;
      topCardPublic := if isAtTop && isPublic then Some(Bomb) else None;
      defusingPlayerId := None;
      assert State() == s0.(deck := deck, topCardPublic := topCardPublic, defusingPlayerId := None);
      EndOneTurnOrAdvance();
    }

    /** The restartGame handler. */
    method RestartGame(rand: seq<nat>)
      modifies this
      ensures State() == Engine.RestartGame(old(State()), rand)
    {
      if |playerIds| < MinPlayers {
        ResetToWaiting();
        return;
      }
      StartNewRound(rand);
    }

    /** A new connection: a fresh record with the starting hand, seated last unless already seated. */
    method Connect(pid: PlayerId, rand: seq<nat>)
      modifies this
      ensures State() == Engine.Connect(old(State()), pid, rand)
    {
      players := players[pid := Player(StartingHand, false)];
      if pid !in playerIds {
        playerIds := playerIds + [pid];
      }
      Recompute(rand);
    }

    /** The disconnect handler. */
    method Disconnect(pid: PlayerId, rand: seq<nat>)
      modifies this
      ensures State() == Engine.Disconnect(old(State()), pid, rand)
    {
      Depart(pid);
      Recompute(rand);
    }

    /** The first half of the disconnect handler: the record, the seat, the lock, the debt, the action. */
    method Depart(pid: PlayerId)
      modifies this
      ensures State() == Departed(old(State()), pid)
    {
      ghost var s0 := State();
      players := players - {pid};
      playerIds := Without(playerIds, pid);
      ghost var t1 := State();
      assert t1 == s0.(players := s0.players - {pid}, playerIds := Without(s0.playerIds, pid));
      if defusingPlayerId == Some(pid) {
        defusingPlayerId := None;
        topCardPublic := None;
      }
      ghost var t2 := State();
      assert t2 == if t1.defusingPlayerId == Some(pid)
                   then t1.(defusingPlayerId := None, topCardPublic := None) else t1;
      pendingExtraTurns := pendingExtraTurns - {pid};
      assert State() == t2.(pendingExtraTurns := t2.pendingExtraTurns - {pid});
      if pendingAction.Some? && pendingAction.value.actorId == pid {
        pendingAction := None;
      }
      assert State() == Departed(s0, pid);
    }
  }
}
