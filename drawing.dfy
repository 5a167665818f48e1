/**
 * What a draw does to the drawer: a safe card joins the hand, a Bomb is neutralised by a Clone
 * (when the discard pile shows a Defuse) or a Defuse, and otherwise the drawer is eliminated,
 * after which the turn moves on twice.
 */
module Drawing {
  import opened Cards
  import opened Deck
  import opened Roster
  import opened Engine
  import opened Invariants
  import opened Turns

  /** Turn bookkeeping never touches a player, the join order or a card. */
  lemma EndOneTurnKeepsTable(s: GameState)
    ensures var r := EndOneTurnOrAdvance(s);
      r.players == s.players && r.playerIds == s.playerIds && r.deck == s.deck
      && r.discardPile == s.discardPile && (s.pendingAction.None? ==> r.pendingAction.None?)
  {
  }

  /** A draw that cannot happen leaves everything as it was. */
  lemma RefusedDrawChangesNothing(s: GameState, pid: PlayerId, fromBottom: bool)
    requires s.phase != Playing || !IsAlive(s.players, pid) || |s.deck| == 0
    ensures PerformDraw(s, pid, fromBottom) == s
  {
  }

  /**
   * A card other than a Bomb goes to the end of the drawer's hand and uses up one turn slot:
   * with slots left the same player keeps the turn, on the last slot it goes to the next living
   * player, and with at most one player alive the round ends. Under the defuse lock no slot is
   * used.
   */
  lemma SafeCardJoinsHand(s: GameState, pid: PlayerId, fromBottom: bool)
    requires s.phase == Playing && IsAlive(s.players, pid) && |s.deck| > 0
    requires DrawnCard(s.deck, fromBottom) != Bomb
    ensures var r := PerformDraw(s, pid, fromBottom);
      pid in r.players && !r.players[pid].isDead
      && r.players[pid].hand == s.players[pid].hand + [DrawnCard(s.deck, fromBottom)]
      && r.deck == DeckAfterDraw(s.deck, fromBottom) && r.discardPile == s.discardPile
      && r.topCardPublic.None?
    ensures var r := PerformDraw(s, pid, fromBottom);
      s.defusingPlayerId.Some? ==>
        r.phase == Playing && r.currentTurnIndex == s.currentTurnIndex && r.currentTurnsLeft == s.currentTurnsLeft
    ensures s.defusingPlayerId.None? && |Alive(s)| <= 1 ==> PerformDraw(s, pid, fromBottom).phase == Ended
    ensures var r := PerformDraw(s, pid, fromBottom);
      s.defusingPlayerId.None? && |Alive(s)| >= 2 && s.currentTurnsLeft > 1 ==>
        r.phase == Playing && r.currentTurnIndex == s.currentTurnIndex && r.currentTurnsLeft == s.currentTurnsLeft - 1
    ensures var r := PerformDraw(s, pid, fromBottom);
      var next := NextAlive(s, s.currentTurnIndex);
      s.defusingPlayerId.None? && |Alive(s)| >= 2 && s.currentTurnsLeft <= 1 ==>
        r.phase == Playing && 0 <= next < |s.playerIds| && r.currentTurnIndex == next
        && r.currentTurnsLeft == 1 + Debt(s.pendingExtraTurns, s.playerIds[next])
  {
    var card := DrawnCard(s.deck, fromBottom);
    var p := s.players[pid];
    var t := s.(topCardPublic := None, deck := DeckAfterDraw(s.deck, fromBottom),
                players := s.players[pid := p.(hand := p.hand + [card])]);
    assert PerformDraw(s, pid, fromBottom) == EndOneTurnOrAdvance(t);
    assert forall x :: x in s.playerIds ==> IsAlive(t.players, x) == IsAlive(s.players, x);
    AliveSame(s.playerIds, t.players, s.players);
    NextAliveSame(s.playerIds, t.players, s.players, s.currentTurnIndex);
    EndOneTurnKeepsTable(t);
    EndOneTurnCases(t);
  }

  /**
   * A drawn Bomb that the drawer can neutralise: a Clone is spent when the discard pile shows a
   * Defuse, a Defuse otherwise. The spent card goes to the discard pile, the Bomb stays out of
   * the deck, the drawer enters the defuse lock and keeps the turn.
   */
  lemma BombDefused(s: GameState, pid: PlayerId, fromBottom: bool)
    requires s.phase == Playing && IsAlive(s.players, pid) && |s.deck| > 0
    requires DrawnCard(s.deck, fromBottom) == Bomb
    requires Defuse in s.players[pid].hand || (Clone in s.players[pid].hand && DiscardTop(s.discardPile) == Some(Defuse))
    ensures var hand := s.players[pid].hand;
      var spent := if Clone in hand && DiscardTop(s.discardPile) == Some(Defuse) then Clone else Defuse;
      var r := PerformDraw(s, pid, fromBottom);
      r.defusingPlayerId == Some(pid) && r.phase == Playing
      && pid in r.players && !r.players[pid].isDead
      && multiset(r.players[pid].hand) + multiset{spent} == multiset(hand)
      && r.discardPile == s.discardPile + [spent]
      && r.deck == DeckAfterDraw(s.deck, fromBottom)
      && r.currentTurnIndex == s.currentTurnIndex && r.currentTurnsLeft == s.currentTurnsLeft
  {
  }

  /** A drawer who holds a Defuse is never eliminated by a draw. */
  lemma DefuseHolderSurvives(s: GameState, pid: PlayerId, fromBottom: bool)
    requires IsAlive(s.players, pid) && Defuse in s.players[pid].hand
    ensures IsAlive(PerformDraw(s, pid, fromBottom).players, pid)
  {
    if s.phase == Playing && |s.deck| > 0 {
      if DrawnCard(s.deck, fromBottom) == Bomb {
        BombDefused(s, pid, fromBottom);
      } else {
        SafeCardJoinsHand(s, pid, fromBottom);
      }
    }
  }

  /** While Playing with at least two connected players, recompute only moves the turn or ends the round. */
  lemma RecomputeKeepsTable(s: GameState, rand: seq<nat>)
    requires forall x :: x in s.playerIds ==> x in s.players
    requires s.phase == Playing && |s.playerIds| >= MinPlayers
    ensures var r := Recompute(s, rand);
      r.players == s.players && r.playerIds == s.playerIds && r.deck == s.deck && r.discardPile == s.discardPile
  {
    RecomputeWhenSeated(s, rand);
  }

  /** The state right after an unprotected drawer is marked dead and the Bomb discarded. */
  function Eliminated(s: GameState, pid: PlayerId, fromBottom: bool): GameState
    requires pid in s.players && |s.deck| > 0
  {
    s.(topCardPublic := None, deck := DeckAfterDraw(s.deck, fromBottom),
       players := s.players[pid := s.players[pid].(isDead := true)],
       discardPile := s.discardPile + [Bomb])
  }

  /** The facts about the state after a death that the lemmas below rely on. */
  ghost predicate AfterDeath(dead: GameState) {
    Distinct(dead.playerIds) && (forall x :: x in dead.playerIds ==> x in dead.players)
    && dead.phase == Playing && dead.defusingPlayerId.None? && |dead.playerIds| >= MinPlayers
  }

  lemma AfterDeathHolds(s: GameState, pid: PlayerId, fromBottom: bool)
    requires Inv(s) && s.phase == Playing && s.defusingPlayerId.None? && IsAlive(s.players, pid) && |s.deck| > 0
    ensures AfterDeath(Eliminated(s, pid, fromBottom)) && pid in s.playerIds
    ensures |Alive(Eliminated(s, pid, fromBottom))| == |Alive(s)| - 1
  {
    assert |s.playerIds| >= MinPlayers by { assert |Alive(s)| <= |s.playerIds|; }
    AliveAfterDeath(s.playerIds, s.players, pid);
  }

  /** After a death the players and the cards stay where they are. */
  lemma EliminationKeepsTable(dead: GameState)
    requires AfterDeath(dead)
    ensures var r := EliminationAfterRecompute(dead);
      r.players == dead.players && r.playerIds == dead.playerIds
      && r.deck == dead.deck && r.discardPile == dead.discardPile
  {
    RecomputeKeepsTable(dead, []);
    var u := Recompute(dead, []);
    if u.phase == Playing {
      EndOneTurnKeepsTable(u.(currentTurnsLeft := 0));
    }
  }

  /** A death that leaves one player alive ends the round with that player as the winner. */
  lemma EliminationCrownsSurvivor(dead: GameState)
    requires AfterDeath(dead) && |Alive(dead)| == 1
    ensures var r := EliminationAfterRecompute(dead);
      r.phase == Ended && r.winnerId == Some(Alive(dead)[0])
  {
    RecomputeWhenSeated(dead, []);
  }

  /**
   * A drawn Bomb with neither a Defuse nor a usable Clone eliminates the drawer, who keeps the
   * hand; the Bomb goes to the discard pile. When only one other player was alive, that
   * player wins the round.
   */
  lemma BombEliminates(s: GameState, pid: PlayerId, fromBottom: bool)
    requires Inv(s) && s.phase == Playing && s.defusingPlayerId.None? && IsAlive(s.players, pid) && |s.deck| > 0
    requires DrawnCard(s.deck, fromBottom) == Bomb
    requires Defuse !in s.players[pid].hand && !(Clone in s.players[pid].hand && DiscardTop(s.discardPile) == Some(Defuse))
    ensures var r := PerformDraw(s, pid, fromBottom);
      pid in r.players && r.players[pid].isDead && r.players[pid].hand == s.players[pid].hand
      && r.discardPile == s.discardPile + [Bomb] && r.deck == DeckAfterDraw(s.deck, fromBottom)
    ensures var r := PerformDraw(s, pid, fromBottom);
      |Alive(s)| == 2 ==>
        r.phase == Ended && r.winnerId.Some? && r.winnerId.value != pid && IsAlive(r.players, r.winnerId.value)
  {
    var dead := Eliminated(s, pid, fromBottom);
    assert PerformDraw(s, pid, fromBottom) == EliminationAfterRecompute(dead);
    AfterDeathHolds(s, pid, fromBottom);
    EliminationKeepsTable(dead);
    if |Alive(s)| == 2 {
      EliminationCrownsSurvivor(dead);
      assert Alive(dead)[0] in Alive(dead);
    }
  }

  /** After a death that leaves two or more alive, recompute hands the turn to the next living seat. */
  lemma RecomputeMovesOffDead(dead: GameState)
    requires AfterDeath(dead) && |Alive(dead)| >= 2 && !CurrentIsAlive(dead)
    ensures 0 <= NextAlive(dead, dead.currentTurnIndex) < |dead.playerIds|
    ensures IsAlive(dead.players, dead.playerIds[NextAlive(dead, dead.currentTurnIndex)])
    ensures Recompute(dead, []) == SetCurrentTurnIndex(dead, NextAlive(dead, dead.currentTurnIndex))
  {
    RecomputeWhenSeated(dead, []);
    SomeoneAliveIsFound(dead, dead.currentTurnIndex);
  }

  /** The double advance, stated on the state after the death. */
  lemma EliminationAdvancesTwice(dead: GameState)
    requires AfterDeath(dead) && |Alive(dead)| >= 2 && !CurrentIsAlive(dead)
    ensures var skipped := NextAlive(dead, dead.currentTurnIndex);
      0 <= skipped < |dead.playerIds| && IsAlive(dead.players, dead.playerIds[skipped])
      && var next := NextAlive(dead, skipped);
      var r := EliminationAfterRecompute(dead);
      0 <= next < |dead.playerIds| && next != skipped
      && r.phase == Playing && r.currentTurnIndex == next
      && r.currentTurnsLeft == 1 + Debt(dead.pendingExtraTurns, dead.playerIds[next])
      && Debt(r.pendingExtraTurns, dead.playerIds[skipped]) == 0
  {
    var ids := dead.playerIds;
    RecomputeMovesOffDead(dead);
    var skipped := NextAlive(dead, dead.currentTurnIndex);
    var u := SetCurrentTurnIndex(dead, skipped);
    var v := u.(currentTurnsLeft := 0);
    assert v.players == dead.players && v.playerIds == ids && v.currentTurnIndex == skipped;
    assert Alive(v) == Alive(dead) && CurrentIsAlive(v);
    assert EliminationAfterRecompute(dead) == EndOneTurnOrAdvance(v);
    EndOneTurnCases(v);
    var next := NextAlive(v, skipped);
    assert next == NextAlive(dead, skipped);
    assert ids[next] != ids[skipped];
    var w := v.(currentTurnsLeft := -1);
    SetCurrentDrainsDebt(dead, skipped, ids[skipped]);
    SetCurrentDrainsDebt(dead, skipped, ids[next]);
    SetCurrentDrainsDebt(w, next, ids[skipped]);
  }

  /**
   * The double advance after an elimination: recompute already hands the turn to the first
   * living player after the eliminated drawer (clearing that player's debt), and the turn slot
   * that is then used up is that player's, so the turn ends up one living player further on.
   * With three or more players alive before the draw, the player right after the eliminated
   * one is passed over.
   */
  lemma BombDeathSkipsNext(s: GameState, pid: PlayerId)
    requires Inv(s) && DrawCardCheck(s, pid).Accepted? && |Alive(s)| >= 3
    requires DrawnCard(s.deck, false) == Bomb
    requires Defuse !in s.players[pid].hand && !(Clone in s.players[pid].hand && DiscardTop(s.discardPile) == Some(Defuse))
    ensures var d := s.players[pid := s.players[pid].(isDead := true)];
      var skipped := GetNextAliveIndex(s.playerIds, d, s.currentTurnIndex);
      0 <= skipped < |s.playerIds| && IsAlive(d, s.playerIds[skipped])
      && var next := GetNextAliveIndex(s.playerIds, d, skipped);
      var r := DrawCard(s, pid);
      0 <= next < |s.playerIds| && next != skipped
      && r.phase == Playing && r.currentTurnIndex == next
      && r.currentTurnsLeft == 1 + Debt(s.pendingExtraTurns, s.playerIds[next])
      && Debt(r.pendingExtraTurns, s.playerIds[skipped]) == 0
  {
    var dead := Eliminated(s, pid, false);
    assert DrawCard(s, pid) == EliminationAfterRecompute(dead);
    AfterDeathHolds(s, pid, false);
    assert !CurrentIsAlive(dead);
    EliminationAdvancesTwice(dead);
  }
}
