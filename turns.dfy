/**
 * How turns pass: setCurrentTurnIndex drains attack debt, endOneTurnOrAdvance uses up one turn
 * slot or hands the turn on, and Attack makes the next living player owe one more turn.
 */
module Turns {
  import opened Cards
  import opened Roster
  import opened Engine
  import opened Invariants

  /**
   * Moving the turn to an existing seat gives its player one turn plus everything they owed;
   * a seat past the end gets a single turn. Nothing but the three turn fields changes.
   */
  lemma SetCurrentGivesTurns(s: GameState, idx: nat)
    ensures var r := SetCurrentTurnIndex(s, idx);
      r.currentTurnIndex == idx
      && r == s.(currentTurnIndex := idx, currentTurnsLeft := r.currentTurnsLeft,
                 pendingExtraTurns := r.pendingExtraTurns)
      && r.currentTurnsLeft == if idx < |s.playerIds| then 1 + Debt(s.pendingExtraTurns, s.playerIds[idx]) else 1
  {
  }

  /** The debt the new current player owed is cleared; every other player's debt is unchanged. */
  lemma SetCurrentDrainsDebt(s: GameState, idx: nat, q: PlayerId)
    ensures Debt(SetCurrentTurnIndex(s, idx).pendingExtraTurns, q)
         == if idx < |s.playerIds| && q == s.playerIds[idx] then 0 else Debt(s.pendingExtraTurns, q)
  {
  }

  /** Somebody other than the current player is alive whenever two distinct players are. */
  lemma AnotherAlive(s: GameState) returns (other: nat)
    requires Distinct(s.playerIds) && s.currentTurnIndex < |s.playerIds| && |Alive(s)| >= 2
    ensures other < |s.playerIds| && other != s.currentTurnIndex && IsAlive(s.players, s.playerIds[other])
  {
    var alive := Alive(s);
    var a := if alive[0] != s.playerIds[s.currentTurnIndex] then alive[0] else alive[1];
    assert a in alive;
    other :| 0 <= other < |s.playerIds| && s.playerIds[other] == a;
  }

  /** With someone alive, the circular scan always finds a seat. */
  lemma SomeoneAliveIsFound(s: GameState, from: nat)
    requires |Alive(s)| >= 1
    ensures 0 <= NextAlive(s, from) < |s.playerIds|
    ensures IsAlive(s.players, s.playerIds[NextAlive(s, from)])
  {
    var a := Alive(s)[0];
    assert a in Alive(s);
    var i :| 0 <= i < |s.playerIds| && s.playerIds[i] == a;
  }

  /**
   * The four outcomes of endOneTurnOrAdvance: nothing outside play or during the defuse lock;
   * the round ends when at most one player lives, with that player as the winner; otherwise
   * one turn slot is used up, and when none is left the turn goes to the next living player,
   * who is someone other than a living current player.
   */
  lemma EndOneTurnCases(s: GameState)
    ensures s.phase != Playing || s.defusingPlayerId.Some? ==> EndOneTurnOrAdvance(s) == s
    ensures s.phase == Playing && s.defusingPlayerId.None? && |Alive(s)| <= 1 ==>
      var r := EndOneTurnOrAdvance(s);
      r.phase == Ended && r.winnerId == SoleSurvivor(Alive(s))
      && (|Alive(s)| == 1 ==> r.winnerId == Some(Alive(s)[0]))
    ensures s.phase == Playing && s.defusingPlayerId.None? && |Alive(s)| >= 2 && s.currentTurnsLeft > 1 ==>
      EndOneTurnOrAdvance(s) == s.(currentTurnsLeft := s.currentTurnsLeft - 1)
    ensures s.phase == Playing && s.defusingPlayerId.None? && |Alive(s)| >= 2 && s.currentTurnsLeft <= 1 ==>
      var r := EndOneTurnOrAdvance(s);
      var next := NextAlive(s, s.currentTurnIndex);
      0 <= next < |s.playerIds| && IsAlive(s.players, s.playerIds[next])
      && r.phase == Playing && r.currentTurnIndex == next
      && r.currentTurnsLeft == 1 + Debt(s.pendingExtraTurns, s.playerIds[next])
      && Debt(r.pendingExtraTurns, s.playerIds[next]) == 0
      && (Distinct(s.playerIds) && CurrentIsAlive(s) ==> next != s.currentTurnIndex)
      && r == SetCurrentTurnIndex(s.(currentTurnsLeft := s.currentTurnsLeft - 1), next)
  {
    if s.phase == Playing && s.defusingPlayerId.None? && |Alive(s)| >= 2 && s.currentTurnsLeft <= 1 {
      SomeoneAliveIsFound(s, s.currentTurnIndex);
      if Distinct(s.playerIds) && CurrentIsAlive(s) {
        var other := AnotherAlive(s);
        NextAliveMovesOn(s.playerIds, s.players, s.currentTurnIndex, other);
      }
    }
  }

  /** Under the invariant a finished turn always goes to a different living player. */
  lemma TurnPassesToAnother(s: GameState)
    requires Inv(s) && s.phase == Playing && s.defusingPlayerId.None? && s.currentTurnsLeft <= 1
    ensures var r := EndOneTurnOrAdvance(s);
      r.phase == Playing && r.currentTurnIndex != s.currentTurnIndex && CurrentIsAlive(r)
  {
    EndOneTurnCases(s);
  }

  /**
   * Attack: the next living player owes one more turn and the attacker uses up one slot. When
   * that was the attacker's last slot the target moves up at once with two turns plus any debt
   * already owed, and the debt is cleared.
   */
  lemma AttackAddsDebt(s: GameState, actor: PlayerId, rand: seq<nat>)
    requires s.phase == Playing && s.defusingPlayerId.None? && |Alive(s)| >= 2
    ensures 0 <= NextAlive(s, s.currentTurnIndex) < |s.playerIds|
    ensures var target := s.playerIds[NextAlive(s, s.currentTurnIndex)];
      var r := ResolveActiveEffect(s, actor, Attack, rand);
      s.currentTurnsLeft > 1 ==>
        Debt(r.pendingExtraTurns, target) == Debt(s.pendingExtraTurns, target) + 1
        && r.currentTurnIndex == s.currentTurnIndex && r.currentTurnsLeft == s.currentTurnsLeft - 1
    ensures var next := NextAlive(s, s.currentTurnIndex);
      var target := s.playerIds[next];
      var r := ResolveActiveEffect(s, actor, Attack, rand);
      s.currentTurnsLeft <= 1 ==>
        r.currentTurnIndex == next && r.currentTurnsLeft == 2 + Debt(s.pendingExtraTurns, target)
        && Debt(r.pendingExtraTurns, target) == 0
    ensures var target := s.playerIds[NextAlive(s, s.currentTurnIndex)];
      var r := ResolveActiveEffect(s, actor, Attack, rand);
      forall q :: q != target ==> Debt(r.pendingExtraTurns, q) == Debt(s.pendingExtraTurns, q)
  {
    SomeoneAliveIsFound(s, s.currentTurnIndex);
    var next := NextAlive(s, s.currentTurnIndex);
    var target := s.playerIds[next];
    var owed := OweOneMoreTurn(s, target);
    assert ResolveActiveEffect(s, actor, Attack, rand) == EndOneTurnOrAdvance(owed);
    assert Alive(owed) == Alive(s) && NextAlive(owed, s.currentTurnIndex) == next;
    EndOneTurnCases(owed);
    if s.currentTurnsLeft <= 1 {
      var u := owed.(currentTurnsLeft := owed.currentTurnsLeft - 1);
      forall q | q != target
        ensures Debt(SetCurrentTurnIndex(u, next).pendingExtraTurns, q) == Debt(s.pendingExtraTurns, q)
      {
        SetCurrentDrainsDebt(u, next, q);
      }
    }
  }

  /**
   * Attack with nobody else alive to take the extra turn: the attacker wins the round. Under
   * the invariant an action is only pending during play with two players alive, so when the
   * timer resolves an Attack there is always a target and this branch does not fire.
   */
  lemma AttackWithoutTarget(s: GameState, actor: PlayerId, rand: seq<nat>)
    ensures NextAlive(s, s.currentTurnIndex) == -1 ==>
      ResolveActiveEffect(s, actor, Attack, rand) == EndRound(s, Some(actor))
    ensures Inv(s) && s.pendingAction.Some? ==> NextAlive(s, s.currentTurnIndex) != -1
  {
    if Inv(s) && s.pendingAction.Some? {
      SomeoneAliveIsFound(s, s.currentTurnIndex);
    }
  }
}
