/**
 * The room's invariants and their preservation by every command and by the timer callback.
 *
 *  - every id in the join order has exactly one player record and no record lacks an id;
 *  - a pending action and the defuse lock are never both set, and either one implies Playing;
 *  - while Playing, the current seat holds a living player and at least two players live.
 */
module Invariants {
  import opened Cards
  import opened Deck
  import opened Roster
  import opened Engine

  ghost predicate Registered(s: GameState) {
    Distinct(s.playerIds) && forall x :: x in s.players <==> x in s.playerIds
  }

  /** The invariants that do not depend on the phase. */
  ghost predicate Consistent(s: GameState) {
    Registered(s)
    && !(s.pendingAction.Some? && s.defusingPlayerId.Some?)
    && (s.pendingAction.Some? || s.defusingPlayerId.Some? ==> s.phase == Playing)
  }

  ghost predicate Inv(s: GameState) {
    Consistent(s) && (s.phase == Playing ==> CurrentIsAlive(s) && |Alive(s)| >= 2)
  }

  // ---------------------------------------------------------------------------------------
  // Helpers about the roster

  /** Two different living players make at least two entries in the list of the living. */
  lemma TwoAlive(ids: seq<PlayerId>, players: map<PlayerId, Player>, a: PlayerId, b: PlayerId)
    requires a != b && a in ids && b in ids && IsAlive(players, a) && IsAlive(players, b)
    ensures |AlivePlayers(ids, players)| >= 2
  {
    var r := AlivePlayers(ids, players);
    assert a in r && b in r;
    var i :| 0 <= i < |r| && r[i] == a;
    var j :| 0 <= j < |r| && r[j] == b;
    assert i != j;
  }

  /** With every seat holding a record, recompute's filter keeps the seating. */
  lemma RecomputeWhenSeated(s: GameState, rand: seq<nat>)
    requires forall x :: x in s.playerIds ==> x in s.players
    ensures Recompute(s, rand) == RecomputePhase(s, rand)
  {
    assert s.(playerIds := Connected(s.playerIds, s.players)) == s;
  }

  lemma DistinctAppend(ids: seq<PlayerId>, x: PlayerId)
    requires Distinct(ids) && x !in ids
    ensures Distinct(ids + [x])
  {
    var r := ids + [x];
    forall i, j | 0 <= i < j < |r| ensures r[i] != r[j] {
      if j == |ids| { assert r[i] == ids[i]; } else { assert r[i] == ids[i] && r[j] == ids[j]; }
    }
  }

  /** The phase-independent invariants look only at the roster, the phase and the two locks. */
  lemma SameRosterConsistent(s: GameState, t: GameState)
    requires Consistent(s) && s.players == t.players && s.playerIds == t.playerIds && s.phase == t.phase
    requires s.pendingAction == t.pendingAction && s.defusingPlayerId == t.defusingPlayerId
    ensures Consistent(t)
  {
  }

  /** Replacing the record of a player who has one keeps players and seats in agreement. */
  lemma RecordChangeKeepsConsistent(s: GameState, pid: PlayerId, p: Player)
    requires Consistent(s) && pid in s.players
    ensures Consistent(s.(players := s.players[pid := p]))
  {
    assert s.players[pid := p].Keys == s.players.Keys;
  }

  /** Replacing a player's record without changing whether they live keeps the invariant. */
  lemma HandChangeKeepsInv(s: GameState, pid: PlayerId, p: Player)
    requires Inv(s) && pid in s.players && p.isDead == s.players[pid].isDead
    ensures Inv(s.(players := s.players[pid := p]))
  {
    var t := s.(players := s.players[pid := p]);
    AliveSame(s.playerIds, s.players, t.players);
  }

  // ---------------------------------------------------------------------------------------
  // Turn bookkeeping

  lemma SetCurrentKeepsInv(s: GameState, idx: nat)
    requires Consistent(s) && idx < |s.playerIds| && IsAlive(s.players, s.playerIds[idx])
    requires s.phase == Playing ==> |Alive(s)| >= 2
    ensures Inv(SetCurrentTurnIndex(s, idx))
  {
  }

  lemma EndRoundKeepsInv(s: GameState, w: Option<PlayerId>)
    requires Registered(s)
    ensures Inv(EndRound(s, w))
  {
  }

  lemma EndOneTurnKeepsInv(s: GameState)
    requires Inv(s)
    ensures Inv(EndOneTurnOrAdvance(s))
  {
    if s.phase == Playing && s.defusingPlayerId.None? && |Alive(s)| > 1 {
      var t := s.(currentTurnsLeft := s.currentTurnsLeft - 1);
      SameRosterConsistent(s, t);
      assert Alive(t) == Alive(s);
      if t.currentTurnsLeft <= 0 {
        var next := NextAlive(t, t.currentTurnIndex);
        assert next != -1 by {
          assert IsAlive(t.players, t.playerIds[t.currentTurnIndex]);
        }
        assert EndOneTurnOrAdvance(s) == SetCurrentTurnIndex(t, next);
        SetCurrentKeepsInv(t, next);
      } else {
        assert EndOneTurnOrAdvance(s) == t;
      }
    }
  }

  lemma StartNewRoundKeepsInv(s: GameState, rand: seq<nat>)
    requires Registered(s) && |s.playerIds| >= MinPlayers
    ensures Inv(StartNewRound(s, rand))
  {
    var players := Revived(s.players, s.playerIds);
    var t := s.(deck := Shuffled(NewRoundCards, rand), topCardPublic := None, discardPile := [],
                phase := Playing, winnerId := None, defusingPlayerId := None,
                pendingExtraTurns := map[], currentTurnsLeft := 1, pendingAction := None,
                players := players);
    assert s.playerIds[0] in s.playerIds && s.playerIds[1] in s.playerIds;
    TwoAlive(t.playerIds, t.players, s.playerIds[0], s.playerIds[1]);
    var alive := Alive(t);
    var idx := IndexOfId(t.playerIds, alive[0]);
    SetCurrentKeepsInv(t, idx);
  }

  lemma RecomputeKeepsInv(s: GameState, rand: seq<nat>)
    requires Consistent(s)
    ensures Inv(Recompute(s, rand))
  {
    RecomputeWhenSeated(s, rand);
    var s1 := s;
    if |s1.playerIds| < MinPlayers {
      assert RecomputePhase(s1, rand) == ResetToWaiting(s1);
    } else if s1.phase == Waiting {
      StartNewRoundKeepsInv(s1, rand);
    } else if s1.phase == Playing {
      var alive := Alive(s1);
      if |alive| <= 1 {
        EndRoundKeepsInv(s1, SoleSurvivor(alive));
      } else if !CurrentIsAlive(s1) {
        var next := NextAlive(s1, s1.currentTurnIndex);
        assert next != -1 by {
          assert alive[0] in s1.playerIds;
          var i :| 0 <= i < |s1.playerIds| && s1.playerIds[i] == alive[0];
          assert IsAlive(s1.players, s1.playerIds[i]);
        }
        SetCurrentKeepsInv(s1, next);
      }
    }
  }

  // ---------------------------------------------------------------------------------------
  // Drawing and effects

  /** The drawn Bomb kills the drawer: recompute, then (still Playing) an exhausted turn slot. */
  lemma EliminationKeepsInv(s: GameState, pid: PlayerId, t: GameState)
    requires Inv(s) && s.pendingAction.None? && IsAlive(s.players, pid)
    requires t == s.(players := s.players[pid := s.players[pid].(isDead := true)],
                     discardPile := s.discardPile + [Bomb])
    ensures Inv(EliminationAfterRecompute(t))
  {
    RecordChangeKeepsConsistent(s, pid, s.players[pid].(isDead := true));
    assert Consistent(t);
    RecomputeKeepsInv(t, []);
    var u := Recompute(t, []);
    if u.phase == Playing {
      EndOneTurnKeepsInv(u.(currentTurnsLeft := 0));
    }
  }

  lemma PerformDrawKeepsInv(s: GameState, pid: PlayerId, fromBottom: bool)
    requires Inv(s) && s.pendingAction.None?
    ensures Inv(PerformDraw(s, pid, fromBottom))
  {
    if s.phase == Playing && IsAlive(s.players, pid) && |s.deck| > 0 {
      var card := DrawnCard(s.deck, fromBottom);
      var t := s.(topCardPublic := None, deck := DeckAfterDraw(s.deck, fromBottom));
      var p := s.players[pid];
      SameRosterConsistent(s, t);
      assert Alive(t) == Alive(s);
      if card == Bomb {
        if CanCloneAsDefuse(t, pid) {
          assert PerformDraw(s, pid, fromBottom) == Neutralise(t, pid, Clone);
          HandChangeKeepsInv(t, pid, p.(hand := RemoveFirst(p.hand, Clone)));
        } else if Defuse in p.hand {
          assert PerformDraw(s, pid, fromBottom) == Neutralise(t, pid, Defuse);
          HandChangeKeepsInv(t, pid, p.(hand := RemoveFirst(p.hand, Defuse)));
        } else {
          var dead := t.(players := s.players[pid := p.(isDead := true)], discardPile := s.discardPile + [Bomb]);
          assert PerformDraw(s, pid, fromBottom) == EliminationAfterRecompute(dead);
          EliminationKeepsInv(t, pid, dead);
        }
      } else {
        var t2 := t.(players := s.players[pid := p.(hand := p.hand + [card])]);
        assert PerformDraw(s, pid, fromBottom) == EndOneTurnOrAdvance(t2);
        HandChangeKeepsInv(t, pid, p.(hand := p.hand + [card]));
        EndOneTurnKeepsInv(t2);
      }
    }
  }

  /** The invariant does not depend on attack debt. */
  lemma DebtChangeKeepsInv(s: GameState, debts: map<PlayerId, nat>)
    requires Inv(s)
    ensures Inv(s.(pendingExtraTurns := debts))
  {
  }

  lemma AttackKeepsInv(s: GameState, actor: PlayerId)
    requires Inv(s) && s.pendingAction.None?
    ensures Inv(ResolveActiveEffect(s, actor, Attack, []))
  {
    var next := NextAlive(s, s.currentTurnIndex);
    if next != -1 {
      var target := s.playerIds[next];
      var t := OweOneMoreTurn(s, target);
      assert ResolveActiveEffect(s, actor, Attack, []) == EndOneTurnOrAdvance(t);
      DebtChangeKeepsInv(s, t.pendingExtraTurns);
      EndOneTurnKeepsInv(t);
    }
  }

  lemma ResolveActiveEffectKeepsInv(s: GameState, actor: PlayerId, effect: Card, rand: seq<nat>)
    requires Inv(s) && s.pendingAction.None?
    ensures Inv(ResolveActiveEffect(s, actor, effect, rand))
  {
    match effect
    case Skip => EndOneTurnKeepsInv(s);
    case Attack =>
      AttackKeepsInv(s, actor);
      assert ResolveActiveEffect(s, actor, effect, rand) == ResolveActiveEffect(s, actor, Attack, []);
    case DrawFromBottom =>
      PerformDrawKeepsInv(s, actor, true);
      assert ResolveActiveEffect(s, actor, effect, rand) == PerformDraw(s, actor, true);
    case _ =>
  }

  // ---------------------------------------------------------------------------------------
  // Commands

  lemma ResolvePendingKeepsInv(s: GameState, rand: seq<nat>)
    requires Inv(s)
    ensures Inv(ResolvePending(s, rand))
  {
    if s.pendingAction.Some? {
      var pa := s.pendingAction.value;
      var t := s.(pendingAction := None);
      if pa.nopeCount % 2 != 1 {
        ResolveActiveEffectKeepsInv(t, pa.actorId, pa.effectCard, rand);
      }
    }
  }

  lemma PlayNopeKeepsInv(s: GameState, pid: PlayerId)
    requires Inv(s)
    ensures Inv(PlayNope(s, pid))
  {
    if PlayNopeCheck(s, pid).Accepted? {
      var p := s.players[pid];
      var pa := s.pendingAction.value;
      HandChangeKeepsInv(s, pid, p.(hand := RemoveFirst(p.hand, Nope)));
    }
  }

  lemma PlayCardKeepsInv(s: GameState, pid: PlayerId, card: Card)
    requires Inv(s)
    ensures Inv(PlayCard(s, pid, card))
  {
    if PlayCardCheck(s, pid, card).Accepted? {
      var p := s.players[pid];
      HandChangeKeepsInv(s, pid, p.(hand := RemoveFirst(p.hand, card)));
    }
  }

  lemma DrawCardKeepsInv(s: GameState, pid: PlayerId)
    requires Inv(s)
    ensures Inv(DrawCard(s, pid))
  {
    if s.pendingAction.None? {
      PerformDrawKeepsInv(s, pid, false);
    }
  }

  lemma InsertBombKeepsInv(s: GameState, pid: PlayerId, index: int, isPublic: bool)
    requires Inv(s)
    ensures Inv(InsertBomb(s, pid, index, isPublic))
  {
    if InsertBombCheck(s, pid).Accepted? {
      var idx := Clamp(index, |s.deck|);
      var deck := InsertAt(s.deck, idx, Bomb);
      EndOneTurnKeepsInv(
        s.(deck := deck,
           topCardPublic := if idx == |deck| - 1 && isPublic then Some(Bomb) else None,
           defusingPlayerId := None));
    }
  }

  lemma RestartGameKeepsInv(s: GameState, rand: seq<nat>)
    requires Inv(s)
    ensures Inv(RestartGame(s, rand))
  {
    if |s.playerIds| >= MinPlayers {
      StartNewRoundKeepsInv(s, rand);
    }
  }

  lemma ConnectKeepsInv(s: GameState, pid: PlayerId, rand: seq<nat>)
    requires Inv(s)
    ensures Inv(Connect(s, pid, rand))
  {
    var t := s.(players := s.players[pid := Player(StartingHand, false)],
                playerIds := if pid in s.playerIds then s.playerIds else s.playerIds + [pid]);
    if pid !in s.playerIds {
      DistinctAppend(s.playerIds, pid);
    }
    RecomputeKeepsInv(t, rand);
  }

  lemma DisconnectKeepsInv(s: GameState, pid: PlayerId, rand: seq<nat>)
    requires Inv(s)
    ensures Inv(Disconnect(s, pid, rand))
  {
    assert Consistent(Departed(s, pid));
    RecomputeKeepsInv(Departed(s, pid), rand);
  }
}
