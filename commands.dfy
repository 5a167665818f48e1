/**
 * What each socket command does when it is accepted, when it is refused, and how the nope
 * window resolves.
 */
module Commands {
  import opened Cards
  import opened Deck
  import opened Roster
  import opened Engine
  import opened Invariants
  import opened Turns
  import opened Drawing

  // ---------------------------------------------------------------------------------------
  // playNope and the nope window

  /**
   * A Nope is accepted from any living player, on turn or not, exactly when a round is on, an
   * action is pending, the player holds a Nope and is not the one in the defuse lock.
   */
  lemma PlayNopeAcceptedIff(s: GameState, pid: PlayerId)
    ensures PlayNopeCheck(s, pid).Accepted? <==>
      s.phase == Playing && s.pendingAction.Some? && IsAlive(s.players, pid)
      && s.defusingPlayerId != Some(pid) && Nope in s.players[pid].hand
  {
  }

  /** Under the invariant no action is pending during the defuse lock, so the self-defusing refusal never fires. */
  lemma SelfDefusingNopeUnreachable(s: GameState, pid: PlayerId)
    requires Inv(s)
    ensures ValidateCanPlayNope(s, pid) != Rejected(SelfDefusing)
  {
  }

  /**
   * An accepted Nope moves one Nope from the player's hand to the discard pile and adds one to
   * the count of the pending action; nobody else's record and no other field changes. A refused
   * one changes nothing.
   */
  lemma PlayNopeEffect(s: GameState, pid: PlayerId)
    ensures PlayNopeCheck(s, pid).Rejected? ==> PlayNope(s, pid) == s
    ensures PlayNopeCheck(s, pid).Accepted? ==>
      var r := PlayNope(s, pid);
      var pa := s.pendingAction.value;
      pid in r.players && r.players == s.players[pid := r.players[pid]]
      && r.players[pid].isDead == s.players[pid].isDead
      && multiset(r.players[pid].hand) + multiset{Nope} == multiset(s.players[pid].hand)
      && r.discardPile == s.discardPile + [Nope]
      && r.pendingAction == Some(pa.(nopeCount := pa.nopeCount + 1))
      && r == s.(players := r.players, discardPile := r.discardPile, pendingAction := r.pendingAction)
  {
  }

  /** The timer always clears the pending action, and with nothing pending it does nothing. */
  lemma ResolvePendingClears(s: GameState, rand: seq<nat>)
    ensures s.pendingAction.None? ==> ResolvePending(s, rand) == s
    ensures ResolvePending(s, rand).pendingAction.None?
  {
    if s.pendingAction.Some? {
      var pa := s.pendingAction.value;
      var t := s.(pendingAction := None);
      if pa.nopeCount % 2 != 1 {
        match pa.effectCard
        case Skip => EndOneTurnKeepsTable(t);
        case Attack =>
          var next := NextAlive(t, t.currentTurnIndex);
          if next != -1 {
            EndOneTurnKeepsTable(OweOneMoreTurn(t, t.playerIds[next]));
          }
        case DrawFromBottom => DrawLeavesNothingPending(t, pa.actorId, true);
        case _ =>
      }
    }
  }

  /** Recompute never opens a nope window. */
  lemma RecomputeLeavesNoAction(s: GameState, rand: seq<nat>)
    requires s.pendingAction.None?
    ensures Recompute(s, rand).pendingAction.None?
  {
    var s1 := s.(playerIds := Connected(s.playerIds, s.players));
    var r := RecomputePhase(s1, rand);
    if |s1.playerIds| < MinPlayers {
      assert r == ResetToWaiting(s1);
    } else if s1.phase == Waiting {
      assert r == StartNewRound(s1, rand);
    } else if s1.phase == Playing {
      var alive := Alive(s1);
      if |alive| <= 1 {
        assert r == EndRound(s1, SoleSurvivor(alive));
      } else if !CurrentIsAlive(s1) {
        var next := NextAlive(s1, s1.currentTurnIndex);
        if next != -1 {
          assert r == SetCurrentTurnIndex(s1, next);
        }
      }
    }
  }

  /** A draw never opens a pending action. */
  lemma DrawLeavesNothingPending(s: GameState, pid: PlayerId, fromBottom: bool)
    requires s.pendingAction.None?
    ensures PerformDraw(s, pid, fromBottom).pendingAction.None?
  {
    if s.phase == Playing && IsAlive(s.players, pid) && |s.deck| > 0 {
      var card := DrawnCard(s.deck, fromBottom);
      var t := s.(topCardPublic := None, deck := DeckAfterDraw(s.deck, fromBottom));
      var p := s.players[pid];
      if card == Bomb {
        if !CanCloneAsDefuse(t, pid) && Defuse !in p.hand {
          var dead := t.(players := s.players[pid := p.(isDead := true)], discardPile := s.discardPile + [Bomb]);
          assert PerformDraw(s, pid, fromBottom) == EliminationAfterRecompute(dead);
          var u := Recompute(dead, []);
          RecomputeLeavesNoAction(dead, []);
          if u.phase == Playing {
            EndOneTurnKeepsTable(u.(currentTurnsLeft := 0));
          }
        }
      } else {
        var t2 := t.(players := s.players[pid := p.(hand := p.hand + [card])]);
        assert PerformDraw(s, pid, fromBottom) == EndOneTurnOrAdvance(t2);
        EndOneTurnKeepsTable(t2);
      }
    }
  }

  /** An odd number of Nopes cancels the action: only the pending action is cleared. */
  lemma OddNopesCancel(s: GameState, rand: seq<nat>)
    requires s.pendingAction.Some? && s.pendingAction.value.nopeCount % 2 == 1
    ensures ResolvePending(s, rand) == s.(pendingAction := None)
  {
  }

  /**
   * Only the parity of the Nope count matters: any count resolves like 0 or 1 Nopes, so two
   * more Nopes undo each other.
   */
  lemma NopeParityDecides(s: GameState, pa: PendingAction, n: nat, rand: seq<nat>)
    ensures ResolvePending(s.(pendingAction := Some(pa.(nopeCount := n))), rand)
         == ResolvePending(s.(pendingAction := Some(pa.(nopeCount := n % 2))), rand)
    ensures ResolvePending(s.(pendingAction := Some(pa.(nopeCount := n + 2))), rand)
         == ResolvePending(s.(pendingAction := Some(pa.(nopeCount := n))), rand)
  {
    assert (n + 2) % 2 == n % 2 && (n % 2) % 2 == n % 2;
    var t := s.(pendingAction := None);
    var outcome := if n % 2 == 1 then t else ResolveActiveEffect(t, pa.actorId, pa.effectCard, rand);
    assert ResolvePending(s.(pendingAction := Some(pa.(nopeCount := n))), rand) == outcome;
    assert ResolvePending(s.(pendingAction := Some(pa.(nopeCount := n % 2))), rand) == outcome;
    assert ResolvePending(s.(pendingAction := Some(pa.(nopeCount := n + 2))), rand) == outcome;
  }

  // ---------------------------------------------------------------------------------------
  // playCard

  /**
   * A turn card is accepted exactly when the player may act now and either holds the named
   * action card, or plays a Clone while the discard pile shows an action card.
   */
  lemma PlayCardAcceptedIff(s: GameState, pid: PlayerId, card: Card)
    ensures PlayCardCheck(s, pid, card).Accepted? <==>
      ValidateCanPlayTurnCard(s, pid) == Accepted
      && if card == Clone then
           Clone in s.players[pid].hand && DiscardTop(s.discardPile).Some? && IsActionCard(DiscardTop(s.discardPile).value)
         else
           IsActionCard(card) && card in s.players[pid].hand
  {
  }

  /** Only the current, living player may act, and never while an action is pending or during the lock. */
  lemma TurnCardNeedsTurn(s: GameState, pid: PlayerId)
    ensures ValidateCanPlayTurnCard(s, pid) == Accepted <==>
      s.phase == Playing && s.pendingAction.None? && s.defusingPlayerId.None?
      && IsAlive(s.players, pid) && IsCurrent(s, pid)
  {
  }

  /**
   * An accepted card goes from the hand to the discard pile and opens a pending action with no
   * Nopes yet, whose effect is the card itself or, for a Clone, the action card it copied from
   * the top of the discard pile; the effect is always one of the five action cards. The turn,
   * the deck and every other player are untouched. A refused card changes nothing.
   */
  lemma PlayCardEffect(s: GameState, pid: PlayerId, card: Card)
    ensures PlayCardCheck(s, pid, card).Rejected? ==> PlayCard(s, pid, card) == s
    ensures PlayCardCheck(s, pid, card).Accepted? ==>
      var r := PlayCard(s, pid, card);
      var effect := if card == Clone then DiscardTop(s.discardPile).value else card;
      pid in r.players && r.players == s.players[pid := r.players[pid]]
      && multiset(r.players[pid].hand) + multiset{card} == multiset(s.players[pid].hand)
      && r.discardPile == s.discardPile + [card]
      && r.pendingAction == Some(PendingAction(pid, card, effect, if card == Clone then Some(effect) else None, 0))
      && IsActionCard(effect)
      && r == s.(players := r.players, discardPile := r.discardPile, pendingAction := r.pendingAction)
  {
  }

  // ---------------------------------------------------------------------------------------
  // drawCard

  /** The drawCard handler refuses exactly what its verdict refuses, and otherwise draws from the top. */
  lemma DrawCardFollowsCheck(s: GameState, pid: PlayerId)
    ensures DrawCardCheck(s, pid).Rejected? ==> DrawCard(s, pid) == s
    ensures DrawCardCheck(s, pid).Accepted? ==> |s.deck| > 0 && DrawCard(s, pid) == PerformDraw(s, pid, false)
  {
  }

  // ---------------------------------------------------------------------------------------
  // insertBomb

  /**
   * The defuser puts the Bomb back at the requested index clamped into 0 .. |deck|: the deck
   * grows by that one Bomb, every other card keeps its order, the lock is released and the
   * round goes on. The top card becomes public exactly when the Bomb went on top (index
   * |deck|) and the defuser asked for it. Putting the Bomb back ends one turn slot: with slots
   * left the defuser keeps the turn, otherwise the turn goes to the next living seat, another
   * than the defuser's, with 1 + that player's debt. A refused request changes nothing.
   */
  lemma InsertBombPlaces(s: GameState, pid: PlayerId, index: int, isPublic: bool)
    requires Inv(s)
    ensures InsertBombCheck(s, pid).Rejected? ==> InsertBomb(s, pid, index, isPublic) == s
    ensures InsertBombCheck(s, pid).Accepted? ==>
      var idx := Clamp(index, |s.deck|);
      var r := InsertBomb(s, pid, index, isPublic);
      (index < 0 ==> idx == 0) && (index > |s.deck| ==> idx == |s.deck|)
      && (0 <= index <= |s.deck| ==> idx == index)
      && |r.deck| == |s.deck| + 1 && r.deck[idx] == Bomb && r.deck[..idx] + r.deck[idx + 1..] == s.deck
      && r.defusingPlayerId.None? && r.phase == Playing && r.players == s.players
      && (r.topCardPublic == Some(Bomb) <==> idx == |s.deck| && isPublic)
      && (r.topCardPublic.Some? ==> r.topCardPublic == Some(Bomb))
    ensures InsertBombCheck(s, pid).Accepted? && s.currentTurnsLeft > 1 ==>
      var r := InsertBomb(s, pid, index, isPublic);
      r.currentTurnIndex == s.currentTurnIndex && r.currentTurnsLeft == s.currentTurnsLeft - 1
    ensures InsertBombCheck(s, pid).Accepted? && s.currentTurnsLeft <= 1 ==>
      var r := InsertBomb(s, pid, index, isPublic);
      var next := NextAlive(s, s.currentTurnIndex);
      0 <= next < |s.playerIds| && next != s.currentTurnIndex && r.currentTurnIndex == next
      && r.currentTurnsLeft == 1 + Debt(s.pendingExtraTurns, s.playerIds[next])
  {
    if InsertBombCheck(s, pid).Accepted? {
      var idx := Clamp(index, |s.deck|);
      var deck := InsertAt(s.deck, idx, Bomb);
      InsertAtPlaces(s.deck, idx, Bomb);
      var t := s.(deck := deck, topCardPublic := if idx == |deck| - 1 && isPublic then Some(Bomb) else None,
                  defusingPlayerId := None);
      assert InsertBomb(s, pid, index, isPublic) == EndOneTurnOrAdvance(t);
      assert Alive(t) == Alive(s);
      EndOneTurnCases(t);
      EndOneTurnKeepsTable(t);
    }
  }

  // ---------------------------------------------------------------------------------------
  // Rounds, joining and leaving

  /** The revival loop of startNewRound resets every listed record, and no record is added or dropped. */
  lemma RevivedResetsAll(players: map<PlayerId, Player>, ids: seq<PlayerId>)
    requires forall x :: x in players ==> x in ids
    ensures Revived(players, ids).Keys == players.Keys
    ensures forall id :: id in Revived(players, ids) ==> Revived(players, ids)[id] == Player(StartingHand, false)
  {
  }

  /** Every listed player with a record is alive after the revival loop. */
  lemma RevivedAllAlive(players: map<PlayerId, Player>, ids: seq<PlayerId>)
    requires forall x :: x in ids ==> x in players
    ensures AlivePlayers(ids, Revived(players, ids)) == ids
  {
    var p := Revived(players, ids);
    assert forall x :: x in ids ==> IsAlive(p, x);
    AllListedAlive(ids, p);
  }

  /** With every listed player connected, the first seat gets the opening turn. */
  lemma StartNewRoundFirstSeat(s: GameState, rand: seq<nat>)
    requires (forall x :: x in s.playerIds ==> x in s.players) && |s.playerIds| > 0
    ensures StartNewRound(s, rand)
         == SetCurrentTurnIndex(s.(deck := Shuffled(NewRoundCards, rand), topCardPublic := None, discardPile := [],
                phase := Playing, winnerId := None, defusingPlayerId := None,
                pendingExtraTurns := map[], currentTurnsLeft := 1, pendingAction := None,
                players := Revived(s.players, s.playerIds)), 0)
  {
    RevivedAllAlive(s.players, s.playerIds);
    assert IndexOfId(s.playerIds, s.playerIds[0]) == 0;
  }

  /** The opening turn: seat 0, one turn slot, nothing owed by anyone. */
  lemma StartNewRoundOpensTurn(s: GameState, rand: seq<nat>)
    requires (forall x :: x in s.playerIds ==> x in s.players) && |s.playerIds| > 0
    ensures StartNewRound(s, rand).currentTurnIndex == 0 && StartNewRound(s, rand).currentTurnsLeft == 1
    ensures forall q :: Debt(StartNewRound(s, rand).pendingExtraTurns, q) == 0
  {
    StartNewRoundFirstSeat(s, rand);
    var t := s.(deck := Shuffled(NewRoundCards, rand), topCardPublic := None, discardPile := [],
                phase := Playing, winnerId := None, defusingPlayerId := None,
                pendingExtraTurns := map[], currentTurnsLeft := 1, pendingAction := None,
                players := Revived(s.players, s.playerIds));
    assert Debt(t.pendingExtraTurns, s.playerIds[0]) == 0;
    forall q ensures Debt(SetCurrentTurnIndex(t, 0).pendingExtraTurns, q) == 0 {
      SetCurrentDrainsDebt(t, 0, q);
    }
  }

  /**
   * A new round with every listed player connected: a deck with exactly the 26 round cards in
   * some order, an empty discard pile, every player alive with the starting hand, no debts,
   * nothing pending, and the first player in join order to move with a single turn.
   */
  lemma StartNewRoundDeals(s: GameState, rand: seq<nat>)
    requires Registered(s) && |s.playerIds| > 0
    ensures StartNewRound(s, rand).phase == Playing
    ensures StartNewRound(s, rand).currentTurnIndex == 0 && StartNewRound(s, rand).currentTurnsLeft == 1
    ensures multiset(StartNewRound(s, rand).deck) == multiset(NewRoundCards)
    ensures StartNewRound(s, rand).discardPile == [] && StartNewRound(s, rand).topCardPublic.None?
    ensures StartNewRound(s, rand).winnerId.None? && StartNewRound(s, rand).defusingPlayerId.None?
    ensures StartNewRound(s, rand).pendingAction.None? && StartNewRound(s, rand).playerIds == s.playerIds
    ensures StartNewRound(s, rand).players.Keys == s.players.Keys
    ensures forall id :: id in StartNewRound(s, rand).players ==> StartNewRound(s, rand).players[id] == Player(StartingHand, false)
    ensures forall q :: Debt(StartNewRound(s, rand).pendingExtraTurns, q) == 0
  {
    ShuffledIsPermutation(NewRoundCards, rand);
    RevivedResetsAll(s.players, s.playerIds);
    StartNewRoundFirstSeat(s, rand);
    StartNewRoundOpensTurn(s, rand);
  }

  /** restartGame: back to waiting with fewer than two players, otherwise a fresh round. */
  lemma RestartGameOutcome(s: GameState, rand: seq<nat>)
    requires Registered(s)
    ensures var r := RestartGame(s, rand);
      (|s.playerIds| < MinPlayers ==>
        r.phase == Waiting && r.winnerId.None? && r.defusingPlayerId.None? && r.pendingAction.None?
        && r.pendingExtraTurns == map[] && r.players == s.players && r.deck == s.deck)
      && (|s.playerIds| >= MinPlayers ==> r == StartNewRound(s, rand) && r.phase == Playing)
  {
    if |s.playerIds| >= MinPlayers {
      StartNewRoundDeals(s, rand);
    }
  }

  /** With every seat connected, recompute keeps the seating and the set of player records. */
  lemma RecomputeKeepsSeats(t: GameState, rand: seq<nat>)
    requires forall x :: x in t.playerIds ==> x in t.players
    ensures Recompute(t, rand).playerIds == t.playerIds
    ensures Recompute(t, rand).players.Keys == t.players.Keys
  {
    RecomputeWhenSeated(t, rand);
    var r := RecomputePhase(t, rand);
    if |t.playerIds| < MinPlayers {
      assert r == ResetToWaiting(t);
    } else if t.phase == Waiting {
      assert r == StartNewRound(t, rand);
      assert Revived(t.players, t.playerIds).Keys == t.players.Keys;
    } else if t.phase == Playing {
      var alive := Alive(t);
      if |alive| <= 1 {
        assert r == EndRound(t, SoleSurvivor(alive));
      } else if !CurrentIsAlive(t) {
        var next := NextAlive(t, t.currentTurnIndex);
        if next != -1 {
          assert r == SetCurrentTurnIndex(t, next);
        }
      }
    }
  }

  /** The table a newcomer joins before recompute runs: a fresh record, seated last. */
  function Joined(s: GameState, pid: PlayerId): (t: GameState)
    requires pid !in s.playerIds
    ensures t.playerIds == s.playerIds + [pid] && t.players.Keys == s.players.Keys + {pid}
  {
    s.(players := s.players[pid := Player(StartingHand, false)], playerIds := s.playerIds + [pid])
  }

  /** A newcomer keeps every earlier seat and the living player on the move alive and on the move. */
  lemma JoinKeepsCurrent(s: GameState, pid: PlayerId)
    requires Inv(s) && pid !in s.players && s.phase == Playing
    ensures pid !in s.playerIds
    ensures CurrentIsAlive(Joined(s, pid)) && |Alive(Joined(s, pid))| >= 2
  {
    var t := Joined(s, pid);
    var cur := s.playerIds[s.currentTurnIndex];
    assert t.playerIds[s.currentTurnIndex] == cur && cur != pid;
    assert t.players[cur] == s.players[cur];
    assert pid in t.playerIds;
    TwoAlive(t.playerIds, t.players, cur, pid);
  }

  /**
   * A new connection is seated last with the starting hand and alive. The second player to
   * arrive starts a round; during a round the newcomer simply joins it, and nothing else changes.
   */
  lemma ConnectJoins(s: GameState, pid: PlayerId, rand: seq<nat>)
    requires Inv(s) && pid !in s.players
    ensures pid in Connect(s, pid, rand).players && Connect(s, pid, rand).playerIds == s.playerIds + [pid]
    ensures s.phase == Waiting && |s.playerIds| + 1 >= MinPlayers ==> Connect(s, pid, rand).phase == Playing
    ensures s.phase == Playing ==>
      Connect(s, pid, rand) == s.(players := s.players[pid := Player(StartingHand, false)], playerIds := s.playerIds + [pid])
  {
    assert pid !in s.playerIds;
    var t := Joined(s, pid);
    assert Connect(s, pid, rand) == Recompute(t, rand);
    assert forall x :: x in t.playerIds ==> x in t.players;
    RecomputeKeepsSeats(t, rand);
    if s.phase == Waiting && |s.playerIds| + 1 >= MinPlayers {
      StartNewRoundFirstSeat(t, rand);
    }
    if s.phase == Playing {
      JoinKeepsCurrent(s, pid);
    }
  }

  /** No trace of the player: no record, no seat, no debt, not the defuser, not an actor. */
  ghost predicate Gone(t: GameState, pid: PlayerId) {
    pid !in t.players && pid !in t.playerIds && Debt(t.pendingExtraTurns, pid) == 0
    && t.defusingPlayerId != Some(pid)
    && (t.pendingAction.Some? ==> t.pendingAction.value.actorId != pid)
  }

  /** The disconnect handler's clean-up leaves no trace of the player for recompute to see. */
  lemma DepartedIsGone(s: GameState, pid: PlayerId)
    ensures Gone(Departed(s, pid), pid)
  {
  }

  /** Recompute never brings a departed player back, and with fewer than two seats it waits. */
  lemma RecomputeKeepsGone(t: GameState, pid: PlayerId, rand: seq<nat>)
    requires Gone(t, pid)
    ensures Gone(Recompute(t, rand), pid)
    ensures |Recompute(t, rand).playerIds| < MinPlayers ==> Recompute(t, rand).phase == Waiting
  {
    var s1 := t.(playerIds := Connected(t.playerIds, t.players));
    var r := RecomputePhase(s1, rand);
    if |s1.playerIds| < MinPlayers {
      assert r == ResetToWaiting(s1);
    } else if s1.phase == Waiting {
      assert r == StartNewRound(s1, rand);
      assert Revived(s1.players, s1.playerIds).Keys == s1.players.Keys;
    } else if s1.phase == Playing {
      var alive := Alive(s1);
      if |alive| <= 1 {
        assert r == EndRound(s1, SoleSurvivor(alive));
      } else if !CurrentIsAlive(s1) {
        var next := NextAlive(s1, s1.currentTurnIndex);
        if next != -1 {
          assert r == SetCurrentTurnIndex(s1, next);
          SetCurrentDrainsDebt(s1, next, pid);
        }
      }
    }
  }

  /**
   * A disconnect removes every trace of the player: record, seat, debt, defuse lock and an
   * action they started. With fewer than two players left the room goes back to waiting.
   */
  lemma DisconnectRemoves(s: GameState, pid: PlayerId, rand: seq<nat>)
    ensures Gone(Disconnect(s, pid, rand), pid)
    ensures |Disconnect(s, pid, rand).playerIds| < MinPlayers ==> Disconnect(s, pid, rand).phase == Waiting
  {
    DepartedIsGone(s, pid);
    RecomputeKeepsGone(Departed(s, pid), pid, rand);
  }
}
