/**
 * Card conservation during a round: the cards in the deck, the discard pile and all hands,
 * plus the Bomb held in limbo while the defuse lock is set, form the same multiset before and
 * after every in-round command and every resolution of a pending action. (Joining, leaving
 * and restarting create or drop whole hands and decks, so they are not in-round commands.)
 */
module Conservation {
  import opened Cards
  import opened Deck
  import opened Roster
  import opened Engine
  import opened Invariants

  /** The defused Bomb exists in no container until insertBomb puts a Bomb back. */
  function Limbo(s: GameState): multiset<Card> {
    if s.defusingPlayerId.Some? then multiset{Bomb} else multiset{}
  }

  /** Every card of the round, wherever it is. */
  function AllCards(s: GameState): multiset<Card> {
    multiset(s.deck) + multiset(s.discardPile) + AllHands(s.playerIds, s.players) + Limbo(s)
  }

  /** The commands that make up a round: the four turn commands and the timer callback. */
  datatype RoundCommand =
    | PlayCardCmd(pid: PlayerId, card: Card)
    | PlayNopeCmd(pid: PlayerId)
    | DrawCardCmd(pid: PlayerId)
    | InsertBombCmd(pid: PlayerId, index: int, isPublic: bool)
    | ResolvePendingCmd(rand: seq<nat>)

  function Step(s: GameState, c: RoundCommand): GameState {
    match c
    case PlayCardCmd(pid, card) => PlayCard(s, pid, card)
    case PlayNopeCmd(pid) => PlayNope(s, pid)
    case DrawCardCmd(pid) => DrawCard(s, pid)
    case InsertBombCmd(pid, index, isPublic) => InsertBomb(s, pid, index, isPublic)
    case ResolvePendingCmd(rand) => ResolvePending(s, rand)
  }

  function Run(s: GameState, cmds: seq<RoundCommand>): GameState
    decreases |cmds|
  {
    if |cmds| == 0 then s else Run(Step(s, cmds[0]), cmds[1..])
  }

  // ---------------------------------------------------------------------------------------
  // Moving one card

  lemma DrawSplitsDeck(deck: seq<Card>, fromBottom: bool)
    requires |deck| > 0
    ensures multiset(DeckAfterDraw(deck, fromBottom)) + multiset{DrawnCard(deck, fromBottom)} == multiset(deck)
  {
    if fromBottom {
      assert deck == [deck[0]] + deck[1..];
    } else {
      assert deck == deck[..|deck| - 1] + [deck[|deck| - 1]];
    }
  }

  /** The same multiset added to both sides can be taken away again. */
  lemma Cancel(a: multiset<Card>, b: multiset<Card>, m: multiset<Card>)
    requires a + m == b + m
    ensures a == b
  {
    forall x ensures a[x] == b[x] {
      assert (a + m)[x] == (b + m)[x];
    }
  }

  /** A card added to a listed player's hand adds it to the sum of hands. */
  lemma HandGains(ids: seq<PlayerId>, players: map<PlayerId, Player>, pid: PlayerId, c: Card)
    requires Distinct(ids) && pid in ids && pid in players
    ensures AllHands(ids, players[pid := players[pid].(hand := players[pid].hand + [c])])
         == AllHands(ids, players) + multiset{c}
  {
    var p := players[pid];
    var after := AllHands(ids, players[pid := p.(hand := p.hand + [c])]);
    var before := AllHands(ids, players);
    AllHandsUpdate(ids, players, pid, p.(hand := p.hand + [c]));
    assert multiset(p.hand + [c]) == multiset(p.hand) + multiset{c};
    assert after + multiset(p.hand) == (before + multiset{c}) + multiset(p.hand);
    Cancel(after, before + multiset{c}, multiset(p.hand));
  }

  /** The first copy of a card removed from a listed player's hand leaves the sum of hands. */
  lemma HandLoses(ids: seq<PlayerId>, players: map<PlayerId, Player>, pid: PlayerId, c: Card)
    requires Distinct(ids) && pid in ids && pid in players && c in players[pid].hand
    ensures AllHands(ids, players[pid := players[pid].(hand := RemoveFirst(players[pid].hand, c))]) + multiset{c}
         == AllHands(ids, players)
  {
    var p := players[pid];
    var rest := RemoveFirst(p.hand, c);
    var after := AllHands(ids, players[pid := p.(hand := rest)]);
    var before := AllHands(ids, players);
    AllHandsUpdate(ids, players, pid, p.(hand := rest));
    assert multiset(p.hand) == multiset(rest) + multiset{c};
    assert (after + multiset{c}) + multiset(rest) == before + multiset(rest);
    Cancel(after + multiset{c}, before, multiset(rest));
  }

  /** Marking a listed player dead keeps that player's hand in the sum of hands. */
  lemma HandKept(ids: seq<PlayerId>, players: map<PlayerId, Player>, pid: PlayerId)
    requires Distinct(ids) && pid in ids && pid in players
    ensures AllHands(ids, players[pid := players[pid].(isDead := true)]) == AllHands(ids, players)
  {
    var p := players[pid];
    var after := AllHands(ids, players[pid := p.(isDead := true)]);
    var before := AllHands(ids, players);
    AllHandsUpdate(ids, players, pid, p.(isDead := true));
    Cancel(after, before, multiset(p.hand));
  }

  // ---------------------------------------------------------------------------------------
  // Turn bookkeeping moves no card

  lemma EndOneTurnConserves(s: GameState)
    ensures AllCards(EndOneTurnOrAdvance(s)) == AllCards(s)
  {
    if s.phase == Playing && s.defusingPlayerId.None? {
      var alive := Alive(s);
      if |alive| <= 1 {
        assert EndOneTurnOrAdvance(s) == EndRound(s, SoleSurvivor(alive));
        SameTable(EndRound(s, SoleSurvivor(alive)), s);
      } else {
        var t := s.(currentTurnsLeft := s.currentTurnsLeft - 1);
        if t.currentTurnsLeft > 0 {
          assert EndOneTurnOrAdvance(s) == t;
          SameTable(t, s);
        } else {
          var next := NextAlive(t, t.currentTurnIndex);
          if next != -1 {
            assert EndOneTurnOrAdvance(s) == SetCurrentTurnIndex(t, next);
            SameTable(SetCurrentTurnIndex(t, next), s);
          }
        }
      }
    }
  }

  /** While Playing with two or more connected players and no lock, recompute moves no card. */
  lemma RecomputeConserves(s: GameState, rand: seq<nat>)
    requires forall x :: x in s.playerIds ==> x in s.players
    requires s.phase == Playing && s.defusingPlayerId.None? && |s.playerIds| >= MinPlayers
    ensures AllCards(Recompute(s, rand)) == AllCards(s)
  {
    RecomputeWhenSeated(s, rand);
    var r := RecomputePhase(s, rand);
    assert r.deck == s.deck && r.discardPile == s.discardPile && r.defusingPlayerId.None?;
    assert r.players == s.players && r.playerIds == s.playerIds;
  }

  // ---------------------------------------------------------------------------------------
  // Drawing, one movement at a time

  /** Taking the drawn card off the deck. */
  lemma DeckGivesCard(s: GameState, fromBottom: bool)
    requires |s.deck| > 0
    ensures AllCards(s.(topCardPublic := None, deck := DeckAfterDraw(s.deck, fromBottom)))
          + multiset{DrawnCard(s.deck, fromBottom)} == AllCards(s)
  {
    var t := s.(topCardPublic := None, deck := DeckAfterDraw(s.deck, fromBottom));
    var c := DrawnCard(s.deck, fromBottom);
    DrawSplitsDeck(s.deck, fromBottom);
    forall x ensures (AllCards(t) + multiset{c})[x] == AllCards(s)[x] {
      assert (multiset(t.deck) + multiset{c})[x] == multiset(s.deck)[x];
    }
  }

  /** A drawn card other than a Bomb goes to the drawer's hand. */
  lemma CardToHand(t: GameState, pid: PlayerId, c: Card)
    requires Distinct(t.playerIds) && pid in t.playerIds && pid in t.players
    ensures AllCards(t.(players := t.players[pid := t.players[pid].(hand := t.players[pid].hand + [c])]))
         == AllCards(t) + multiset{c}
  {
    HandGains(t.playerIds, t.players, pid, c);
  }

  /** Neutralising moves the spent card from the hand to the discard pile and the Bomb into limbo. */
  lemma BombToLimbo(t: GameState, pid: PlayerId, c: Card)
    requires Distinct(t.playerIds) && pid in t.playerIds && pid in t.players && c in t.players[pid].hand
    requires t.defusingPlayerId.None?
    ensures AllCards(Neutralise(t, pid, c)) == AllCards(t) + multiset{Bomb}
  {
    var v := t.(players := t.players[pid := t.players[pid].(hand := RemoveFirst(t.players[pid].hand, c))],
                discardPile := t.discardPile + [c]);
    HandToDiscard(t, pid, c);
    assert Neutralise(t, pid, c) == v.(defusingPlayerId := Some(pid));
    forall x ensures AllCards(v.(defusingPlayerId := Some(pid)))[x] == (AllCards(v) + multiset{Bomb})[x] {
    }
  }

  /** An eliminated drawer keeps the hand, and the Bomb goes to the discard pile. */
  lemma BombToDiscard(t: GameState, pid: PlayerId)
    requires Distinct(t.playerIds) && pid in t.playerIds && pid in t.players
    ensures AllCards(t.(players := t.players[pid := t.players[pid].(isDead := true)], discardPile := t.discardPile + [Bomb]))
         == AllCards(t) + multiset{Bomb}
  {
    HandKept(t.playerIds, t.players, pid);
  }

  /** What follows an elimination moves no card. */
  lemma EliminationConserves(dead: GameState)
    requires forall x :: x in dead.playerIds ==> x in dead.players
    requires dead.phase == Playing && dead.defusingPlayerId.None? && |dead.playerIds| >= MinPlayers
    ensures AllCards(EliminationAfterRecompute(dead)) == AllCards(dead)
  {
    RecomputeConserves(dead, []);
    var u := Recompute(dead, []);
    if u.phase == Playing {
      EndOneTurnConserves(u.(currentTurnsLeft := 0));
    }
  }

  /** The part of the invariant the drawing lemmas use: the join order lists distinct, present players. */
  ghost predicate Listed(s: GameState) {
    Distinct(s.playerIds) && forall x :: x in s.playerIds ==> x in s.players
  }

  lemma DrawConservesListed(s: GameState, pid: PlayerId, fromBottom: bool)
    requires Listed(s) && s.defusingPlayerId.None? && (pid in s.players ==> pid in s.playerIds)
    requires s.phase == Playing ==> |s.playerIds| >= MinPlayers
    ensures AllCards(PerformDraw(s, pid, fromBottom)) == AllCards(s)
  {
    if s.phase == Playing && IsAlive(s.players, pid) && |s.deck| > 0 {
      var card := DrawnCard(s.deck, fromBottom);
      var t := s.(topCardPublic := None, deck := DeckAfterDraw(s.deck, fromBottom));
      var p := s.players[pid];
      DeckGivesCard(s, fromBottom);
      if card == Bomb {
        if CanCloneAsDefuse(t, pid) {
          BombToLimbo(t, pid, Clone);
        } else if Defuse in p.hand {
          BombToLimbo(t, pid, Defuse);
        } else {
          var dead := t.(players := s.players[pid := p.(isDead := true)], discardPile := s.discardPile + [Bomb]);
          BombToDiscard(t, pid);
          assert forall x :: x in dead.playerIds ==> x in dead.players;
          EliminationConserves(dead);
        }
      } else {
        CardToHand(t, pid, card);
        EndOneTurnConserves(t.(players := s.players[pid := p.(hand := p.hand + [card])]));
      }
    }
  }

  lemma PerformDrawConserves(s: GameState, pid: PlayerId, fromBottom: bool)
    requires Inv(s) && s.defusingPlayerId.None?
    ensures AllCards(PerformDraw(s, pid, fromBottom)) == AllCards(s)
  {
    assert s.phase == Playing ==> |s.playerIds| >= MinPlayers by {
      assert |Alive(s)| <= |s.playerIds|;
    }
    DrawConservesListed(s, pid, fromBottom);
  }

  // ---------------------------------------------------------------------------------------
  // Effects and the timer callback

  /** Two states with the same deck, discard pile, seats, hands and lock hold the same cards. */
  lemma SameTable(s: GameState, t: GameState)
    requires s.deck == t.deck && s.discardPile == t.discardPile && s.playerIds == t.playerIds
    requires s.players == t.players && s.defusingPlayerId == t.defusingPlayerId
    ensures AllCards(s) == AllCards(t)
  {
  }

  lemma AttackConserves(s: GameState, actor: PlayerId)
    requires s.defusingPlayerId.None?
    ensures AllCards(ResolveActiveEffect(s, actor, Attack, [])) == AllCards(s)
  {
    var next := NextAlive(s, s.currentTurnIndex);
    if next != -1 {
      var target := s.playerIds[next];
      var owed := OweOneMoreTurn(s, target);
      assert ResolveActiveEffect(s, actor, Attack, []) == EndOneTurnOrAdvance(owed);
      SameTable(owed, s);
      EndOneTurnConserves(owed);
    } else {
      assert ResolveActiveEffect(s, actor, Attack, []) == EndRound(s, Some(actor));
      SameTable(EndRound(s, Some(actor)), s);
    }
  }

  lemma ShuffleConserves(s: GameState, actor: PlayerId, rand: seq<nat>)
    ensures AllCards(ResolveActiveEffect(s, actor, Shuffle, rand)) == AllCards(s)
  {
    ShuffledIsPermutation(s.deck, rand);
  }

  lemma ResolveActiveEffectConserves(s: GameState, actor: PlayerId, effect: Card, rand: seq<nat>)
    requires Inv(s) && s.defusingPlayerId.None?
    ensures AllCards(ResolveActiveEffect(s, actor, effect, rand)) == AllCards(s)
  {
    var r := ResolveActiveEffect(s, actor, effect, rand);
    if effect == Skip {
      assert r == EndOneTurnOrAdvance(s);
      EndOneTurnConserves(s);
    } else if effect == Attack {
      assert r == ResolveActiveEffect(s, actor, Attack, []);
      AttackConserves(s, actor);
    } else if effect == DrawFromBottom {
      assert r == PerformDraw(s, actor, true);
      PerformDrawConserves(s, actor, true);
    } else if effect == Shuffle {
      ShuffleConserves(s, actor, rand);
    } else {
      assert r == s;
    }
  }

  lemma ResolvePendingConserves(s: GameState, rand: seq<nat>)
    requires Inv(s)
    ensures AllCards(ResolvePending(s, rand)) == AllCards(s)
  {
    if s.pendingAction.Some? {
      var pa := s.pendingAction.value;
      var t := s.(pendingAction := None);
      if pa.nopeCount % 2 != 1 {
        ResolveActiveEffectConserves(t, pa.actorId, pa.effectCard, rand);
      }
    }
  }

  // ---------------------------------------------------------------------------------------
  // Commands

  /** A played card goes from the player's hand onto the discard pile. */
  lemma HandToDiscard(s: GameState, pid: PlayerId, c: Card)
    requires Distinct(s.playerIds) && pid in s.playerIds && pid in s.players && c in s.players[pid].hand
    ensures AllCards(s.(players := s.players[pid := s.players[pid].(hand := RemoveFirst(s.players[pid].hand, c))],
                        discardPile := s.discardPile + [c]))
         == AllCards(s)
  {
    var u := s.(players := s.players[pid := s.players[pid].(hand := RemoveFirst(s.players[pid].hand, c))],
                discardPile := s.discardPile + [c]);
    HandLoses(s.playerIds, s.players, pid, c);
    var handsAfter := AllHands(u.playerIds, u.players);
    var handsBefore := AllHands(s.playerIds, s.players);
    assert multiset(u.discardPile) == multiset(s.discardPile) + multiset{c};
    forall x ensures AllCards(u)[x] == AllCards(s)[x] {
      assert (handsAfter + multiset{c})[x] == handsBefore[x];
    }
  }

  lemma PlayNopeConserves(s: GameState, pid: PlayerId)
    requires Inv(s)
    ensures AllCards(PlayNope(s, pid)) == AllCards(s)
  {
    if PlayNopeCheck(s, pid).Accepted? {
      var p := s.players[pid];
      var u := s.(players := s.players[pid := p.(hand := RemoveFirst(p.hand, Nope))],
                  discardPile := s.discardPile + [Nope]);
      HandToDiscard(s, pid, Nope);
      SameTable(PlayNope(s, pid), u);
    }
  }

  lemma PlayCardConserves(s: GameState, pid: PlayerId, card: Card)
    requires Inv(s)
    ensures AllCards(PlayCard(s, pid, card)) == AllCards(s)
  {
    if PlayCardCheck(s, pid, card).Accepted? {
      HandToDiscard(s, pid, card);
    }
  }

  lemma DrawCardConserves(s: GameState, pid: PlayerId)
    requires Inv(s)
    ensures AllCards(DrawCard(s, pid)) == AllCards(s)
  {
    if s.defusingPlayerId.None? {
      PerformDrawConserves(s, pid, false);
    }
  }

  /** The Bomb leaves limbo for the deck. */
  lemma LimboToDeck(s: GameState, deck: seq<Card>, top: Option<Card>)
    requires s.defusingPlayerId.Some? && multiset(deck) == multiset(s.deck) + multiset{Bomb}
    ensures AllCards(s.(deck := deck, topCardPublic := top, defusingPlayerId := None)) == AllCards(s)
  {
    var u := s.(deck := deck, topCardPublic := top, defusingPlayerId := None);
    forall x ensures AllCards(u)[x] == AllCards(s)[x] {
      assert multiset(deck)[x] == (multiset(s.deck) + multiset{Bomb})[x];
    }
  }

  lemma InsertBombConserves(s: GameState, pid: PlayerId, index: int, isPublic: bool)
    ensures AllCards(InsertBomb(s, pid, index, isPublic)) == AllCards(s)
  {
    if InsertBombCheck(s, pid).Accepted? {
      var idx := Clamp(index, |s.deck|);
      var deck := InsertAt(s.deck, idx, Bomb);
      var top := if idx == |deck| - 1 && isPublic then Some(Bomb) else None;
      var placed := s.(deck := deck, topCardPublic := top, defusingPlayerId := None);
      assert InsertBomb(s, pid, index, isPublic) == EndOneTurnOrAdvance(placed);
      InsertAtPlaces(s.deck, idx, Bomb);
      LimboToDeck(s, deck, top);
      EndOneTurnConserves(placed);
    }
  }

  /** One in-round command keeps the invariant and moves cards without creating or destroying any. */
  lemma StepConserves(s: GameState, c: RoundCommand)
    requires Inv(s)
    ensures Inv(Step(s, c)) && AllCards(Step(s, c)) == AllCards(s)
  {
    match c
    case PlayCardCmd(pid, card) => PlayCardKeepsInv(s, pid, card); PlayCardConserves(s, pid, card);
    case PlayNopeCmd(pid) => PlayNopeKeepsInv(s, pid); PlayNopeConserves(s, pid);
    case DrawCardCmd(pid) => DrawCardKeepsInv(s, pid); DrawCardConserves(s, pid);
    case InsertBombCmd(pid, index, isPublic) =>
      InsertBombKeepsInv(s, pid, index, isPublic); InsertBombConserves(s, pid, index, isPublic);
    case ResolvePendingCmd(rand) => ResolvePendingKeepsInv(s, rand); ResolvePendingConserves(s, rand);
  }

  /** Over any sequence of in-round commands the multiset of all cards stays the same. */
  lemma {:induction false} RunConserves(s: GameState, cmds: seq<RoundCommand>)
    requires Inv(s)
    ensures Inv(Run(s, cmds)) && AllCards(Run(s, cmds)) == AllCards(s)
    decreases |cmds|
  {
    if |cmds| > 0 {
      StepConserves(s, cmds[0]);
      RunConserves(Step(s, cmds[0]), cmds[1..]);
    }
  }
}
