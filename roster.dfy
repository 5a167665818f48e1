/** Players, the join order, the circular scan for the next living player and the sum of hands. */
module Roster {
  import opened Cards

  /**
   * A connection's socket id. Socket ids are never empty, so the source's truthiness tests on
   * ids (`if (!pid)`, `if (defusingPlayerId)`) are presence tests.
   */
  type PlayerId = s: string | s != "" witness "p"

  datatype Player = Player(hand: seq<Card>, isDead: bool)

  /** `players[pid] && !players[pid].isDead`. */
  predicate IsAlive(players: map<PlayerId, Player>, pid: PlayerId) {
    pid in players && !players[pid].isDead
  }

  predicate Distinct(ids: seq<PlayerId>) {
    forall i, j :: 0 <= i < j < |ids| ==> ids[i] != ids[j]
  }

  lemma DistinctTail(ids: seq<PlayerId>)
    requires |ids| > 0 && Distinct(ids)
    ensures Distinct(ids[1..]) && ids[0] !in ids[1..]
  {
    forall i, j | 0 <= i < j < |ids[1..]| ensures ids[1..][i] != ids[1..][j] {
      assert ids[i + 1] != ids[j + 1];
    }
    forall i | 0 <= i < |ids[1..]| ensures ids[1..][i] != ids[0] {
      assert ids[i + 1] != ids[0];
    }
  }

  lemma DistinctCons(x: PlayerId, rest: seq<PlayerId>)
    requires Distinct(rest) && x !in rest
    ensures Distinct([x] + rest)
  {
    var ids := [x] + rest;
    forall i, j | 0 <= i < j < |ids| ensures ids[i] != ids[j] {
      if i > 0 { assert ids[i] == rest[i - 1] && ids[j] == rest[j - 1]; }
      else { assert ids[j] == rest[j - 1]; }
    }
  }

  /** getAlivePlayers: the living players, in join order. */
  function AlivePlayers(ids: seq<PlayerId>, players: map<PlayerId, Player>): (r: seq<PlayerId>)
    ensures |r| <= |ids|
    ensures forall x :: x in r <==> x in ids && IsAlive(players, x)
    ensures |r| > 0 ==> IsAlive(players, r[0])
    ensures Distinct(ids) ==> Distinct(r)
  {
    if |ids| == 0 then []
    else
      var rest := AlivePlayers(ids[1..], players);
      assert forall x :: x in ids <==> x == ids[0] || x in ids[1..];
      if IsAlive(players, ids[0]) then
        assert Distinct(ids) ==> Distinct([ids[0]] + rest) by {
          if Distinct(ids) { DistinctTail(ids); DistinctCons(ids[0], rest); }
        }
        [ids[0]] + rest
      else
        assert Distinct(ids) ==> Distinct(ids[1..]) by { if Distinct(ids) { DistinctTail(ids); } }
        rest
  }

  /** When every listed player is alive, the list of the living is the whole list. */
  lemma {:induction false} AllListedAlive(ids: seq<PlayerId>, players: map<PlayerId, Player>)
    requires forall x :: x in ids ==> IsAlive(players, x)
    ensures AlivePlayers(ids, players) == ids
  {
    if |ids| > 0 {
      assert ids[0] in ids;
      AllListedAlive(ids[1..], players);
      assert ids == [ids[0]] + ids[1..];
    }
  }

  /** `playerIds.filter(pid => players[pid])`: the ids that still have a player record. */
  function Connected(ids: seq<PlayerId>, players: map<PlayerId, Player>): (r: seq<PlayerId>)
    ensures |r| <= |ids|
    ensures forall x :: x in r <==> x in ids && x in players
    ensures (forall x :: x in ids ==> x in players) ==> r == ids
    ensures Distinct(ids) ==> Distinct(r)
  {
    if |ids| == 0 then []
    else
      var rest := Connected(ids[1..], players);
      assert forall x :: x in ids <==> x == ids[0] || x in ids[1..];
      if ids[0] in players then
        assert Distinct(ids) ==> Distinct([ids[0]] + rest) by {
          if Distinct(ids) { DistinctTail(ids); DistinctCons(ids[0], rest); }
        }
        [ids[0]] + rest
      else
        assert Distinct(ids) ==> Distinct(ids[1..]) by { if Distinct(ids) { DistinctTail(ids); } }
        rest
  }

  /** `playerIds.filter(id => id !== pid)`. */
  function Without(ids: seq<PlayerId>, pid: PlayerId): (r: seq<PlayerId>)
    ensures |r| <= |ids|
    ensures forall x :: x in r <==> x in ids && x != pid
    ensures Distinct(ids) ==> Distinct(r)
  {
    if |ids| == 0 then []
    else
      var rest := Without(ids[1..], pid);
      assert forall x :: x in ids <==> x == ids[0] || x in ids[1..];
      if ids[0] != pid then
        assert Distinct(ids) ==> Distinct([ids[0]] + rest) by {
          if Distinct(ids) { DistinctTail(ids); DistinctCons(ids[0], rest); }
        }
        [ids[0]] + rest
      else
        assert Distinct(ids) ==> Distinct(ids[1..]) by { if Distinct(ids) { DistinctTail(ids); } }
        rest
  }

  /** `ids.indexOf(pid)`. */
  function IndexOfId(ids: seq<PlayerId>, pid: PlayerId): (i: int)
    ensures -1 <= i < |ids|
    ensures i == -1 <==> pid !in ids
    ensures 0 <= i ==> ids[i] == pid
    ensures forall j :: 0 <= j < i ==> ids[j] != pid
  {
    if |ids| == 0 then -1
    else if ids[0] == pid then 0
    else
      var k := IndexOfId(ids[1..], pid);
      if k == -1 then (assert ids == [ids[0]] + ids[1..]; -1)
      else k + 1
  }

  // ---------------------------------------------------------------------------------------
  // Seating order

  /** `r` lists its ids in the order they are seated in `ids`. */
  ghost predicate InSeatOrder(r: seq<PlayerId>, ids: seq<PlayerId>) {
    forall i, j :: 0 <= i < j < |r| ==> IndexOfId(ids, r[i]) < IndexOfId(ids, r[j])
  }

  /** Past the first seat, a seat number is one more than in the rest of the list. */
  lemma IndexOfIdTail(ids: seq<PlayerId>, x: PlayerId)
    requires |ids| > 0 && x != ids[0] && x in ids[1..]
    ensures IndexOfId(ids, x) == IndexOfId(ids[1..], x) + 1 >= 1
  {
  }

  /** Keeping a first seat in front of a list in seat order of the other seats gives a list in seat order. */
  lemma InSeatOrderCons(ids: seq<PlayerId>, rest: seq<PlayerId>, keepFirst: bool)
    requires |ids| > 0 && Distinct(ids) && (forall x :: x in rest ==> x in ids[1..])
    requires InSeatOrder(rest, ids[1..])
    ensures InSeatOrder(if keepFirst then [ids[0]] + rest else rest, ids)
  {
    DistinctTail(ids);
    forall x | x in rest ensures IndexOfId(ids, x) == IndexOfId(ids[1..], x) + 1 >= 1 {
      IndexOfIdTail(ids, x);
    }
    var r := if keepFirst then [ids[0]] + rest else rest;
    forall i, j | 0 <= i < j < |r| ensures IndexOfId(ids, r[i]) < IndexOfId(ids, r[j]) {
      if keepFirst {
        assert r[j] == rest[j - 1] && r[j] in rest;
        if i > 0 {
          assert r[i] == rest[i - 1] && r[i] in rest;
        }
      } else {
        assert r[i] in rest && r[j] in rest;
      }
    }
  }

  /** getAlivePlayers keeps the join order. */
  lemma {:induction false} AliveInSeatOrder(ids: seq<PlayerId>, players: map<PlayerId, Player>)
    requires Distinct(ids)
    ensures InSeatOrder(AlivePlayers(ids, players), ids)
  {
    if |ids| > 0 {
      DistinctTail(ids);
      AliveInSeatOrder(ids[1..], players);
      InSeatOrderCons(ids, AlivePlayers(ids[1..], players), IsAlive(players, ids[0]));
    }
  }

  /** The filter of recompute keeps the join order. */
  lemma {:induction false} ConnectedInSeatOrder(ids: seq<PlayerId>, players: map<PlayerId, Player>)
    requires Distinct(ids)
    ensures InSeatOrder(Connected(ids, players), ids)
  {
    if |ids| > 0 {
      DistinctTail(ids);
      ConnectedInSeatOrder(ids[1..], players);
      InSeatOrderCons(ids, Connected(ids[1..], players), ids[0] in players);
    }
  }

  /** The filter of the disconnect handler keeps the join order of the players who stay. */
  lemma {:induction false} WithoutInSeatOrder(ids: seq<PlayerId>, pid: PlayerId)
    requires Distinct(ids)
    ensures InSeatOrder(Without(ids, pid), ids)
  {
    if |ids| > 0 {
      DistinctTail(ids);
      WithoutInSeatOrder(ids[1..], pid);
      InSeatOrderCons(ids, Without(ids[1..], pid), ids[0] != pid);
    }
  }

  /** Eliminating one listed, living player shortens the list of living players by exactly one. */
  lemma {:induction false} AliveAfterDeath(ids: seq<PlayerId>, players: map<PlayerId, Player>, pid: PlayerId)
    requires Distinct(ids) && pid in ids && IsAlive(players, pid)
    ensures |AlivePlayers(ids, players[pid := players[pid].(isDead := true)])| == |AlivePlayers(ids, players)| - 1
  {
    var d := players[pid := players[pid].(isDead := true)];
    DistinctTail(ids);
    if ids[0] == pid {
      assert forall x :: x in ids[1..] ==> IsAlive(d, x) == IsAlive(players, x);
      AliveSame(ids[1..], d, players);
    } else {
      assert pid in ids[1..];
      AliveAfterDeath(ids[1..], players, pid);
    }
  }

  /** The living players of a list depend only on the listed players' records. */
  lemma {:induction false} AliveSame(ids: seq<PlayerId>, p1: map<PlayerId, Player>, p2: map<PlayerId, Player>)
    requires forall x :: x in ids ==> IsAlive(p1, x) == IsAlive(p2, x)
    ensures AlivePlayers(ids, p1) == AlivePlayers(ids, p2)
  {
    if |ids| > 0 {
      assert ids[0] in ids;
      AliveSame(ids[1..], p1, p2);
    }
  }

  // ---------------------------------------------------------------------------------------
  // getNextAliveIndex

  /** Whether the seat `step` places after `from`, going round the table, holds a living player. */
  predicate AliveAfter(ids: seq<PlayerId>, players: map<PlayerId, Player>, from: nat, step: nat)
    requires |ids| > 0
  {
    IsAlive(players, ids[(from + step) % |ids|])
  }

  /** The scanning loop of getNextAliveIndex, from iteration `step` on. */
  function NextAliveFrom(ids: seq<PlayerId>, players: map<PlayerId, Player>, from: nat, step: nat): (r: int)
    requires |ids| > 0 && 1 <= step
    ensures r == -1 <==> forall j :: step <= j <= |ids| ==> !AliveAfter(ids, players, from, j)
    ensures r != -1 ==>
      exists k :: (step <= k <= |ids| && AliveAfter(ids, players, from, k)
        && r == (from + k) % |ids|
        && forall j :: step <= j < k ==> !AliveAfter(ids, players, from, j))
    decreases |ids| + 1 - step
  {
    if step > |ids| then -1
    else if AliveAfter(ids, players, from, step) then (from + step) % |ids|
    else NextAliveFrom(ids, players, from, step + 1)
  }

  /** Every seat is reached by one of the steps 1 .. |ids| from any starting index. */
  lemma {:induction false} SeatReached(n: nat, from: nat, i: nat) returns (k: nat)
    requires 0 < n && i < n
    ensures 1 <= k <= n && (from + k) % n == i
    decreases from
  {
    if from >= n {
      k := SeatReached(n, from - n, i);
      ModShift(from - n + k, n);
    } else if i > from {
      k := i - from;
      ModSmall(i, n);
    } else {
      k := i - from + n;
      ModSmall(i, n);
      ModShift(i, n);
    }
  }

  /** The scan from a given step looks only at who is alive. */
  lemma {:induction false} NextAliveFromSame(ids: seq<PlayerId>, p1: map<PlayerId, Player>, p2: map<PlayerId, Player>,
                                             from: nat, step: nat)
    requires |ids| > 0 && 1 <= step
    requires forall x :: x in ids ==> IsAlive(p1, x) == IsAlive(p2, x)
    ensures NextAliveFrom(ids, p1, from, step) == NextAliveFrom(ids, p2, from, step)
    decreases |ids| + 1 - step
  {
    if step <= |ids| {
      assert ids[(from + step) % |ids|] in ids;
      NextAliveFromSame(ids, p1, p2, from, step + 1);
    }
  }

  lemma MulAtLeast(k: int, n: int)
    requires k >= 1 && n > 0
    ensures k * n >= n
  {
  }

  /** A quotient-remainder decomposition determines the remainder. */
  lemma ModUnique(y: int, a: int, n: int, r: int)
    requires 0 < n && 0 <= r < n && y == a * n + r
    ensures y % n == r
  {
    var b := y / n;
    assert y == b * n + y % n;
    if a > b {
      MulAtLeast(a - b, n);
    } else if b > a {
      MulAtLeast(b - a, n);
    }
  }

  lemma ModSmall(x: nat, n: nat)
    requires x < n
    ensures x % n == x
  {
    ModUnique(x, 0, n, x);
  }

  lemma ModShift(x: nat, n: nat)
    requires 0 < n
    ensures (x + n) % n == x % n
  {
    var q := x / n;
    assert x == q * n + x % n;
    assert x + n == (q + 1) * n + x % n;
    ModUnique(x + n, q + 1, n, x % n);
  }

  /**
   * getNextAliveIndex: -1 exactly when nobody in `ids` is alive (in particular when `ids` is
   * empty); otherwise a living player's index, the first one met scanning circularly from
   * `from + 1`, with `from` itself checked last.
   */
  function GetNextAliveIndex(ids: seq<PlayerId>, players: map<PlayerId, Player>, from: nat): (r: int)
    ensures r == -1 <==> forall i :: 0 <= i < |ids| ==> !IsAlive(players, ids[i])
    ensures r != -1 ==> 0 <= r < |ids| && IsAlive(players, ids[r])
    ensures r != -1 ==>
      exists k :: (1 <= k <= |ids| && AliveAfter(ids, players, from, k)
        && r == (from + k) % |ids|
        && forall j :: 1 <= j < k ==> !AliveAfter(ids, players, from, j))
  {
    if |ids| == 0 then -1
    else
      var r := NextAliveFrom(ids, players, from, 1);
      if r == -1 then
        assert forall i :: 0 <= i < |ids| ==> !IsAlive(players, ids[i]) by {
          forall i | 0 <= i < |ids| ensures !IsAlive(players, ids[i]) {
            var k := SeatReached(|ids|, from, i);
            assert !AliveAfter(ids, players, from, k);
          }
        }
        r
      else r
  }

  /** The step that lands back on `from` is the last one of the scan. */
  lemma OnlyLastStepReturns(n: nat, from: nat, k: nat)
    requires from < n && 1 <= k <= n && (from + k) % n == from
    ensures k == n
  {
    if k < n {
      if from + k < n {
        ModSmall(from + k, n);
      } else {
        ModShift(from + k - n, n);
        ModSmall(from + k - n, n);
      }
    }
  }

  /** The seat found by getNextAliveIndex depends only on who is alive. */
  lemma NextAliveSame(ids: seq<PlayerId>, p1: map<PlayerId, Player>, p2: map<PlayerId, Player>, from: nat)
    requires forall x :: x in ids ==> IsAlive(p1, x) == IsAlive(p2, x)
    ensures GetNextAliveIndex(ids, p1, from) == GetNextAliveIndex(ids, p2, from)
  {
    if |ids| > 0 {
      NextAliveFromSame(ids, p1, p2, from, 1);
    }
  }

  /**
   * When some other seat than `from` holds a living player, getNextAliveIndex moves away from
   * `from`: the starting seat is only returned when it is the sole living one.
   */
  lemma NextAliveMovesOn(ids: seq<PlayerId>, players: map<PlayerId, Player>, from: nat, other: nat)
    requires from < |ids| && other < |ids| && other != from && IsAlive(players, ids[other])
    ensures GetNextAliveIndex(ids, players, from) != from
  {
    var n := |ids|;
    var r := GetNextAliveIndex(ids, players, from);
    assert r != -1;
    var k :| 1 <= k <= n && AliveAfter(ids, players, from, k) && r == (from + k) % n
          && forall j :: 1 <= j < k ==> !AliveAfter(ids, players, from, j);
    if r == from {
      OnlyLastStepReturns(n, from, k);
      var k' := SeatReached(n, from, other);
      assert k' < k && AliveAfter(ids, players, from, k');
    }
  }

  // ---------------------------------------------------------------------------------------
  // The cards held by all players in the join order.

  function HandOf(players: map<PlayerId, Player>, pid: PlayerId): multiset<Card> {
    if pid in players then multiset(players[pid].hand) else multiset{}
  }

  /** Σ hands: the multiset union of the hands of the players listed in `ids`. */
  function AllHands(ids: seq<PlayerId>, players: map<PlayerId, Player>): multiset<Card> {
    if |ids| == 0 then multiset{} else HandOf(players, ids[0]) + AllHands(ids[1..], players)
  }

  /** Changing the record of a player who is not listed leaves the sum of hands alone. */
  lemma {:induction false} AllHandsFrame(ids: seq<PlayerId>, players: map<PlayerId, Player>, pid: PlayerId, p: Player)
    requires pid !in ids
    ensures AllHands(ids, players[pid := p]) == AllHands(ids, players)
  {
    if |ids| > 0 {
      assert ids[0] != pid;
      AllHandsFrame(ids[1..], players, pid, p);
    }
  }

  /** Replacing one listed player's record swaps that player's hand in the sum of hands. */
  lemma {:induction false} AllHandsUpdate(ids: seq<PlayerId>, players: map<PlayerId, Player>, pid: PlayerId, p: Player)
    requires Distinct(ids) && pid in ids && pid in players
    ensures AllHands(ids, players[pid := p]) + multiset(players[pid].hand)
         == AllHands(ids, players) + multiset(p.hand)
  {
    var q := players[pid := p];
    DistinctTail(ids);
    var rest := ids[1..];
    var old0, new0 := HandOf(players, ids[0]), HandOf(q, ids[0]);
    assert AllHands(ids, q) == new0 + AllHands(rest, q);
    assert AllHands(ids, players) == old0 + AllHands(rest, players);
    if ids[0] == pid {
      AllHandsFrame(rest, players, pid, p);
      assert new0 == multiset(p.hand) && old0 == multiset(players[pid].hand);
    } else {
      assert new0 == old0;
      assert pid in rest;
      AllHandsUpdate(rest, players, pid, p);
      calc {
        AllHands(ids, q) + multiset(players[pid].hand);
        new0 + (AllHands(rest, q) + multiset(players[pid].hand));
        old0 + (AllHands(rest, players) + multiset(p.hand));
        AllHands(ids, players) + multiset(p.hand);
      }
    }
  }

  // ---------------------------------------------------------------------------------------
  // Attack debt

  /** `pendingExtraTurns[pid] || 0`. */
  function Debt(debts: map<PlayerId, nat>, pid: PlayerId): nat {
    if pid in debts then debts[pid] else 0
  }
}
