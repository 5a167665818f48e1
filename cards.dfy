/** Card identities, the fixed hands and decks, and the hand operations of the room. */
module Cards {

  datatype Option<T> = None | Some(value: T)

  /** The ten card identities of the game. */
  datatype Card =
    | Bomb            // eliminates whoever draws it unless neutralised
    | Defuse          // neutralises a drawn Bomb
    | Skip
    | Attack
    | SeeFuture
    | Clone           // replays the effect on top of the discard pile
    | DrawFromBottom
    | Shuffle
    | Nope            // counter-play against a pending action
    | Plain           // no effect

  /** The hand a player receives on joining and at every round start. */
  const StartingHand: seq<Card> := [Defuse, Defuse, Plain]

  /** The 26 cards a new round's deck is built from, before shuffling. */
  const NewRoundCards: seq<Card> := [
    Bomb, Bomb, Bomb, Bomb,
    Defuse, Defuse,
    Skip, Skip,
    Attack, Attack,
    SeeFuture, SeeFuture,
    Clone, Clone,
    DrawFromBottom, DrawFromBottom,
    Shuffle, Shuffle,
    Nope, Nope, Nope,
    Plain, Plain, Plain, Plain, Plain
  ]

  /** The cards that may be played on one's turn, and the effects a Clone may copy. */
  predicate IsActionCard(c: Card) {
    c == Skip || c == Attack || c == SeeFuture || c == DrawFromBottom || c == Shuffle
  }

  /** The first position of `c` in `hand`, or -1 (Array.prototype.indexOf). */
  function IndexOf(hand: seq<Card>, c: Card): (i: int)
    ensures -1 <= i < |hand|
    ensures i == -1 <==> c !in hand
    ensures 0 <= i ==> hand[i] == c && c !in hand[..i]
  {
    if |hand| == 0 then -1
    else if hand[0] == c then 0
    else
      var k := IndexOf(hand[1..], c);
      if k == -1 then
        assert hand == [hand[0]] + hand[1..];
        -1
      else
        assert hand[..k + 1] == [hand[0]] + hand[1..][..k];
        k + 1
  }

  /** `hand.splice(hand.indexOf(c), 1)`: the hand without the first copy of `c`. */
  function RemoveFirst(hand: seq<Card>, c: Card): (r: seq<Card>)
    requires c in hand
    ensures |r| == |hand| - 1
    ensures multiset(r) + multiset{c} == multiset(hand)
    ensures forall d :: d != c ==> (d in r <==> d in hand)
  {
    var i := IndexOf(hand, c);
    assert hand == hand[..i] + [hand[i]] + hand[i + 1..];
    hand[..i] + hand[i + 1..]
  }
}
