/**
 * The draw pile and the discard pile. The top of the draw pile is the LAST element of the
 * sequence: a top draw removes the last element, a bottom draw the first, and inserting at
 * index |deck| puts a card on top.
 */
module Deck {
  import opened Cards

  /** The last card pushed onto the discard pile, if any. */
  function DiscardTop(pile: seq<Card>): (r: Option<Card>)
    ensures r.None? <==> |pile| == 0
    ensures r.Some? ==> r.value == pile[|pile| - 1] && r.value in pile
  {
    if |pile| > 0 then Some(pile[|pile| - 1]) else None
  }

  // ---------------------------------------------------------------------------------------
  // Fisher-Yates shuffle. The random source is a parameter: the k-th swap (k = 0, 1, ...)
  // of the loop at position i uses index rand[k] % (i + 1), or 0 once `rand` is used up, so
  // every choice Math.random could make is some `rand`.

  /** The swap partner the k-th iteration picks for position i. */
  function Pick(rand: seq<nat>, k: nat, i: nat): (j: nat)
    ensures j <= i
  {
    if k < |rand| then rand[k] % (i + 1) else 0
  }

  function Swap<T>(s: seq<T>, i: nat, j: nat): seq<T>
    requires i < |s| && j < |s|
  {
    s[i := s[j]][j := s[i]]
  }

  /** The iterations for positions i, i - 1, ..., 1 of the shuffle loop, applied to `s`. */
  function ShuffleDown<T>(s: seq<T>, i: int, rand: seq<nat>): seq<T>
    requires i < |s|
    decreases i
  {
    if i <= 0 then s
    else ShuffleDown(Swap(s, i, Pick(rand, |s| - 1 - i, i)), i - 1, rand)
  }

  /** The order the shuffle leaves `s` in when Math.random yields `rand`. */
  function Shuffled<T>(s: seq<T>, rand: seq<nat>): seq<T> {
    ShuffleDown(s, |s| - 1, rand)
  }

  lemma SwapPermutes<T>(s: seq<T>, i: nat, j: nat)
    requires i < |s| && j < |s|
    ensures |Swap(s, i, j)| == |s|
    ensures multiset(Swap(s, i, j)) == multiset(s)
  {
    if i != j {
      var u := s[i := s[j]];
      assert multiset(u) == multiset(s) - multiset{s[i]} + multiset{s[j]};
      assert Swap(s, i, j) == u[j := s[i]];
    }
  }

  lemma {:induction false} ShuffleDownPermutes<T>(s: seq<T>, i: int, rand: seq<nat>)
    requires i < |s|
    ensures |ShuffleDown(s, i, rand)| == |s|
    ensures multiset(ShuffleDown(s, i, rand)) == multiset(s)
    decreases i
  {
    if i > 0 {
      var t := Swap(s, i, Pick(rand, |s| - 1 - i, i));
      SwapPermutes(s, i, Pick(rand, |s| - 1 - i, i));
      ShuffleDownPermutes(t, i - 1, rand);
    }
  }

  /** Whatever indices are drawn, the shuffle is a permutation: same length, same multiset. */
  lemma ShuffledIsPermutation<T>(s: seq<T>, rand: seq<nat>)
    ensures |Shuffled(s, rand)| == |s|
    ensures multiset(Shuffled(s, rand)) == multiset(s)
  {
    ShuffleDownPermutes(s, |s| - 1, rand);
  }

  /** shuffleArrayInPlace: Fisher-Yates over the array, from the last position down to 1. */
  method ShuffleInPlace<T>(a: array<T>, rand: seq<nat>)
    modifies a
    ensures a[..] == Shuffled(old(a[..]), rand)
    ensures multiset(a[..]) == multiset(old(a[..]))
  {
    var i := a.Length - 1;
    while i > 0
      invariant -1 <= i < a.Length
      invariant ShuffleDown(a[..], i, rand) == Shuffled(old(a[..]), rand)
    {
      var j := Pick(rand, a.Length - 1 - i, i);
      ghost var before := a[..];
      a[i], a[j] := a[j], a[i];
      assert a[..] == Swap(before, i, j);
      i := i - 1;
    }
    ShuffledIsPermutation(old(a[..]), rand);
  }

  // ---------------------------------------------------------------------------------------
  // Insertion and inspection.

  /** The index `insertBomb` uses: `index` clamped into [0, len]. */
  function Clamp(index: int, len: nat): nat {
    if index < 0 then 0 else if index > len then len else index
  }

  /** `deck.splice(idx, 0, c)`. */
  function InsertAt(deck: seq<Card>, idx: nat, c: Card): seq<Card>
    requires idx <= |deck|
  {
    deck[..idx] + [c] + deck[idx..]
  }

  /**
   * Inserting grows the deck by one card, puts `c` at `idx`, and keeps every other card in
   * its relative order: removing position `idx` again gives back the old deck.
   */
  lemma InsertAtPlaces(deck: seq<Card>, idx: nat, c: Card)
    requires idx <= |deck|
    ensures |InsertAt(deck, idx, c)| == |deck| + 1
    ensures InsertAt(deck, idx, c)[idx] == c
    ensures InsertAt(deck, idx, c)[..idx] + InsertAt(deck, idx, c)[idx + 1..] == deck
    ensures multiset(InsertAt(deck, idx, c)) == multiset(deck) + multiset{c}
    ensures (idx == |deck|) <==> (idx == |InsertAt(deck, idx, c)| - 1)
  {
    var r := InsertAt(deck, idx, c);
    assert r[..idx] == deck[..idx];
    assert r[idx + 1..] == deck[idx..];
    assert deck == deck[..idx] + deck[idx..];
  }

  /** The preview of a SeeFuture: the cards at deck[len-1], deck[len-2], deck[len-3] that exist. */
  method PeekTopThree(deck: seq<Card>) returns (top: seq<Card>)
    ensures |top| == if |deck| < 3 then |deck| else 3
    ensures forall m :: 0 <= m < |top| ==> top[m] == deck[|deck| - 1 - m]
  {
    top := [];
    var k := 1;
    while k <= 3
      invariant 1 <= k <= 4
      invariant |top| == if |deck| < k - 1 then |deck| else k - 1
      invariant forall m :: 0 <= m < |top| ==> top[m] == deck[|deck| - 1 - m]
    {
      var idx := |deck| - k;
      if idx >= 0 {
        top := top + [deck[idx]];
      }
      k := k + 1;
    }
  }
}
