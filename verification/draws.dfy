/** The two utilities driven by `Math.random` (backend/server.js:23-36).
    Each random draw is supplied as an integer index instead. */
module Draws {

  const Alphabet := "ABCDEFGHIJKLMNOPQRSTUVWXYZ0123456789"

  /** A room code: four characters from the alphabet. */
  predicate IsRoomCode(code: string) {
    |code| == 4 && forall i :: 0 <= i < |code| ==> code[i] in Alphabet
  }

  /** `makeId(length)`: one character per draw; `draws[i]` is the index
      `Math.floor(Math.random() * 36)` picked for position `i`. */
  method MakeId(length: nat, draws: seq<nat>) returns (result: string)
    requires |draws| == length
    requires forall i :: 0 <= i < |draws| ==> draws[i] < |Alphabet|
    ensures |result| == length
    ensures forall i :: 0 <= i < length ==> result[i] == Alphabet[draws[i]]
    ensures forall i :: 0 <= i < length ==> result[i] in Alphabet
  {
    result := "";
    var i := 0;
    while i < length
      invariant 0 <= i <= length
      invariant |result| == i
      invariant forall k :: 0 <= k < i ==> result[k] == Alphabet[draws[k]]
    {
      result := result + [Alphabet[draws[i]]];
      i := i + 1;
    }
  }

  lemma MakeIdGivesRoomCode(code: string, draws: seq<nat>)
    requires |draws| == 4 && |code| == 4
    requires forall i :: 0 <= i < 4 ==> draws[i] < |Alphabet| && code[i] == Alphabet[draws[i]]
    ensures IsRoomCode(code)
  {
  }

  /** The draws of a Fisher-Yates pass that starts at index `top`, in the
      order the loop takes them: the k-th draw picks a slot in [0, top - k]. */
  predicate ValidDraws(draws: seq<nat>, top: nat) {
    |draws| == top && forall k :: 0 <= k < |draws| ==> draws[k] <= top - k
  }

  function Swap<T>(s: seq<T>, i: nat, j: nat): (r: seq<T>)
    requires i < |s| && j < |s|
    ensures |r| == |s|
  {
    s[i := s[j]][j := s[i]]
  }

  /** The remaining iterations of the shuffle loop, from `i` down to 1. */
  function ShuffleFrom<T>(s: seq<T>, i: nat, draws: seq<nat>): (r: seq<T>)
    requires i < |s| && ValidDraws(draws, i)
    ensures |r| == |s|
    decreases i
  {
    if i == 0 then s else ShuffleFrom(Swap(s, i, draws[0]), i - 1, draws[1..])
  }

  /** The number of draws `shuffle` takes on a list of length n. */
  function DrawCount(n: nat): nat {
    if n == 0 then 0 else n - 1
  }

  /** What `shuffle(array)` leaves in the array for the given draws. */
  function Shuffled<T>(s: seq<T>, draws: seq<nat>): (r: seq<T>)
    requires ValidDraws(draws, DrawCount(|s|))
    ensures |r| == |s|
  {
    if |s| == 0 then s else ShuffleFrom(s, |s| - 1, draws)
  }

  lemma SwapPermutes<T>(s: seq<T>, i: nat, j: nat)
    requires i < |s| && j < |s|
    ensures multiset(Swap(s, i, j)) == multiset(s)
  {
  }

  lemma {:induction false} ShuffleFromPermutes<T>(s: seq<T>, i: nat, draws: seq<nat>)
    requires i < |s| && ValidDraws(draws, i)
    ensures multiset(ShuffleFrom(s, i, draws)) == multiset(s)
    decreases i
  {
    if i > 0 {
      SwapPermutes(s, i, draws[0]);
      ShuffleFromPermutes(Swap(s, i, draws[0]), i - 1, draws[1..]);
    }
  }

  /** The shuffle is a permutation of its input. */
  lemma ShuffledIsPermutation<T>(s: seq<T>, draws: seq<nat>)
    requires ValidDraws(draws, DrawCount(|s|))
    ensures |Shuffled(s, draws)| == |s|
    ensures multiset(Shuffled(s, draws)) == multiset(s)
    ensures forall x :: x in s <==> x in Shuffled(s, draws)
  {
    var r := Shuffled(s, draws);
    if |s| > 0 {
      ShuffleFromPermutes(s, |s| - 1, draws);
    }
    forall x ensures x in s <==> x in r {
      assert x in s <==> x in multiset(s);
      assert x in r <==> x in multiset(r);
    }
  }

  /** One loop iteration: the swap at `i`, then the iterations below it. */
  lemma ShuffleStep<T>(s: seq<T>, i: nat, draws: seq<nat>)
    requires 0 < i < |s| && ValidDraws(draws, i)
    ensures draws[0] <= i && ValidDraws(draws[1..], i - 1)
    ensures ShuffleFrom(s, i, draws) == ShuffleFrom(Swap(s, i, draws[0]), i - 1, draws[1..])
  {
  }

  /** `shuffle(array)`: the in-place Fisher-Yates loop. */
  method Shuffle<T>(a: array<T>, draws: seq<nat>)
    requires ValidDraws(draws, DrawCount(a.Length))
    modifies a
    ensures a[..] == Shuffled(old(a[..]), draws)
  {
    if a.Length == 0 {
      return;
    }
    var n := a.Length;
    var i := n - 1;
    while i > 0
      invariant 0 <= i < n
      invariant ValidDraws(draws[n - 1 - i..], i)
      invariant ShuffleFrom(a[..], i, draws[n - 1 - i..]) == Shuffled(old(a[..]), draws)
      decreases i
    {
      ghost var rest := draws[n - 1 - i..];
      ShuffleStep(a[..], i, rest);
      var j := draws[n - 1 - i];
      assert rest[1..] == draws[n - 1 - (i - 1)..];
      ghost var before := a[..];
      a[i], a[j] := a[j], a[i];
      assert a[..] == Swap(before, i, j);
      i := i - 1;
    }
  }
}
