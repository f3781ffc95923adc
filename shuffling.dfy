/**
 * The in-place Fisher–Yates `shuffle(arr)` of scoundrel-3d.js. `Math.random`
 * is an oracle: `draw(i)` is the raw number drawn while visiting position `i`,
 * and `Math.floor(Math.random() * (i + 1))` becomes `draw(i) % (i + 1)`, which
 * ranges over the same indices 0..i.
 */
module Shuffling {

  function Swap<T>(s: seq<T>, i: nat, j: nat): (r: seq<T>)
    requires i < |s| && j < |s|
    ensures |r| == |s|
    ensures r[i] == s[j] && r[j] == s[i]
    ensures forall k :: 0 <= k < |s| && k != i && k != j ==> r[k] == s[k]
  {
    s[i := s[j]][j := s[i]]
  }

  /** What the loop still does when it is about to visit position `i` (and then i-1, ..., 1). */
  function ShuffleFrom<T>(s: seq<T>, i: nat, draw: nat -> nat): seq<T>
    requires i < |s|
    decreases i
  {
    if i == 0 then s else ShuffleFrom(Swap(s, i, draw(i) % (i + 1)), i - 1, draw)
  }

  /** The order `shuffle` leaves an array in, given the draws. */
  function Shuffled<T>(s: seq<T>, draw: nat -> nat): seq<T>
  {
    if |s| == 0 then s else ShuffleFrom(s, |s| - 1, draw)
  }

  lemma {:induction false} ShuffleFromPermutes<T>(s: seq<T>, i: nat, draw: nat -> nat)
    requires i < |s|
    ensures |ShuffleFrom(s, i, draw)| == |s|
    ensures multiset(ShuffleFrom(s, i, draw)) == multiset(s)
    decreases i
  {
    if i > 0 {
      var j := draw(i) % (i + 1);
      var t := Swap(s, i, j);
      assert t == s[i := s[j]][j := s[i]];
      ShuffleFromPermutes(t, i - 1, draw);
    }
  }

  /** `shuffle` only swaps: the result is a permutation of its input, whatever was drawn. */
  lemma ShuffledIsPermutation<T>(s: seq<T>, draw: nat -> nat)
    ensures |Shuffled(s, draw)| == |s|
    ensures multiset(Shuffled(s, draw)) == multiset(s)
  {
    if |s| > 0 {
      ShuffleFromPermutes(s, |s| - 1, draw);
    }
  }

  /** `for (let i = arr.length - 1; i > 0; i--) { swap arr[i] and arr[j] }` */
  method Shuffle<T>(a: array<T>, draw: nat -> nat)
    modifies a
    ensures a[..] == Shuffled(old(a[..]), draw)
    ensures multiset(a[..]) == multiset(old(a[..]))
  {
    if a.Length == 0 {
      return;
    }
    var i := a.Length - 1;
    while i > 0
      invariant 0 <= i < a.Length
      invariant ShuffleFrom(a[..], i, draw) == Shuffled(old(a[..]), draw)
      decreases i
    {
      var j := draw(i) % (i + 1);
      ghost var before := a[..];
      a[i], a[j] := a[j], a[i];
      assert a[..] == Swap(before, i, j);
      i := i - 1;
    }
    ShuffledIsPermutation(old(a[..]), draw);
  }
}
