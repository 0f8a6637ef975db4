/** The in-place Fisher–Yates shuffle.  The random index drawn for position
    `i` is `DrawIndex(draws(i), i + 1)`, so every property below holds for every
    sequence of draws. */
module Shuffle {
  import opened Base

  /** `[s[i], s[j]] = [s[j], s[i]]`. */
  function Swap<T>(s: seq<T>, i: nat, j: nat): (r: seq<T>)
    requires i < |s| && j < |s|
    ensures |r| == |s|
  {
    s[i := s[j]][j := s[i]]
  }

  lemma SwapPermutes<T>(s: seq<T>, i: nat, j: nat)
    requires i < |s| && j < |s|
    ensures multiset(Swap(s, i, j)) == multiset(s)
  {
  }

  /** The loop's remaining iterations, for positions `i`, `i - 1`, ..., 1. */
  function ShuffleFrom<T>(s: seq<T>, i: nat, draws: nat -> Unit): seq<T>
    requires i < |s|
    decreases i
  {
    if i == 0 then s else ShuffleFrom(Swap(s, i, DrawIndex(draws(i), i + 1)), i - 1, draws)
  }

  /** What `shuffleArray` leaves in the array. */
  function Shuffled<T>(s: seq<T>, draws: nat -> Unit): seq<T> {
    if |s| <= 1 then s else ShuffleFrom(s, |s| - 1, draws)
  }

  lemma {:induction false} ShuffleFromPermutes<T>(s: seq<T>, i: nat, draws: nat -> Unit)
    requires i < |s|
    ensures |ShuffleFrom(s, i, draws)| == |s|
    ensures multiset(ShuffleFrom(s, i, draws)) == multiset(s)
    decreases i
  {
    if i > 0 {
      SwapPermutes(s, i, DrawIndex(draws(i), i + 1));
      ShuffleFromPermutes(Swap(s, i, DrawIndex(draws(i), i + 1)), i - 1, draws);
    }
  }

  /** Whatever the draws, the shuffle only rearranges: same length, same elements
      with the same multiplicities. */
  lemma ShufflePermutes<T>(s: seq<T>, draws: nat -> Unit)
    ensures |Shuffled(s, draws)| == |s|
    ensures multiset(Shuffled(s, draws)) == multiset(s)
  {
    if |s| > 1 {
      ShuffleFromPermutes(s, |s| - 1, draws);
    }
  }

  /** Membership is unchanged by the shuffle. */
  lemma ShuffledMembers<T>(s: seq<T>, draws: nat -> Unit)
    ensures forall x :: x in Shuffled(s, draws) <==> x in s
  {
    ShufflePermutes(s, draws);
    forall x ensures x in Shuffled(s, draws) <==> x in s {
      assert x in Shuffled(s, draws) <==> x in multiset(Shuffled(s, draws));
      assert x in s <==> x in multiset(s);
    }
  }

  lemma ShuffleStep<T>(before: seq<T>, after: seq<T>, i: nat, j: nat, draws: nat -> Unit)
    requires 0 < i < |before| && j == DrawIndex(draws(i), i + 1)
    requires after == Swap(before, i, j)
    ensures ShuffleFrom(before, i, draws) == ShuffleFrom(after, i - 1, draws)
  {
  }

  /** `shuffleArray(arr)`: swaps in place from the last position down to 1 and
      returns the same array. */
  method ShuffleArray<T>(a: array<T>, draws: nat -> Unit) returns (r: array<T>)
    modifies a
    ensures r == a
    ensures a[..] == Shuffled(old(a[..]), draws)
    ensures multiset(a[..]) == multiset(old(a[..]))
  {
    ghost var original := a[..];
    ghost var target := Shuffled(original, draws);
    if a.Length > 1 {
      var i := a.Length - 1;
      while i > 0
        invariant 0 <= i < a.Length
        invariant ShuffleFrom(a[..], i, draws) == target
      {
        var j := DrawIndex(draws(i), i + 1);
        ghost var before := a[..];
        a[i], a[j] := a[j], a[i];
        ShuffleStep(before, a[..], i, j, draws);
        i := i - 1;
      }
    }
    ShufflePermutes(original, draws);
    r := a;
  }
}
