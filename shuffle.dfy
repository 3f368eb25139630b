/**
 * The Fisher-Yates shuffle `shuffleArray`: copy the array, then walk `i`
 * from the last index down to 1 and swap element `i` with a random element
 * `j` in `[0, i]`.
 *
 * Each call of `Math.random()` is taken from an oracle sequence `draws` of
 * reals in `[0, 1)`; iteration `i` of an array of length `n` consumes
 * `draws[n - 1 - i]`.
 */
module Shuffle {

  /** The draws suffice for a shuffle of `n` elements (one per iteration)
      and each lies where `Math.random()` returns its values. */
  ghost predicate ValidDraws(draws: seq<real>, n: int)
  {
    n - 1 <= |draws| && forall k :: 0 <= k < |draws| ==> 0.0 <= draws[k] < 1.0
  }

  /** `Math.floor(Math.random() * (i + 1))`: for every draw in [0, 1) the
      swap partner lies in [0, i], so no access is out of bounds. */
  function SwapIndex(r: real, i: nat): (j: int)
    requires 0.0 <= r < 1.0
    ensures 0 <= j <= i
  {
    ScaledDrawBelow(r, (i + 1) as real);
    (r * (i + 1) as real).Floor
  }

  lemma ScaledDrawBelow(r: real, n: real)
    requires 0.0 <= r < 1.0 && n >= 1.0
    ensures 0.0 <= r * n < n
  {
  }

  /** The destructuring swap `[s[i], s[j]] = [s[j], s[i]]`. */
  function Swap<T>(s: seq<T>, i: nat, j: nat): (r: seq<T>)
    requires i < |s| && j < |s|
    ensures |r| == |s|
  {
    s[i := s[j]][j := s[i]]
  }

  lemma SwapPermutes<T>(s: seq<T>, i: nat, j: nat)
    requires i < |s| && j < |s|
    ensures multiset(Swap(s, i, j)) == multiset(s)
  {
  }

  /** The loop state after the iterations for indices above `i` have run,
      finished off: the iterations for `i` down to 1 applied to `s`. */
  function FisherYatesFrom<T>(s: seq<T>, draws: seq<real>, i: int): seq<T>
    requires -1 <= i < |s|
    requires ValidDraws(draws, |s|)
    decreases i
  {
    if i <= 0 then s
    else
      var j := SwapIndex(draws[|s| - 1 - i], i);
      FisherYatesFrom(Swap(s, i, j), draws, i - 1)
  }

  /** The whole shuffle of `s` under the given draws. */
  function FisherYates<T>(s: seq<T>, draws: seq<real>): seq<T>
    requires ValidDraws(draws, |s|)
  {
    FisherYatesFrom(s, draws, |s| - 1)
  }

  lemma {:induction false} FisherYatesFromPermutes<T>(s: seq<T>, draws: seq<real>, i: int)
    requires -1 <= i < |s|
    requires ValidDraws(draws, |s|)
    ensures |FisherYatesFrom(s, draws, i)| == |s|
    ensures multiset(FisherYatesFrom(s, draws, i)) == multiset(s)
    decreases i
  {
    if i > 0 {
      var j := SwapIndex(draws[|s| - 1 - i], i);
      SwapPermutes(s, i, j);
      FisherYatesFromPermutes(Swap(s, i, j), draws, i - 1);
    }
  }

  /** The shuffle returns a permutation of its input: same length, same
      elements with the same multiplicities. */
  lemma FisherYatesPermutes<T>(s: seq<T>, draws: seq<real>)
    requires ValidDraws(draws, |s|)
    ensures |FisherYates(s, draws)| == |s|
    ensures multiset(FisherYates(s, draws)) == multiset(s)
  {
    FisherYatesFromPermutes(s, draws, |s| - 1);
  }

  /** With fewer than two elements the loop body never runs. */
  lemma FisherYatesShort<T>(s: seq<T>, draws: seq<real>)
    requires |s| <= 1
    requires ValidDraws(draws, |s|)
    ensures FisherYates(s, draws) == s
  {
  }

  /** The shuffle keeps exactly the elements of its input. */
  lemma FisherYatesSameElements<T>(s: seq<T>, draws: seq<real>, x: T)
    requires ValidDraws(draws, |s|)
    ensures x in FisherYates(s, draws) <==> x in s
  {
    FisherYatesPermutes(s, draws);
    assert x in FisherYates(s, draws) <==> x in multiset(FisherYates(s, draws));
    assert x in s <==> x in multiset(s);
  }

  /**
   * `shuffleArray` of src/app/page.tsx: copies `input` into a new array and
   * shuffles the copy in place. The caller's array is not modified: the
   * method has no `modifies` clause, and the last postcondition says so.
   */
  method ShuffleCopy<T>(input: array<T>, draws: seq<real>) returns (shuffled: array<T>)
    requires ValidDraws(draws, input.Length)
    ensures fresh(shuffled)
    ensures shuffled[..] == FisherYates(input[..], draws)
    ensures multiset(shuffled[..]) == multiset(input[..])
    ensures input[..] == old(input[..])
  {
    shuffled := new T[input.Length](k requires 0 <= k < input.Length reads input => input[k]);
    assert shuffled[..] == input[..];
    var n := shuffled.Length;
    var i := n - 1;
    while i > 0
      invariant -1 <= i < n
      invariant shuffled.Length == n
      invariant ValidDraws(draws, |shuffled[..]|)
      invariant FisherYatesFrom(shuffled[..], draws, i) == FisherYates(input[..], draws)
    {
      var j := SwapIndex(draws[n - 1 - i], i);
      ghost var before := shuffled[..];
      shuffled[i], shuffled[j] := shuffled[j], shuffled[i];
      assert shuffled[..] == Swap(before, i, j);
      i := i - 1;
    }
    FisherYatesPermutes(input[..], draws);
  }
}
