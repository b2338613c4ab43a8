// The quiz engine's Fisher–Yates shuffle (services/minigameService.ts,
// `shuffleArray`). With a seed the swap index comes from the linear
// congruential generator rng := (rng * 9301 + 49297) mod 233280; without one,
// from `Math.random`, which is modelled as a sequence of draws supplied by the
// caller (draws(i) is the draw made when the loop is at position i).
module Shuffle {
  import opened Wrappers

  const Modulus: nat := 233280

  function NextRng(rng: nat): (r: nat)
    ensures r < Modulus
  {
    (rng * 9301 + 49297) % Modulus
  }

  /** `Math.floor(rng / 233280 * (i + 1))` in exact integer arithmetic. */
  function SeededIndex(rng: nat, i: nat): (j: nat)
    requires rng < Modulus
    ensures j <= i
  {
    SeededIndexBound(rng, i);
    rng * (i + 1) / Modulus
  }

  lemma SeededIndexBound(rng: nat, i: nat)
    requires rng < Modulus
    ensures rng * (i + 1) / Modulus <= i
  {
    assert rng * (i + 1) <= (Modulus - 1) * (i + 1);
    assert rng * (i + 1) < Modulus * (i + 1);
  }

  /** `Math.floor(Math.random() * (i + 1))`. */
  function RandomIndex(draws: nat -> nat, i: nat): (j: nat)
    ensures j <= i
  {
    draws(i) % (i + 1)
  }

  /** `[s[i], s[j]] = [s[j], s[i]]`. */
  function Swap<T>(s: seq<T>, i: nat, j: nat): (r: seq<T>)
    requires i < |s| && j < |s|
    ensures |r| == |s|
  {
    s[i := s[j]][j := s[i]]
  }

  lemma SwapPermutes<T>(s: seq<T>, i: nat, j: nat)
    requires i < |s| && j < |s|
    ensures multiset(Swap(s, i, j)) == multiset(s)
  {
  }

  /** The seeded loop from position `i` down to 1, with generator state `rng` before the step at i. */
  function SeededPass<T>(s: seq<T>, i: nat, rng: nat): seq<T>
    requires i < |s|
    decreases i
  {
    if i == 0 then s
    else
      var r := NextRng(rng);
      SeededPass(Swap(s, i, SeededIndex(r, i)), i - 1, r)
  }

  /** The unseeded loop from position `i` down to 1. */
  function RandomPass<T>(s: seq<T>, i: nat, draws: nat -> nat): seq<T>
    requires i < |s|
    decreases i
  {
    if i == 0 then s else RandomPass(Swap(s, i, RandomIndex(draws, i)), i - 1, draws)
  }

  /** What `shuffleArray(input, seed)` returns. */
  function Shuffled<T>(s: seq<T>, seed: Option<nat>, draws: nat -> nat): seq<T>
  {
    if |s| <= 1 then s
    else match seed
      case Some(n) => SeededPass(s, |s| - 1, n)
      case None => RandomPass(s, |s| - 1, draws)
  }

  lemma {:induction false} SeededPassPermutes<T>(s: seq<T>, i: nat, rng: nat)
    requires i < |s|
    ensures |SeededPass(s, i, rng)| == |s|
    ensures multiset(SeededPass(s, i, rng)) == multiset(s)
    decreases i
  {
    if i > 0 {
      var r := NextRng(rng);
      var t := Swap(s, i, SeededIndex(r, i));
      SwapPermutes(s, i, SeededIndex(r, i));
      SeededPassPermutes(t, i - 1, r);
    }
  }

  lemma {:induction false} RandomPassPermutes<T>(s: seq<T>, i: nat, draws: nat -> nat)
    requires i < |s|
    ensures |RandomPass(s, i, draws)| == |s|
    ensures multiset(RandomPass(s, i, draws)) == multiset(s)
    decreases i
  {
    if i > 0 {
      var t := Swap(s, i, RandomIndex(draws, i));
      SwapPermutes(s, i, RandomIndex(draws, i));
      RandomPassPermutes(t, i - 1, draws);
    }
  }

  /** The shuffle only reorders: same length, same elements with the same multiplicities. */
  lemma ShuffledPermutes<T>(s: seq<T>, seed: Option<nat>, draws: nat -> nat)
    ensures |Shuffled(s, seed, draws)| == |s|
    ensures multiset(Shuffled(s, seed, draws)) == multiset(s)
  {
    if |s| > 1 {
      match seed
      case Some(n) => SeededPassPermutes(s, |s| - 1, n);
      case None => RandomPassPermutes(s, |s| - 1, draws);
    }
  }

  /**
   * With a seed the order depends only on the seed and the input: any two
   * sources of random draws give the same result.
   */
  lemma SeededIsDeterministic<T>(s: seq<T>, n: nat, draws1: nat -> nat, draws2: nat -> nat)
    ensures Shuffled(s, Some(n), draws1) == Shuffled(s, Some(n), draws2)
  {
  }

  /**
   * `shuffleArray`: copies the input into a fresh array and swaps cells from
   * the last position down to position 1; the caller's sequence is a value
   * and is not changed.
   */
  method ShuffleArray<T>(input: seq<T>, seed: Option<nat>, draws: nat -> nat) returns (out: seq<T>)
    ensures out == Shuffled(input, seed, draws)
    ensures multiset(out) == multiset(input) && |out| == |input|
  {
    ShuffledPermutes(input, seed, draws);
    if |input| == 0 {
      return [];
    }
    var a := new T[|input|](k requires 0 <= k < |input| => input[k]);
    assert a[..] == input;
    match seed {
      case Some(sd) => SeededSwaps(a, sd);
      case None => RandomSwaps(a, draws);
    }
    out := a[..];
  }

  /** Swapping two cells of an array swaps the two elements of its contents. */
  method SwapCells<T>(a: array<T>, i: nat, j: nat)
    requires i < a.Length && j < a.Length
    modifies a
    ensures a[..] == Swap(old(a[..]), i, j)
  {
    a[i], a[j] := a[j], a[i];
  }

  /** The seeded loop of `shuffleArray`, in place on the copy. */
  method SeededSwaps<T>(a: array<T>, seed: nat)
    requires a.Length >= 1
    modifies a
    ensures a[..] == SeededPass(old(a[..]), a.Length - 1, seed)
  {
    var i := a.Length - 1;
    var rng := seed;
    while i > 0
      invariant 0 <= i < a.Length
      invariant SeededPass(a[..], i, rng) == SeededPass(old(a[..]), a.Length - 1, seed)
    {
      rng := NextRng(rng);
      var j := SeededIndex(rng, i);
      SwapCells(a, i, j);
      i := i - 1;
    }
  }

  /** The unseeded loop of `shuffleArray`, in place on the copy. */
  method RandomSwaps<T>(a: array<T>, draws: nat -> nat)
    requires a.Length >= 1
    modifies a
    ensures a[..] == RandomPass(old(a[..]), a.Length - 1, draws)
  {
    var i := a.Length - 1;
    while i > 0
      invariant 0 <= i < a.Length
      invariant RandomPass(a[..], i, draws) == RandomPass(old(a[..]), a.Length - 1, draws)
    {
      var j := RandomIndex(draws, i);
      SwapCells(a, i, j);
      i := i - 1;
    }
  }
}
