// The flashcard viewer (src/components/FlashcardModal.tsx): a current index
// into the shuffled deck and a flipped flag. "Next" and "previous" step the
// index cyclically and turn the card face down. The component renders nothing
// for an empty deck, so the steps are only reachable with a deck of n > 0 cards.
module FlashcardModal {

  datatype CardState = CardState(index: nat, flipped: bool)

  /** `handleNext`: `(prev + 1) % n`, face down. */
  function Next(s: CardState, n: nat): (r: CardState)
    requires n > 0
    ensures r.index < n && !r.flipped
    ensures s.index < n ==> r.index == if s.index == n - 1 then 0 else s.index + 1
  {
    CardState((s.index + 1) % n, false)
  }

  /**
   * `handlePrev`: `(prev - 1 + n) % n`, face down. The operand is never
   * negative for an index `prev >= 0`, so JavaScript's `%` and Dafny's agree.
   */
  function Prev(s: CardState, n: nat): (r: CardState)
    requires n > 0
    ensures r.index < n && !r.flipped
    ensures s.index < n ==> r.index == if s.index == 0 then n - 1 else s.index - 1
  {
    CardState((s.index - 1 + n) % n, false)
  }

  /** Stepping back after stepping forward returns to the card, face down. */
  lemma PrevAfterNext(s: CardState, n: nat)
    requires n > 0 && s.index < n
    ensures Prev(Next(s, n), n) == CardState(s.index, false)
  {
  }

  lemma NextAfterPrev(s: CardState, n: nat)
    requires n > 0 && s.index < n
    ensures Next(Prev(s, n), n) == CardState(s.index, false)
  {
  }

  /** `k` presses of "next". */
  function NextTimes(s: CardState, n: nat, k: nat): (r: CardState)
    requires n > 0
    decreases k
  {
    if k == 0 then s else Next(NextTimes(s, n, k - 1), n)
  }

  /** After `k` presses, `1 <= k <= n`, the index has moved `k` places round the deck. */
  lemma {:induction false} NextTimesIndex(s: CardState, n: nat, k: nat)
    requires n > 0 && s.index < n && 1 <= k <= n
    ensures NextTimes(s, n, k) ==
      CardState(if s.index + k < n then s.index + k else s.index + k - n, false)
    decreases k
  {
    if k > 1 {
      NextTimesIndex(s, n, k - 1);
    }
  }

  /** Going through the whole deck with "next" comes back to the starting card. */
  lemma FullCycle(s: CardState, n: nat)
    requires n > 0 && s.index < n
    ensures NextTimes(s, n, n).index == s.index
  {
    NextTimesIndex(s, n, n);
  }
}
