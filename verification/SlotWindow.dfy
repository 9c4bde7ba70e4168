/** The occupied part of an array used as a ring. */
module SlotWindow {
  import RingBuffer

  /** The `n` elements from slot `i` on, wrapping at the depth. */
  function Window<T>(slots: seq<T>, i: nat, n: nat): (es: seq<T>)
    requires i < |slots|
    ensures |es| == n
    decreases n
  {
    if n == 0 then [] else [slots[i]] + Window(slots, RingBuffer.Next(i, |slots|), n - 1)
  }

  /** Filling the slot behind the window makes it one element longer. */
  lemma {:induction false} WindowGrows<T>(slots: seq<T>, i: nat, n: nat, j: nat, e: T)
    requires i < |slots| && n < |slots| && j == if i + n < |slots| then i + n else i + n - |slots|
    ensures Window(slots[j := e], i, n + 1) == Window(slots, i, n) + [e]
    decreases n
  {
    if n > 0 { WindowGrows(slots, RingBuffer.Next(i, |slots|), n - 1, j, e); }
  }

  /** `es` are the `n` elements from slot `i` on. */
  ghost predicate Holds<T(!new)>(slots: seq<T>, i: nat, n: nat, es: seq<T>)
    requires i < |slots|
  {
    forall k {:trigger Window(slots, i, k)} :: k == n ==> es == Window(slots, i, k)
  }
}
