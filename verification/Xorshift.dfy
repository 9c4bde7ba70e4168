/** The random number generator of link_model.c, on 32-bit words. */
module Xorshift {

  /** xs32: one step of xorshift32; a zero state is replaced first. */
  function Xs32(s: bv32): (x: bv32) {
    Step(if s == 0 then 0xDEADBEEF else s)
  }

  function Step(x0: bv32): bv32 {
    var x1 := x0 ^ (x0 << 13);
    var x2 := x1 ^ (x1 >> 17);
    x2 ^ (x2 << 5)
  }

  lemma NonZero13(x: bv32)
    requires x != 0
    ensures x ^ (x << 13) != 0
  {
  }

  lemma NonZero17(x: bv32)
    requires x != 0
    ensures x ^ (x >> 17) != 0
  {
  }

  lemma NonZero5(x: bv32)
    requires x != 0
    ensures x ^ (x << 5) != 0
  {
  }

  /** The generator never reaches zero: a word never equals a shifted copy of itself, so none of
      the three mixing steps can cancel.  The replacement of a zero state only ever applies to a
      state set from outside. */
  lemma Xs32NeverZero(s: bv32)
    ensures Xs32(s) != 0
  {
    var x0: bv32 := if s == 0 then 0xDEADBEEF else s;
    var x1 := x0 ^ (x0 << 13);
    var x2 := x1 ^ (x1 >> 17);
    NonZero13(x0);
    NonZero17(x1);
    NonZero5(x2);
  }

  // ---------- every word comes up ----------

  /** Every word follows some word: undoing the three mixing steps gives it. */
  lemma StepOnto(w: bv32, x: bv32)
    requires x == (var x2 := w ^ (w << 5) ^ (w << 10) ^ (w << 15) ^ (w << 20) ^ (w << 25) ^ (w << 30);
                   var x1 := x2 ^ (x2 >> 17);
                   x1 ^ (x1 << 13) ^ (x1 << 26))
    ensures Step(x) == w
  {
  }

  /** The first words of the generator, from 1 and from the replacement of zero. */
  lemma FirstWords()
    ensures Xs32(1) == 270369 && Xs32(270369) == 67634689 && Xs32(67634689) == 2647435461
    ensures Xs32(0) == Xs32(0xDEADBEEF)
  {
  }
}
