/**
 * Operations on 32-bit register words as the interrupt controller uses them:
 * single-bit masks of its pending and enable words, and the unsigned
 * comparison of its priorities and thresholds. Each is a named function, so
 * that the proofs about the controller reason about them through the small
 * lemmas here.
 */
module Masks {
  /** The mask `1 << k` of bit `k` of a 32-bit word. */
  function BitOf(k: nat): (r: bv32)
    ensures k == 0 ==> r == 1
  {
    if k == 0 then 1 else BitOf(k - 1) << 1
  }

  /** `w | b`, `w & !b` and `w & b != 0` on a register word `w` and a mask
      `b`. */
  function SetBits(w: bv32, b: bv32): bv32 { w | b }
  function ClearBits(w: bv32, b: bv32): bv32 { w & !b }
  predicate AnyBit(w: bv32, b: bv32) { w & b != 0 }

  /** The unsigned comparison `a > b`. */
  predicate Above(a: bv32, b: bv32) { a > b }

  /** A priority above anything is not zero; any non-zero one is above 0. */
  lemma AboveZero(a: bv32, b: bv32)
    ensures Above(a, b) ==> a != 0
    ensures Above(a, 0) <==> a != 0
  {
  }

  lemma AboveIrreflexive(a: bv32)
    ensures !Above(a, a)
  {
  }

  /** A value not above `b` is not above anything above `b`. */
  lemma AboveTrans(a: bv32, b: bv32, c: bv32)
    requires !Above(a, b) && Above(c, b)
    ensures !Above(a, c)
  {
  }

  /** Distinct bit positions below 32 have disjoint masks. */
  lemma {:induction false} DistinctBits(j: nat, k: nat)
    requires j < 32 && k < 32 && j != k
    ensures BitOf(j) & BitOf(k) == 0
  {
    if j > 0 && k > 0 {
      DistinctBits(j - 1, k - 1);
      ShiftAnd(BitOf(j - 1), BitOf(k - 1));
    } else if j == 0 {
      ShiftClearsLow(BitOf(k - 1));
    } else {
      ShiftClearsLow(BitOf(j - 1));
    }
  }

  /** Shifting left by one commutes with `&` and clears bit 0. */
  lemma ShiftAnd(x: bv32, y: bv32)
    ensures (x << 1) & (y << 1) == (x & y) << 1
  {
  }

  lemma ShiftClearsLow(x: bv32)
    ensures (x << 1) & 1 == 0 && 1 & (x << 1) == 0
  {
  }

  /** Setting a non-zero mask makes it present; clearing it removes it. */
  lemma OwnBit(w: bv32, b: bv32)
    requires b != 0
    ensures AnyBit(SetBits(w, b), b) && !AnyBit(ClearBits(w, b), b)
  {
  }

  /** Setting or clearing the bits of `b` leaves the bits of a disjoint mask
      `c` as they were. */
  lemma OtherBit(w: bv32, b: bv32, c: bv32)
    requires c & b == 0
    ensures AnyBit(SetBits(w, b), c) == AnyBit(w, c)
    ensures AnyBit(ClearBits(w, b), c) == AnyBit(w, c)
  {
    MaskedWord(w, b, c);
  }

  lemma MaskedWord(w: bv32, b: bv32, c: bv32)
    requires c & b == 0
    ensures (w | b) & c == w & c && (w & !b) & c == w & c
  {
  }
}
