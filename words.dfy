/** Machine-level value types shared by both filters: Go's `byte`, `uint64`
    (as a bounded natural), the 8-byte seed, and single-bit operations on a
    64-bit word of the bit slab. */
module Words {

  type byte = bv8

  const TWO_TO_THE_64: int := 0x1_0000_0000_0000_0000

  /** Go's `uint64`, used for hash outputs, which the filters only divide and reduce. */
  type uint64 = x: int | 0 <= x < TWO_TO_THE_64

  /** Go's `[8]byte`. */
  type Seed = s: seq<byte> | |s| == 8 witness [0, 0, 0, 0, 0, 0, 0, 0]

  /** The shift amount `k` as a 6-bit vector, counted up from zero (and 0
      for amounts of 64 or more, which no caller passes). */
  function ShiftAmount(k: nat): (b: bv6) {
    if k == 0 || 64 <= k then 0 else ShiftAmount(k - 1) + 1
  }

  lemma {:induction false} ShiftAmountValue(k: nat)
    requires k < 64
    ensures ShiftAmount(k) as int == k
  {
    if k > 0 {
      ShiftAmountValue(k - 1);
    }
  }

  /** `uint64(1) << s` for a 6-bit shift amount. */
  function MaskBits(s: bv6): bv64 {
    (1 as bv64) << s
  }

  /** `uint64(1) << k`: a word with exactly one bit, which is one. */
  function Mask(k: nat): (m: bv64)
    requires k < 64
    ensures m != 0 && m & (m - 1) == 0
  {
    MaskBitsSingle(ShiftAmount(k));
    MaskBits(ShiftAmount(k))
  }

  lemma MaskBitsSingle(s: bv6)
    ensures MaskBits(s) != 0 && MaskBits(s) & (MaskBits(s) - 1) == 0
  {
  }

  /** Bit `k` of word `w` is one: `w & (1 << k) != 0`. */
  predicate BitSet(w: bv64, k: nat)
    requires k < 64
  {
    w & Mask(k) != 0
  }

  /** Every bit that is one in `w` is also one in `v`. */
  predicate WordCovers(v: bv64, w: bv64) {
    v | w == v
  }

  /** A mask has exactly one bit: a word either misses it or holds all of it. */
  lemma MaskBitsIsOneBit(s: bv6, w: bv64)
    ensures w & MaskBits(s) == 0 || w & MaskBits(s) == MaskBits(s)
  {
  }

  /** ORing a mask in sets its bit and keeps every other bit. */
  lemma OrSetsBit(w: bv64, k: nat)
    requires k < 64
    ensures BitSet(w | Mask(k), k)
    ensures WordCovers(w | Mask(k), w)
  {
    OrSetsMaskBits(w, ShiftAmount(k));
  }

  lemma OrSetsMaskBits(w: bv64, s: bv6)
    ensures (w | MaskBits(s)) & MaskBits(s) != 0
    ensures WordCovers(w | MaskBits(s), w)
  {
    OrWithNonzero(w, MaskBits(s));
  }

  lemma OrWithNonzero(w: bv64, m: bv64)
    requires m != 0
    ensures (w | m) & m != 0
    ensures (w | m) | w == w | m
  {
  }

  /** ORing in a bit that is already one changes nothing. */
  lemma OrOfSetBit(w: bv64, k: nat)
    requires k < 64
    requires BitSet(w, k)
    ensures w | Mask(k) == w
  {
    OrOfSetMaskBits(w, ShiftAmount(k));
  }

  lemma OrOfSetMaskBits(w: bv64, s: bv6)
    requires w & MaskBits(s) != 0
    ensures w | MaskBits(s) == w
  {
    MaskBitsIsOneBit(s, w);
    OrOfOneBit(w, MaskBits(s));
  }

  /** For a one-bit mask `m` that `w` meets, `w` already holds all of `m`. */
  lemma OrOfOneBit(w: bv64, m: bv64)
    requires w & m == 0 || w & m == m
    requires w & m != 0
    ensures w | m == w
  {
    OrOfContained(w, m);
  }

  lemma OrOfContained(w: bv64, m: bv64)
    requires w & m == m
    ensures w | m == w
  {
  }

  /** A bit that is one in `w` is one in every word that covers `w`. */
  lemma CoversKeepsBit(v: bv64, w: bv64, k: nat)
    requires k < 64
    requires WordCovers(v, w) && BitSet(w, k)
    ensures BitSet(v, k)
  {
    CoversKeepsMask(v, w, MaskBits(ShiftAmount(k)));
  }

  lemma CoversKeepsMask(v: bv64, w: bv64, m: bv64)
    requires WordCovers(v, w) && w & m != 0
    ensures v & m != 0
  {
  }

  lemma CoversReflexive(w: bv64)
    ensures WordCovers(w, w)
  {
  }

  lemma CoversTransitive(u: bv64, v: bv64, w: bv64)
    requires WordCovers(u, v) && WordCovers(v, w)
    ensures WordCovers(u, w)
  {
  }

  lemma ZeroHasNoBit(k: nat)
    requires k < 64
    ensures !BitSet(0, k)
  {
  }
}
