/** The probe sequence generator of the cache-line-local filter: which slot a
    key goes to, and the in-slot bit offsets its probes visit, in the order
    `op` visits them (fastbloom.go:50-79). The 128-bit hash is a parameter:
    any function from byte strings to two 64-bit halves. */
module Probes {
  import opened Words

  /** One slot is one 64-byte cache line: 512 bits, or eight 64-bit words.
      (Written as literals so that the solver sees them as numbers.) */
  const SLOT_BYTE_COUNT: nat := 64
  const SLOT_BIT_COUNT: nat := 512
  const SLOT_WORD_COUNT: nat := 8

  lemma SlotConstants()
    ensures SLOT_BIT_COUNT == SLOT_BYTE_COUNT * 8 && SLOT_WORD_COUNT == SLOT_BYTE_COUNT / 8
  {
  }

  /** The two halves of a 128-bit hash value. */
  datatype Hash128 = Hash128(lo: uint64, hi: uint64)

  /** Stands for `xxh3.Hash128`. */
  type Hasher128 = seq<byte> -> Hash128

  /** Everything the probe sequence of a key depends on. */
  datatype ProbeConfig = ProbeConfig(
    hash128: Hasher128,
    seed0: Seed,
    seed1: Seed,
    slotCount: int,
    probePerEntry: int)
  {
    /** `op` divides by `slotCount`, and its `break` is reached only when
        `probePerEntry` is above 1: below that, `Add` never returns, and
        `Has` answers false at the first clear probed bit and otherwise
        never returns. */
    predicate Usable() {
      slotCount >= 1 && probePerEntry >= 2
    }
  }

  /** The second seed: the first one with byte 0 complemented. */
  function AlternateSeed(seed: Seed): (alt: Seed)
    ensures alt[0] == !seed[0]
    ensures forall i :: 1 <= i < 8 ==> alt[i] == seed[i]
    ensures alt != seed
  {
    seed[0 := !seed[0]]
  }

  /** The slot every probe of a key lands in: the bits of `lo` above the
      first offset, reduced modulo the slot count. */
  function SlotIndex(first: Hash128, slotCount: int): (slot: nat)
    requires slotCount >= 1
    ensures slot < slotCount
  {
    (first.lo / SLOT_BIT_COUNT) % slotCount
  }

  /** The hash state after the refresh that follows the probe that brought
      the probe counter to `probeCount` (fastbloom.go:70-76): a fresh hash of
      `seed1 ++ data` at 8; otherwise `lo` is kept, and `hi` either takes
      over `lo` (at 15) or moves on to its next 9-bit group. */
  function Refresh(hash128: Hasher128, seed1: Seed, data: seq<byte>, probeCount: int, hash: Hash128): (r: Hash128)
    ensures probeCount == 8 ==> r == hash128(seed1 + data)
    ensures probeCount != 8 ==> r.lo == hash.lo
    ensures probeCount == 15 ==> r.hi == hash.lo
    ensures probeCount != 8 && probeCount != 15 ==>
      forall n: nat :: Group(r.hi, n) == Group(hash.hi, n + 1)
  {
    if probeCount == 8 then hash128(seed1 + data)
    else if probeCount == 15 then Hash128(hash.lo, hash.lo)
    else DropGroupsShift(hash.hi); Hash128(hash.lo, hash.hi / SLOT_BIT_COUNT)
  }

  /** The offsets still to be probed when the loop of `op` is entered with
      counter `probeCount`, offset `offset` and hash state `hash`. */
  function OffsetsFrom(hash128: Hasher128, seed1: Seed, data: seq<byte>,
                       probeCount: int, offset: nat, hash: Hash128, probePerEntry: int): (offs: seq<nat>)
    requires 1 <= probeCount < probePerEntry
    requires offset < SLOT_BIT_COUNT
    ensures |offs| == probePerEntry - probeCount
    ensures offs[0] == offset
    ensures forall i :: 0 <= i < |offs| ==> offs[i] < SLOT_BIT_COUNT
    decreases probePerEntry - probeCount
  {
    if probeCount + 1 == probePerEntry then [offset]
    else
      [offset] + OffsetsFrom(hash128, seed1, data, probeCount + 1, hash.hi % SLOT_BIT_COUNT,
                             Refresh(hash128, seed1, data, probeCount + 1, hash), probePerEntry)
  }

  /** One probe of the loop: the remaining offsets are this one followed by
      those from the refreshed state. */
  lemma OffsetsFromStep(hash128: Hasher128, seed1: Seed, data: seq<byte>,
                        probeCount: int, offset: nat, hash: Hash128, probePerEntry: int)
    requires 1 <= probeCount && probeCount + 1 < probePerEntry
    requires offset < SLOT_BIT_COUNT
    ensures OffsetsFrom(hash128, seed1, data, probeCount, offset, hash, probePerEntry)
         == [offset] + OffsetsFrom(hash128, seed1, data, probeCount + 1, hash.hi % SLOT_BIT_COUNT,
                                   Refresh(hash128, seed1, data, probeCount + 1, hash), probePerEntry)
  {
  }

  /** The hash of `seed0 ++ data` that starts every probe sequence. */
  function FirstHash(c: ProbeConfig, data: seq<byte>): Hash128 {
    c.hash128(c.seed0 + data)
  }

  /** With the seeds `NewFastBloom` sets up, the refresh hash of a key is
      taken over a different input from its first hash. */
  lemma RefreshInputDiffers(c: ProbeConfig, data: seq<byte>)
    requires c.seed1 == AlternateSeed(c.seed0)
    ensures c.seed0 + data != c.seed1 + data
  {
    assert (c.seed0 + data)[0] != (c.seed1 + data)[0];
  }

  /** The slot of key `data`. */
  function KeySlot(c: ProbeConfig, data: seq<byte>): (slot: nat)
    requires c.slotCount >= 1
    ensures slot < c.slotCount
  {
    SlotIndex(FirstHash(c, data), c.slotCount)
  }

  /** The in-slot bit offsets probed for key `data`, in probe order:
      exactly `probePerEntry - 1` of them. */
  function KeyOffsets(c: ProbeConfig, data: seq<byte>): (offs: seq<nat>)
    requires c.probePerEntry >= 2
    ensures |offs| == c.probePerEntry - 1
    ensures forall i :: 0 <= i < |offs| ==> offs[i] < SLOT_BIT_COUNT
  {
    var first := FirstHash(c, data);
    OffsetsFrom(c.hash128, c.seed1, data, 1, first.lo % SLOT_BIT_COUNT, first, c.probePerEntry)
  }

  /** The word of the slab and the bit within it that an in-slot offset names. */
  function ProbeWord(slot: nat, offset: nat): (w: nat)
    requires offset < SLOT_BIT_COUNT
    ensures SLOT_WORD_COUNT * slot <= w < SLOT_WORD_COUNT * (slot + 1)
  {
    SLOT_WORD_COUNT * slot + offset / 64
  }

  lemma ProbeWordInSlab(slot: nat, offset: nat, slotCount: int)
    requires offset < SLOT_BIT_COUNT && slot < slotCount
    ensures ProbeWord(slot, offset) < SLOT_WORD_COUNT * slotCount
  {
  }

  // ---------------------------------------------------------------------
  // Closed form: which bits of which hash half every probe consumes.

  function Pow512(n: nat): (p: nat)
    ensures p >= 1
  {
    if n == 0 then 1 else 512 * Pow512(n - 1)
  }

  /** `x` with its `n` lowest 9-bit groups shifted out, as `n` successive
      divisions by 512. */
  function DropGroups(x: uint64, n: nat): (y: uint64)
    ensures y <= x
  {
    if n == 0 then x else DropGroups(x, n - 1) / SLOT_BIT_COUNT
  }

  /** Dropping one group first and then `n` more is dropping `n + 1`. */
  lemma DropGroupsShift(x: uint64)
    ensures forall n: nat :: DropGroups(x / SLOT_BIT_COUNT, n) == DropGroups(x, n + 1)
  {
    forall n: nat
      ensures DropGroups(x / SLOT_BIT_COUNT, n) == DropGroups(x, n + 1)
    {
      DropGroupsCommute(x, n);
    }
  }

  lemma {:induction false} DropGroupsCommute(x: uint64, n: nat)
    ensures DropGroups(x / SLOT_BIT_COUNT, n) == DropGroups(x, n) / SLOT_BIT_COUNT
  {
    if n > 0 {
      DropGroupsCommute(x, n - 1);
    }
  }

  /** The 9-bit group number `n` (counting from the least significant) of `x`. */
  function Group(x: uint64, n: nat): (g: nat)
    ensures g < SLOT_BIT_COUNT
  {
    DropGroups(x, n) % SLOT_BIT_COUNT
  }

  /** Offset of probe number `i` (0-based) as read straight off the two hashes:
      the first probe uses `lo` of the seed0 hash; probes 1..7 use successive
      groups of its `hi`; probes 8..14 successive groups of the seed1 hash's
      `hi`; and every later probe successive groups of the seed1 hash's `lo`. */
  function DirectOffset(h0: Hash128, h1: Hash128, i: nat): (off: nat)
    ensures off < SLOT_BIT_COUNT
  {
    if i == 0 then Group(h0.lo, 0)
    else if i <= 7 then Group(h0.hi, i - 1)
    else if i <= 14 then Group(h1.hi, i - 8)
    else Group(h1.lo, i - 15)
  }

  /** The hash state that `op` holds at the top of its loop with counter `probeCount`. */
  function DirectState(h0: Hash128, h1: Hash128, probeCount: nat): Hash128
    requires probeCount >= 1
  {
    if probeCount <= 7 then Hash128(h0.lo, DropGroups(h0.hi, probeCount - 1))
    else if probeCount <= 14 then Hash128(h1.lo, DropGroups(h1.hi, probeCount - 8))
    else Hash128(h1.lo, DropGroups(h1.lo, probeCount - 15))
  }

  lemma MulMonotone(a: int, b: int, d: nat)
    requires a <= b
    ensures a * d <= b * d
  {
  }

  lemma {:induction false} DivUnique(x: nat, d: nat, q: nat, r: nat)
    requires d > 0 && x == q * d + r && r < d
    ensures x / d == q
  {
    var q', r' := x / d, x % d;
    assert q' * d + r' == q * d + r;
    if q' < q {
      MulMonotone(q' + 1, q, d);
      assert false;
    } else if q < q' {
      MulMonotone(q + 1, q', d);
      assert false;
    }
  }

  lemma {:induction false} DivBelow(x: nat, p: nat)
    requires p >= 1
    ensures 0 <= x / p <= x
  {
    MulMonotone(1, p, x / p);
    assert x == (x / p) * p + x % p;
  }

  lemma {:induction false} DivDiv(x: nat, a: nat, b: nat)
    requires a > 0 && b > 0
    ensures x / a / b == x / (a * b)
  {
    DivBelow(x, a);
    var q: nat, r: nat := x / a, x % a;
    DivBelow(q, b);
    var q2: nat, r2: nat := q / b, q % b;
    Regroup(q2, r2, r, a, b);
    RemainderBelow(r2, r, a, b);
    DivUnique(x, a * b, q2, r2 * a + r);
  }

  /** `(q2 b + r2) a + r` regrouped by powers of the product `a b`. */
  lemma Regroup(q2: nat, r2: nat, r: nat, a: nat, b: nat)
    ensures (q2 * b + r2) * a + r == q2 * (a * b) + (r2 * a + r)
  {
  }

  /** Two remainders combined stay below the product of the divisors. */
  lemma RemainderBelow(r2: nat, r: nat, a: nat, b: nat)
    requires r2 < b && r < a
    ensures r2 * a + r < a * b
  {
    MulMonotone(r2, b - 1, a);
  }

  /** Dropping `n` groups is dividing by 512 to the `n`: group `n` is bits
      `9n .. 9n+8` of `x`. */
  lemma {:induction false} DropGroupsIsDivision(x: uint64, n: nat)
    ensures DropGroups(x, n) == x / Pow512(n)
  {
    if n > 0 {
      DropGroupsIsDivision(x, n - 1);
      DivDiv(x, Pow512(n - 1), 512);
    }
  }

  /** `count` successive offsets read off the hashes, from probe `from` on. */
  function DirectOffsets(h0: Hash128, h1: Hash128, from: nat, count: nat): (offs: seq<nat>)
    decreases count
  {
    if count == 0 then [] else [DirectOffset(h0, h1, from)] + DirectOffsets(h0, h1, from + 1, count - 1)
  }

  lemma {:induction false} OffsetsFromDirect(hash128: Hasher128, seed1: Seed, data: seq<byte>,
                                            h0: Hash128, h1: Hash128, probeCount: nat, probePerEntry: int)
    requires h1 == hash128(seed1 + data)
    requires 1 <= probeCount < probePerEntry
    ensures OffsetsFrom(hash128, seed1, data, probeCount, DirectOffset(h0, h1, probeCount - 1),
                        DirectState(h0, h1, probeCount), probePerEntry)
            == DirectOffsets(h0, h1, probeCount - 1, probePerEntry - probeCount)
    decreases probePerEntry - probeCount
  {
    var hash := DirectState(h0, h1, probeCount);
    var offs := OffsetsFrom(hash128, seed1, data, probeCount, DirectOffset(h0, h1, probeCount - 1),
                            hash, probePerEntry);
    var direct := DirectOffsets(h0, h1, probeCount - 1, probePerEntry - probeCount);
    if probeCount + 1 < probePerEntry {
      var next := Refresh(hash128, seed1, data, probeCount + 1, hash);
      assert hash.hi % SLOT_BIT_COUNT == DirectOffset(h0, h1, probeCount);
      assert next == DirectState(h0, h1, probeCount + 1);
      OffsetsFromDirect(hash128, seed1, data, h0, h1, probeCount + 1, probePerEntry);
      var rest := DirectOffsets(h0, h1, probeCount, probePerEntry - probeCount - 1);
      assert offs == [offs[0]] + rest;
    }
  }

  /** Probe `i` of key `data` reads the 9-bit group of the hash halves that
      `DirectOffset` names. */
  lemma KeyOffsetsDirect(c: ProbeConfig, data: seq<byte>)
    requires c.probePerEntry >= 2
    ensures KeyOffsets(c, data)
            == DirectOffsets(FirstHash(c, data), c.hash128(c.seed1 + data), 0, c.probePerEntry - 1)
  {
    var h0, h1 := FirstHash(c, data), c.hash128(c.seed1 + data);
    assert DirectState(h0, h1, 1) == h0;
    assert DirectOffset(h0, h1, 0) == h0.lo % SLOT_BIT_COUNT;
    OffsetsFromDirect(c.hash128, c.seed1, data, h0, h1, 1, c.probePerEntry);
  }
}
