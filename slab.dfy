/** The bit slab of the cache-line-local filter as a value: a sequence of
    64-bit words, eight to a slot. `Insert` and `Query` are what `op` does to
    and reads from the slab for one key (fastbloom.go:50-87). */
module Slab {
  import opened Words
  import opened Probes

  /** A slab that holds at least `slotCount` whole slots. */
  predicate Holds(s: seq<bv64>, slotCount: int) {
    SLOT_WORD_COUNT * slotCount <= |s|
  }

  /** Each of the first `slotCount` slots of such a slab lies inside it. */
  lemma SlotFits(s: seq<bv64>, slot: nat, slotCount: int)
    requires Holds(s, slotCount) && slot < slotCount
    ensures Holds(s, slot + 1)
  {
  }

  predicate ValidOffsets(offs: seq<nat>) {
    forall i :: 0 <= i < |offs| ==> offs[i] < SLOT_BIT_COUNT
  }

  /** The slab after the bit at in-slot offset `off` of slot `slot` has been
      ORed in: one step of the loop of `op` with `isAdd` (fastbloom.go:57-60). */
  function SetProbe(s: seq<bv64>, slot: nat, off: nat): (r: seq<bv64>)
    requires Holds(s, slot + 1) && off < SLOT_BIT_COUNT
    ensures |r| == |s|
  {
    var w := ProbeWord(slot, off);
    s[w := s[w] | Mask(off % 64)]
  }

  /** The slab after the bits at `offs` in slot `slot` have been ORed in, in order. */
  function AddBits(s: seq<bv64>, slot: nat, offs: seq<nat>): (r: seq<bv64>)
    requires Holds(s, slot + 1) && ValidOffsets(offs)
    ensures |r| == |s|
  {
    if offs == [] then s
    else SetProbe(AddBits(s, slot, offs[..|offs| - 1]), slot, offs[|offs| - 1])
  }

  predicate InSlot(i: int, slot: nat) {
    SLOT_WORD_COUNT * slot <= i < SLOT_WORD_COUNT * (slot + 1)
  }

  /** The bit at in-slot offset `off` of slot `slot` is one. */
  predicate ProbeSet(s: seq<bv64>, slot: nat, off: nat)
    requires Holds(s, slot + 1) && off < SLOT_BIT_COUNT
  {
    BitSet(s[ProbeWord(slot, off)], off % 64)
  }

  /** Every probed bit is one. */
  predicate AllSet(s: seq<bv64>, slot: nat, offs: seq<nat>)
    requires Holds(s, slot + 1) && ValidOffsets(offs)
  {
    forall i :: 0 <= i < |offs| ==> ProbeSet(s, slot, offs[i])
  }

  /** `t` has every bit of `s` (and maybe more). */
  predicate Covers(t: seq<bv64>, s: seq<bv64>) {
    |t| == |s| && forall i :: 0 <= i < |s| ==> WordCovers(t[i], s[i])
  }

  function Zeros(n: nat): (z: seq<bv64>)
    ensures |z| == n && forall i :: 0 <= i < n ==> z[i] == 0
  {
    seq(n, _ => 0)
  }

  // ---------------------------------------------------------------------
  // Lemmas about one insertion.

  lemma CoversTransitiveSeq(u: seq<bv64>, t: seq<bv64>, s: seq<bv64>)
    requires Covers(u, t) && Covers(t, s)
    ensures Covers(u, s)
  {
    forall i | 0 <= i < |s|
      ensures WordCovers(u[i], s[i])
    {
      CoversTransitive(u[i], t[i], s[i]);
    }
  }

  /** One probe sets its own bit, clears nothing and touches only its own word. */
  lemma SetProbeProperties(s: seq<bv64>, slot: nat, off: nat)
    requires Holds(s, slot + 1) && off < SLOT_BIT_COUNT
    ensures ProbeSet(SetProbe(s, slot, off), slot, off)
    ensures Covers(SetProbe(s, slot, off), s)
    ensures forall i :: 0 <= i < |s| && i != ProbeWord(slot, off) ==> SetProbe(s, slot, off)[i] == s[i]
  {
    var w := ProbeWord(slot, off);
    OrSetsBit(s[w], off % 64);
    forall i | 0 <= i < |s| && i != w
      ensures WordCovers(SetProbe(s, slot, off)[i], s[i])
    {
      CoversReflexive(s[i]);
    }
  }

  /** One more probe ORed in is one more `SetProbe` step. */
  lemma AddBitsSnoc(s: seq<bv64>, slot: nat, offs: seq<nat>, off: nat)
    requires Holds(s, slot + 1) && ValidOffsets(offs) && off < SLOT_BIT_COUNT
    ensures ValidOffsets(offs + [off])
    ensures AddBits(s, slot, offs + [off]) == SetProbe(AddBits(s, slot, offs), slot, off)
  {
    assert (offs + [off])[..|offs|] == offs;
  }

  /** A probe found clear means the probes are not all set. */
  lemma ProbeClear(s: seq<bv64>, slot: nat, offs: seq<nat>, i: nat)
    requires Holds(s, slot + 1) && ValidOffsets(offs) && i < |offs|
    requires !ProbeSet(s, slot, offs[i])
    ensures !AllSet(s, slot, offs)
  {
  }

  /** A probe found set extends the run of probes found set. */
  lemma AllSetSnoc(s: seq<bv64>, slot: nat, offs: seq<nat>, off: nat)
    requires Holds(s, slot + 1) && ValidOffsets(offs) && off < SLOT_BIT_COUNT
    requires AllSet(s, slot, offs) && ProbeSet(s, slot, off)
    ensures ValidOffsets(offs + [off]) && AllSet(s, slot, offs + [off])
  {
  }

  /** Inserting only ORs bits in, and only in the words of the key's slot. */
  lemma {:induction false} AddBitsOnlyOrsSlot(s: seq<bv64>, slot: nat, offs: seq<nat>)
    requires Holds(s, slot + 1) && ValidOffsets(offs)
    ensures Covers(AddBits(s, slot, offs), s)
    ensures forall i :: 0 <= i < |s| && !InSlot(i, slot) ==> AddBits(s, slot, offs)[i] == s[i]
  {
    if offs == [] {
      forall i | 0 <= i < |s|
        ensures WordCovers(s[i], s[i])
      {
        CoversReflexive(s[i]);
      }
    } else {
      var before := AddBits(s, slot, offs[..|offs| - 1]);
      AddBitsOnlyOrsSlot(s, slot, offs[..|offs| - 1]);
      SetProbeProperties(before, slot, offs[|offs| - 1]);
      CoversTransitiveSeq(AddBits(s, slot, offs), before, s);
    }
  }

  /** Inserting sets every probed bit. */
  lemma {:induction false} AddBitsSetsAll(s: seq<bv64>, slot: nat, offs: seq<nat>)
    requires Holds(s, slot + 1) && ValidOffsets(offs)
    ensures AllSet(AddBits(s, slot, offs), slot, offs)
  {
    if offs != [] {
      var init, last := offs[..|offs| - 1], offs[|offs| - 1];
      var before := AddBits(s, slot, init);
      AddBitsSetsAll(s, slot, init);
      SetProbeProperties(before, slot, last);
      AllSetMonotone(before, AddBits(s, slot, offs), slot, init);
      forall i | 0 <= i < |offs|
        ensures ProbeSet(AddBits(s, slot, offs), slot, offs[i])
      {
        if i < |offs| - 1 {
          assert offs[i] == init[i];
        }
      }
    }
  }

  /** Inserting probes whose bits are all one already changes nothing. */
  lemma {:induction false} AddBitsOfSet(s: seq<bv64>, slot: nat, offs: seq<nat>)
    requires Holds(s, slot + 1) && ValidOffsets(offs)
    requires AllSet(s, slot, offs)
    ensures AddBits(s, slot, offs) == s
  {
    if offs != [] {
      var init, last := offs[..|offs| - 1], offs[|offs| - 1];
      assert AllSet(s, slot, init) by {
        forall i | 0 <= i < |init|
          ensures ProbeSet(s, slot, init[i])
        {
          assert init[i] == offs[i];
        }
      }
      AddBitsOfSet(s, slot, init);
      assert ProbeSet(s, slot, offs[|offs| - 1]);
      OrOfSetBit(s[ProbeWord(slot, last)], last % 64);
    }
  }

  /** Inserting the same probes twice is inserting them once. */
  lemma AddBitsIdempotent(s: seq<bv64>, slot: nat, offs: seq<nat>)
    requires Holds(s, slot + 1) && ValidOffsets(offs)
    ensures AddBits(AddBits(s, slot, offs), slot, offs) == AddBits(s, slot, offs)
  {
    AddBitsSetsAll(s, slot, offs);
    AddBitsOfSet(AddBits(s, slot, offs), slot, offs);
  }

  /** The probes are all set exactly when ORing them in changes nothing. */
  lemma AllSetIffUnchanged(s: seq<bv64>, slot: nat, offs: seq<nat>)
    requires Holds(s, slot + 1) && ValidOffsets(offs)
    ensures AllSet(s, slot, offs) <==> AddBits(s, slot, offs) == s
  {
    if AllSet(s, slot, offs) {
      AddBitsOfSet(s, slot, offs);
    } else {
      AddBitsSetsAll(s, slot, offs);
    }
  }

  /** Bits that are set stay set in any slab that covers this one. */
  lemma AllSetMonotone(s: seq<bv64>, t: seq<bv64>, slot: nat, offs: seq<nat>)
    requires Holds(s, slot + 1) && ValidOffsets(offs)
    requires Covers(t, s) && AllSet(s, slot, offs)
    ensures AllSet(t, slot, offs)
  {
    forall i | 0 <= i < |offs|
      ensures ProbeSet(t, slot, offs[i])
    {
      var w := ProbeWord(slot, offs[i]);
      CoversKeepsBit(t[w], s[w], offs[i] % 64);
    }
  }

  /** An all-zero slab has no probed bit set. */
  lemma ZerosHaveNone(n: nat, slot: nat, offs: seq<nat>)
    requires Holds(Zeros(n), slot + 1) && ValidOffsets(offs) && offs != []
    ensures !AllSet(Zeros(n), slot, offs)
  {
    ZeroHasNoBit(offs[0] % 64);
  }

  // ---------------------------------------------------------------------
  // Keys: what `Add` and `Has` do to the slab, and no false negatives.

  /** The slab after `Add(data)`. */
  function Insert(c: ProbeConfig, s: seq<bv64>, data: seq<byte>): (r: seq<bv64>)
    requires c.Usable() && Holds(s, c.slotCount)
    ensures |r| == |s|
  {
    AddBits(s, KeySlot(c, data), KeyOffsets(c, data))
  }

  /** The answer of `Has(data)`: true exactly when `Add(data)` would change nothing. */
  predicate Query(c: ProbeConfig, s: seq<bv64>, data: seq<byte>)
    requires c.Usable() && Holds(s, c.slotCount)
    ensures Query(c, s, data) <==> Insert(c, s, data) == s
  {
    AllSetIffUnchanged(s, KeySlot(c, data), KeyOffsets(c, data));
    AllSet(s, KeySlot(c, data), KeyOffsets(c, data))
  }

  /** The slab after adding every key of `keys` in order. */
  function InsertAll(c: ProbeConfig, s: seq<bv64>, keys: seq<seq<byte>>): (r: seq<bv64>)
    requires c.Usable() && Holds(s, c.slotCount)
    ensures |r| == |s|
  {
    if keys == [] then s else Insert(c, InsertAll(c, s, keys[..|keys| - 1]), keys[|keys| - 1])
  }

  /** Adding a key sets its probes, changes only words of its slot, and clears nothing. */
  lemma InsertProperties(c: ProbeConfig, s: seq<bv64>, data: seq<byte>)
    requires c.Usable() && Holds(s, c.slotCount)
    ensures Query(c, Insert(c, s, data), data)
    ensures Covers(Insert(c, s, data), s)
    ensures forall i :: 0 <= i < |s| && Insert(c, s, data)[i] != s[i] ==> InSlot(i, KeySlot(c, data))
  {
    AddBitsSetsAll(s, KeySlot(c, data), KeyOffsets(c, data));
    AddBitsOnlyOrsSlot(s, KeySlot(c, data), KeyOffsets(c, data));
  }

  lemma InsertIdempotent(c: ProbeConfig, s: seq<bv64>, data: seq<byte>)
    requires c.Usable() && Holds(s, c.slotCount)
    ensures Insert(c, Insert(c, s, data), data) == Insert(c, s, data)
  {
    AddBitsIdempotent(s, KeySlot(c, data), KeyOffsets(c, data));
  }

  lemma {:induction false} InsertAllCovers(c: ProbeConfig, s: seq<bv64>, keys: seq<seq<byte>>)
    requires c.Usable() && Holds(s, c.slotCount)
    ensures Covers(InsertAll(c, s, keys), s)
  {
    if keys != [] {
      var before := InsertAll(c, s, keys[..|keys| - 1]);
      InsertAllCovers(c, s, keys[..|keys| - 1]);
      InsertProperties(c, before, keys[|keys| - 1]);
      forall i | 0 <= i < |s|
        ensures WordCovers(InsertAll(c, s, keys)[i], s[i])
      {
        CoversTransitive(InsertAll(c, s, keys)[i], before[i], s[i]);
      }
    }
  }

  /** No false negatives: once added, a key is reported present whatever is added after it. */
  lemma NoFalseNegatives(c: ProbeConfig, s: seq<bv64>, data: seq<byte>, later: seq<seq<byte>>)
    requires c.Usable() && Holds(s, c.slotCount)
    ensures Query(c, InsertAll(c, Insert(c, s, data), later), data)
  {
    var added := Insert(c, s, data);
    InsertProperties(c, s, data);
    InsertAllCovers(c, added, later);
    AllSetMonotone(added, InsertAll(c, added, later), KeySlot(c, data), KeyOffsets(c, data));
  }

  /** After a reset no key is reported present. */
  lemma EmptyHasNothing(c: ProbeConfig, n: nat, data: seq<byte>)
    requires c.Usable() && Holds(Zeros(n), c.slotCount)
    ensures !Query(c, Zeros(n), data)
  {
    ZerosHaveNone(n, KeySlot(c, data), KeyOffsets(c, data));
  }
}
