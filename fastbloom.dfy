/** The cache-line-local Bloom filter `FastBloom` (fastbloom.go:9-87): its
    construction with the cache-line alignment trim, `Reset`, and the probe
    loop `op` behind `Add` and `Has`. */
module FastBloomFilter {
  import opened Words
  import opened Probes
  import opened Slab

  /** How many leading words `NewFastBloom` drops so that the slab starts on a
      64-byte boundary, for a first word at byte address `addr` (fastbloom.go:36-38). */
  function AlignmentTrim(addr: nat): (skip: nat)
    requires addr % 8 == 0
    ensures skip < SLOT_WORD_COUNT
    ensures (addr / 8 + skip) % SLOT_WORD_COUNT == 0
    ensures skip == 0 <==> addr % SLOT_BYTE_COUNT == 0
  {
    var unalignedWords := (addr / 8) % SLOT_WORD_COUNT;
    if unalignedWords != 0 then SLOT_WORD_COUNT - unalignedWords else 0
  }

  /** Moving the next offset from the remaining ones to the ones done: a
      step of the loop proof of `Op`, kept as a lemma because asserting the
      regrouped sequence in place is far more costly for the verifier. */
  lemma SplitAdvances(all: seq<nat>, done: seq<nat>, rest: seq<nat>, next: nat, later: seq<nat>)
    requires all == done + rest && rest == [next] + later
    ensures all == (done + [next]) + later
  {
  }

  class FastBloom {
    /** Stands for `xxh3.Hash128`, fixed for the life of the filter. */
    const hash128: Hasher128

    /** The 64-byte-aligned re-slice of the allocation. */
    var slotData: array<bv64>
    var slotCount: int
    var probePerEntry: int
    var seed0: Seed
    var seed1: Seed

    /** The keys added since construction or the last `Reset`. */
    ghost var added: set<seq<byte>>

    ghost function Config(): ProbeConfig
      reads this
    {
      ProbeConfig(hash128, seed0, seed1, slotCount, probePerEntry)
    }

    /** `slotData` holds `slotCount` slots. */
    ghost predicate Shaped()
      reads this, slotData
    {
      0 <= slotCount && Holds(slotData[..], slotCount)
    }

    /** The filter's invariant: the slab holds `slotCount` slots, the second
        seed is derived from the first, and every added key is reported present. */
    ghost predicate Valid()
      reads this, slotData
    {
      && Shaped()
      && seed1 == AlternateSeed(seed0)
      && (added != {} ==> Config().Usable())
      && forall d :: d in added ==> Query(Config(), slotData[..], d)
    }

    /** `NewFastBloom(slotCount, probePerEntry, seed)`, where the allocator
        placed the first word of the new slab at byte address `addr`: the
        words before the first 64-byte boundary are dropped, and with them
        one slot. */
    constructor (requestedSlots: int, probePerEntry: int, seed: Seed, hash128: Hasher128, addr: nat)
      requires 1 <= requestedSlots < 0x1000_0000_0000_0000
      requires addr % 8 == 0
      ensures Valid() && fresh(slotData)
      ensures this.hash128 == hash128 && this.probePerEntry == probePerEntry
      ensures seed0 == seed && seed1 == AlternateSeed(seed)
      ensures slotData.Length == SLOT_WORD_COUNT * requestedSlots - AlignmentTrim(addr)
      ensures slotCount == if AlignmentTrim(addr) == 0 then requestedSlots else requestedSlots - 1
      ensures slotData[..] == Zeros(slotData.Length)
      ensures added == {}
    {
      var skip, slots := AlignmentTrim(addr), requestedSlots;
      if skip != 0 {
        slots := slots - 1;
      }
      slotData := new bv64[SLOT_WORD_COUNT * requestedSlots - skip](_ => 0);
      this.hash128 := hash128;
      slotCount := slots;
      this.probePerEntry := probePerEntry;
      seed0 := seed;
      seed1 := AlternateSeed(seed);
      added := {};
      new;
      assert slotData[..] == Zeros(slotData.Length);
    }

    /** Zeroes every word of `slotData`, including any beyond the last slot. */
    method Reset()
      requires Valid()
      modifies slotData, this`added
      ensures Valid()
      ensures slotData[..] == Zeros(slotData.Length)
      ensures added == {}
      ensures Config().Usable() ==> forall d :: !Query(Config(), slotData[..], d)
    {
      for i := 0 to slotData.Length
        invariant forall j :: 0 <= j < i ==> slotData[j] == 0
      {
        slotData[i] := 0;
      }
      added := {};
      assert slotData[..] == Zeros(slotData.Length);
      if Config().Usable() {
        forall d
          ensures !Query(Config(), slotData[..], d)
        {
          EmptyHasNothing(Config(), slotData.Length, d);
        }
      }
    }

    /** The probe loop of `op`: with `isAdd` it ORs in the key's probe bits;
        otherwise it tests them and answers false at the first clear one. */
    method Op(data: seq<byte>, isAdd: bool) returns (r: bool)
      requires Shaped() && Config().Usable()
      modifies if isAdd then {slotData} else {}
      ensures isAdd ==> r && slotData[..] == Insert(Config(), old(slotData[..]), data)
      ensures !isAdd ==> r == Query(Config(), slotData[..], data)
    {
      ghost var start := slotData[..];
      ghost var slot, all := KeySlot(Config(), data), KeyOffsets(Config(), data);
      SlotFits(start, slot, slotCount);
      var hash := hash128(seed0 + data);
      var bitOffsetInSlot: nat := hash.lo % SLOT_BIT_COUNT;
      var slotIdx := (hash.lo / SLOT_BIT_COUNT) % slotCount;
      var currSlotOffset := SLOT_WORD_COUNT * slotIdx;
      var probeCount := 1;
      assert currSlotOffset == SLOT_WORD_COUNT * slot;
      ghost var done: seq<nat> := [];
      while true
        invariant 1 <= probeCount < probePerEntry && bitOffsetInSlot < SLOT_BIT_COUNT
        invariant ValidOffsets(done)
        invariant all == done + OffsetsFrom(hash128, seed1, data, probeCount, bitOffsetInSlot, hash, probePerEntry)
        invariant isAdd ==> slotData[..] == AddBits(start, slot, done)
        invariant !isAdd ==> slotData[..] == start && AllSet(start, slot, done)
        decreases probePerEntry - probeCount
      {
        ghost var rest := OffsetsFrom(hash128, seed1, data, probeCount, bitOffsetInSlot, hash, probePerEntry);
        var found := ProbeBit(slot, currSlotOffset, bitOffsetInSlot, isAdd);
        if !found {
          ProbeClear(start, slot, all, |done|);
          return false;
        }
        if isAdd {
          AddBitsSnoc(start, slot, done, bitOffsetInSlot);
        } else {
          AllSetSnoc(start, slot, done, bitOffsetInSlot);
        }
        ghost var previousDone := done;
        done := done + [bitOffsetInSlot];
        probeCount := probeCount + 1;
        if probeCount == probePerEntry {
          assert rest == [bitOffsetInSlot];
          break;
        }
        ghost var previousHash, previousOffset := hash, bitOffsetInSlot;
        bitOffsetInSlot := hash.hi % SLOT_BIT_COUNT;
        hash := Refresh(hash128, seed1, data, probeCount, hash);
        OffsetsFromStep(hash128, seed1, data, probeCount - 1, previousOffset, previousHash, probePerEntry);
        SplitAdvances(all, previousDone, rest, previousOffset,
                      OffsetsFrom(hash128, seed1, data, probeCount, bitOffsetInSlot, hash, probePerEntry));
      }
      assert done == all;
      return true;
    }

    /** One probe of the loop of `op`, at in-slot offset `off` of the slot
        that starts at word `currSlotOffset`: ORs in its bit, or reports whether it is one. */
    method ProbeBit(ghost slot: nat, currSlotOffset: nat, off: nat, isAdd: bool) returns (found: bool)
      requires currSlotOffset == SLOT_WORD_COUNT * slot && off < SLOT_BIT_COUNT
      requires Holds(slotData[..], slot + 1)
      modifies if isAdd then {slotData} else {}
      ensures isAdd ==> found && slotData[..] == SetProbe(old(slotData[..]), slot, off)
      ensures !isAdd ==> found == ProbeSet(slotData[..], slot, off)
    {
      var wordIdx, bitOffsetInWord := off / 64, off % 64;
      var mask := Mask(bitOffsetInWord);
      if isAdd {
        slotData[currSlotOffset + wordIdx] := slotData[currSlotOffset + wordIdx] | mask;
        return true;
      }
      return slotData[currSlotOffset + wordIdx] & mask != 0;
    }

    /** `Add(data)`: afterwards `data` is reported present, and so is every
        key added before it. */
    method Add(data: seq<byte>)
      requires Valid() && Config().Usable()
      modifies slotData, this`added
      ensures Valid()
      ensures added == old(added) + {data}
      ensures slotData[..] == Insert(Config(), old(slotData[..]), data)
    {
      var _ := Op(data, true);
      InsertProperties(Config(), old(slotData[..]), data);
      forall d | d in old(added)
        ensures Query(Config(), slotData[..], d)
      {
        AllSetMonotone(old(slotData[..]), slotData[..], KeySlot(Config(), d), KeyOffsets(Config(), d));
      }
      added := added + {data};
    }

    /** `Has(data)`: true exactly when every probed bit of `data` is one, so
        always for a key added since the last `Reset`. */
    method Has(data: seq<byte>) returns (r: bool)
      requires Valid() && Config().Usable()
      ensures r <==> Query(Config(), slotData[..], data)
      ensures data in added ==> r
    {
      r := Op(data, false);
    }
  }
}
