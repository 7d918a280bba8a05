# go-fastbloom in Dafny

A model of the Go package `fastbloom` and of the plain Bloom filter in its false-positive demo.

`FastBloom` is a cache-line-local Bloom filter with these parts:
- Its bit slab is a slice of `uint64` words, grouped into 64-byte slots.
- `NewFastBloom` drops the leading words that come before the first 64-byte boundary, and one slot with them.
- `op` hashes `seed0 ++ key` with a 128-bit hash. The low half picks one slot and the first bit inside it.
- Every later probe of `op` lands in that same slot. It takes its offset from successive 9-bit groups of the hash:
  - the high half of the first hash;
  - then the high half of a second hash, of `seed1 ++ key`;
  - then the low half of that second hash.
- `Add` ORs those bits in, and `Has` tests them.
- `GetOptimalParams` turns an entry count and a target false-positive ratio into a slot count and a probe count, using a staircase of thresholds.

The demo's `BloomFilter` is the textbook filter it is compared against:
- a `bool` table;
- probe `i` of key `in` hashes `byte(i) ++ in` with a 64-bit hash and visits `(hash >> 1) % len`.

The modules are:
- `Words`: Go's `byte`, `uint64` and `[8]byte` seed, plus single-bit facts about a 64-bit word (`1 << k`, OR, AND). `Words.Mask` builds `1 << k` from a 6-bit shift amount, and `Words.ShiftAmountValue` shows this is the Go shift for every `k < 64`.
- `Probes`: the probe sequence of a key, as a recursive function that follows the loop of `op` step by step. `KeyOffsetsDirect` proves it equal to a closed form naming the 9-bit group of which hash half each probe reads.
- `Slab`: the slab as a value. `Insert` and `Query` are what `Add` and `Has` do to it and read from it. The lemmas cover no false negatives, idempotence, frame (only the key's slot changes) and an empty slab.
- `FastBloomFilter`: the class `FastBloom` with its array, constructor, `Reset`, `Op`, `Add` and `Has`.
  - `Op` is the loop of `op`, proved against `Insert`/`Query`.
  - The class invariant `Valid` says every key added since the last `Reset` is reported present.
- `OptimalParams`: `GetOptimalParams` over exact reals, with the slot-count ceiling proved and monotonicity studied (see Findings).
- `ReferenceBloom`: the demo's `BloomFilter` class, with `MarkAll`/`AllTrue` as its specification functions and the same no-false-negatives invariant.

Where the code's names and comments suggest one thing and the code does another, the model follows the code:
- Number of probes. The loop of `op` counts the first probe as 1 and stops when the counter, after being increased, equals `probePerEntry`. So a key has `probePerEntry - 1` probes, not `probePerEntry` (`Probes.KeyOffsets`). With `probePerEntry` below 2 the `break` is never reached (see Left out).
- Fallback for tiny ratios. Ratios at or below 0.000001 get `(25, 14)`, not the most conservative step `(36, 16)` (see Findings).
- Zero slots after the trim. A filter whose trim leaves zero slots is still constructed. Its `op` would then divide by zero, so `Op`, `Add` and `Has` require a usable configuration: at least one slot and `probePerEntry >= 2`.
- Out-of-range ratios. `GetOptimalParams` does not reject ratios outside (0, 1). They fall into the first step or into the fallback.

## Model

| member | source | states |
|---|---|---|
| Words.ShiftAmountValue | fastbloom.go:57-58 | the 6-bit shift amount built for `bitOffsetInSlot % 64` has exactly that value, so `Mask(k)` is `uint64(1) << k` |
| Words.Mask | fastbloom.go:58 | `uint64(1) << bitOffsetInWord` is a word with exactly one bit set: nonzero, and ANDed with itself minus one it is zero |
| Words.OrSetsBit | fastbloom.go:58-60 | ORing in `1 << k` makes bit `k` one and keeps every bit the word already had |
| Words.OrOfSetBit | fastbloom.go:58-60 | ORing in a bit that is already one leaves the word unchanged |
| Words.CoversKeepsBit | fastbloom.go:58-61 | a bit that is one in a word stays one in any word that has all its bits |
| Words.ZeroHasNoBit | fastbloom.go:44-48 | no bit of a zero word is one, so a probe of a reset word fails |
| Probes.SlotConstants | fastbloom.go:17-21 | a slot is 64 bytes = 512 bits = 8 words |
| Probes.AlternateSeed | fastbloom.go:28-31 | `seed1` is `seed0` with byte 0 complemented, all other bytes equal, so it differs from `seed0` |
| Probes.SlotIndex | fastbloom.go:53 | the slot picked from `hash.Lo / 512 % slotCount` is below `slotCount` |
| Probes.RefreshInputDiffers | fastbloom.go:28-71 | with `seed1` derived from `seed0` as `NewFastBloom` does, the refresh hash of line 71 is taken over a different input (`seed1 ++ key`) from the first hash of line 51 (`seed0 ++ key`) |
| Probes.KeySlot | fastbloom.go:51-53 | every key's slot is one of the filter's slots |
| Probes.Refresh | fastbloom.go:70-76 | at counter 8 the state is the hash of `seed1 ++ key`; otherwise `Lo` is kept; at 15 `Hi` becomes `Lo`; otherwise `Hi` moves on one 9-bit group, so its group `n` is the old group `n + 1` |
| Probes.OffsetsFrom | fastbloom.go:56-77 | from loop counter `probeCount`, the loop of `op` visits `probePerEntry - probeCount` further in-slot offsets, starting with the current one, all below 512 |
| Probes.OffsetsFromStep | fastbloom.go:65-76 | loop-proof step for `Op`: one trip round the loop is the current offset followed by the offsets from the next offset and the refreshed hash state |
| Probes.KeyOffsets | fastbloom.go:50-79 | a key gets exactly `probePerEntry - 1` in-slot offsets, each below 512 |
| Probes.ProbeWord | fastbloom.go:54-57 | the word `currSlotOffset + bitOffsetInSlot / 64` lies inside the key's slot |
| Probes.ProbeWordInSlab | fastbloom.go:53-60 | that word lies inside a slab of `slotCount` slots, so the index of `op` is in range |
| Probes.DropGroupsIsDivision | fastbloom.go:75 | shifting out `n` 9-bit groups by repeated `/ 512` is dividing by 512 to the `n` |
| Probes.OffsetsFromDirect | fastbloom.go:56-77 | from any loop counter, the offsets the loop visits are the hash groups that the closed form names |
| Probes.KeyOffsetsDirect | fastbloom.go:51-76 | probe 0 reads `Lo` of the seed0 hash; probes 1-7 read successive groups of its `Hi`; probes 8-14 read groups of the seed1 hash's `Hi`; later probes read groups of its `Lo` |
| Slab.SetProbe | fastbloom.go:57-60 | one probe of `Add` keeps the slab's length |
| Slab.SetProbeProperties | fastbloom.go:57-60 | one probe of `Add` sets its bit, clears nothing and changes no other word |
| Slab.AddBits | fastbloom.go:56-77 | the slab after the `isAdd` loop keeps its length (what is ORed in: see `AddBitsOnlyOrsSlot`, `AddBitsSetsAll`, `AllSetIffUnchanged`) |
| Slab.AddBitsSnoc | fastbloom.go:56-77 | loop-proof step for `Op`: ORing in one more probe is one more `SetProbe` step |
| Slab.ProbeClear | fastbloom.go:61-62 | a probe found zero means the key's probes are not all set, so `op` may answer false there |
| Slab.AllSetSnoc | fastbloom.go:61-65 | a probe found one extends the run of probes found set |
| Slab.AddBitsOnlyOrsSlot | fastbloom.go:56-77 | the probes of one key only OR bits in, and only in the words of the key's slot |
| Slab.AddBitsSetsAll | fastbloom.go:56-77 | after the probes of one key are ORed in, every probed bit is one |
| Slab.AddBitsOfSet | fastbloom.go:56-77 | ORing in probes whose bits are all one already leaves the slab unchanged |
| Slab.AddBitsIdempotent | fastbloom.go:56-77 | ORing in the same probes twice is ORing them in once |
| Slab.AllSetIffUnchanged | fastbloom.go:56-78 | the probed bits of a slot are all one exactly when ORing them in changes nothing |
| Slab.AllSetMonotone | fastbloom.go:61 | bits that are one stay one in any slab that has all the bits of this one |
| Slab.ZerosHaveNone | fastbloom.go:44-48 | in an all-zero slab no probed bit is one |
| Slab.Zeros | fastbloom.go:25 | a fresh slab has the given length and every word zero |
| Slab.Insert | fastbloom.go:81-83 | `Add` keeps the slab's length |
| Slab.InsertAll | fastbloom.go:81-83 | adding a sequence of keys keeps the slab's length |
| Slab.Query | fastbloom.go:56-78 | the answer of `Has(key)`: true exactly when `Add(key)` would leave the slab unchanged |
| Slab.InsertProperties | fastbloom.go:81-87 | after `Add(d)`, `Has(d)` is true; no bit is cleared; only words of `d`'s slot change |
| Slab.InsertIdempotent | fastbloom.go:81-83 | adding a key twice leaves the slab as adding it once |
| Slab.InsertAllCovers | fastbloom.go:81-83 | adding any keys clears no bit |
| Slab.NoFalseNegatives | fastbloom.go:50-87 | once a key is added, `Has` reports it whatever keys are added after it |
| Slab.EmptyHasNothing | fastbloom.go:44-48 | on an all-zero slab `Has` is false for every key |
| FastBloomFilter.AlignmentTrim | fastbloom.go:32-40 | the words dropped number fewer than 8 and make the slab start on a 64-byte boundary; none are dropped exactly when it already does |
| FastBloomFilter.FastBloom.constructor | fastbloom.go:23-42 | a zeroed slab of `8 * slotCount` words less the trimmed ones; one slot fewer when words were trimmed; `seed1` derived from `seed0`; no keys |
| FastBloomFilter.FastBloom.Reset | fastbloom.go:44-48 | every word is zero, the keys are forgotten, and on a usable filter `Has` is false for every key |
| FastBloomFilter.FastBloom.Op | fastbloom.go:50-79 | with `isAdd` the slab becomes `Insert` of the key and the answer is true; otherwise the slab is untouched and the answer is `Query` of the key |
| FastBloomFilter.FastBloom.ProbeBit | fastbloom.go:57-63 | one probe either ORs in its bit or reports whether that bit is one |
| FastBloomFilter.FastBloom.Add | fastbloom.go:81-83 | the slab becomes `Insert` of the key, the invariant holds, and the key joins the added keys |
| FastBloomFilter.FastBloom.Has | fastbloom.go:85-87 | true exactly when every probed bit is one, hence true for every key added since the last `Reset` |
| OptimalParams.GoDiv | fastbloom.go:151 | Go's truncating integer division: the quotient brackets the dividend from below for non-negative dividends, from above for negative ones |
| OptimalParams.Staircase | fastbloom.go:90-150 | the if/else-if table with the code's thresholds: at or below 0.000001 the fallback; above it a step with 8 to 36 bits and 6 to 16 probes per entry |
| OptimalParams.ParamsWith | fastbloom.go:89-153 | the probe count is the staircase step's; for a non-negative entry count the slot count is the ceiling of `bitsPerEntry * entryCount / 512`; for a negative one it is at most 0 |
| OptimalParams.GetOptimalParams | fastbloom.go:89-153 | above 0.000001 the result is the corrected staircase's; at or below, 14 probes and the slots for 25 bits per entry, rounded up |
| OptimalParams.CorrectedOptimalParams | fastbloom.go:89-153 | the corrected half of the Finding: every ratio gets 6 to 16 probes; at or below 0.000001, 16 probes and the slots for 36 bits per entry, rounded up |
| OptimalParams.StaircaseMonotone | fastbloom.go:92-150 | above the lowest threshold a smaller ratio never gets fewer bits or probes per entry, and the fallback plays no part |
| OptimalParams.GoDivMonotone | fastbloom.go:151 | a larger dividend never gets a smaller truncated quotient |
| OptimalParams.ParamsMonotone | fastbloom.go:89-153 | above the lowest threshold, a smaller ratio never yields fewer slots or probes for the same entry count |
| OptimalParams.OneMillionAtOnePercent | fastbloom.go:96-97 | one million entries at 1% get 19532 slots and 8 probes per entry |
| OptimalParams.WrittenFallbackNotMonotone | fastbloom.go:90-91 | ratio 0.000001 gets (25, 14) while 0.000002 gets (36, 16), and fewer slots for a million entries |
| OptimalParams.CorrectedStaircaseMonotone | fastbloom.go:89-150 | with `(36, 16)` as the fallback the staircase is monotone over all ratios |
| OptimalParams.CorrectedParamsMonotone | fastbloom.go:89-153 | with `(36, 16)` as the fallback a smaller ratio never yields fewer slots or probes |
| ReferenceBloom.ProbeInput | falsepos_demo/main.go:33 | probe `i` hashes `byte(i)` followed by the key |
| ReferenceBloom.ProbeOffset | falsepos_demo/main.go:33-34 | `int(hash >> 1) % len` is a valid index, and `hash >> 1` fits in a non-negative Go `int` |
| ReferenceBloom.LowByte | falsepos_demo/main.go:33 | `byte(i)` keeps only the low eight bits, so probes `i` and `i + 256` hash the same input |
| ReferenceBloom.ProbeOffsets | falsepos_demo/main.go:32-34 | the first `count` probes visit `count` valid indices, probe `i` at `ProbeOffset(i)` |
| ReferenceBloom.KeyProbes | falsepos_demo/main.go:31-34 | a key gets `probePerEntry` probes (none when it is not positive), all valid indices |
| ReferenceBloom.ProbeCount | falsepos_demo/main.go:32 | the loop `i < probePerEntry` runs `probePerEntry` times, and not at all exactly when `probePerEntry` is not positive |
| ReferenceBloom.MarkAll | falsepos_demo/main.go:35-36 | marking keeps the table's length |
| ReferenceBloom.MarkAllExact | falsepos_demo/main.go:35-36 | after marking, an entry is true exactly when it was true or was probed |
| ReferenceBloom.AllTrueIffUnchanged | falsepos_demo/main.go:32-41 | `AllTrue`, the answer of `Has`, holds exactly when marking the key's probes would change nothing |
| ReferenceBloom.MarkAllSetsAll | falsepos_demo/main.go:35-36 | after marking, every probed entry is true |
| ReferenceBloom.MarkAllKeepsTrue | falsepos_demo/main.go:35-36 | marking never turns a true entry false |
| ReferenceBloom.MarkAllStep | falsepos_demo/main.go:32-36 | loop-proof step for `Op`: marking one more probe is one more `data[offset] = true` |
| ReferenceBloom.AllTrueStep | falsepos_demo/main.go:32-39 | a probe found true extends the run of probes found true |
| ReferenceBloom.FalsesHaveNone | falsepos_demo/main.go:25-29 | in an all-false table a key with at least one probe is not present |
| ReferenceBloom.AddRemembers | falsepos_demo/main.go:44-50 | adding a key keeps every earlier key present and makes the new one present |
| ReferenceBloom.MarkingKeepsKeys | falsepos_demo/main.go:35-36 | marking any positions keeps every key already present |
| ReferenceBloom.AddConsistent | falsepos_demo/main.go:44-46 | `Add` keeps the table's invariant: keys are only added to a table `op` can probe, and every added key is present |
| ReferenceBloom.BloomFilter.constructor | falsepos_demo/main.go:18-23 | `size` entries, all false, the given probe count, no keys |
| ReferenceBloom.BloomFilter.Reset | falsepos_demo/main.go:25-29 | every entry is false, the keys are forgotten, and `Has` is false for every key when there are probes and entries |
| ReferenceBloom.BloomFilter.Op | falsepos_demo/main.go:31-42 | with `isAdd` the table becomes `MarkAll` of the key's probes and the answer is true; otherwise the answer is whether all of them are true |
| ReferenceBloom.BloomFilter.ProbeEntry | falsepos_demo/main.go:35-39 | one probe either sets its entry or reports it |
| ReferenceBloom.BloomFilter.Add | falsepos_demo/main.go:44-46 | the table becomes `MarkAll` of the key's probes, the invariant holds, and the key joins the added keys |
| ReferenceBloom.BloomFilter.Has | falsepos_demo/main.go:48-50 | true exactly when every probed entry is true, hence for every added key, and always with no probes |

## Left out

- The hashes `xxh3.Hash128` and `xxh3.Hash` are not modelled. Each filter holds an arbitrary function of the right type, fixed at construction, so every property holds for any hash function. Nothing about false-positive rates is stated.
- `unsafe.Pointer`: the address of the first word is a constructor parameter `addr`. The constructor requires `addr % 8 == 0`; the Go code panics otherwise.
- The constructor also requires at least one requested slot, because taking `&slotData[0]` of an empty slice panics. A negative `size` or `slotCount` makes `make` panic, so both constructors require a non-negative one.
- The re-slice `slotData[8-u:]` is modelled as an array of the re-sliced length. The dropped prefix is never read or written again, and the sharing of the backing array with it is not modelled.
- FastBloomFilter.FastBloom.Op requires at least one slot and `probePerEntry >= 2`, and so do `Add` and `Has`. With zero slots the Go code divides by zero. A filter that the trim leaves with zero slots can be constructed and reset, but not used.
- FastBloomFilter.FastBloom.Has: with `probePerEntry` below 2 the `break` of `op` is never reached. `Add` does not return. `Has` answers false at the first clear probed bit and otherwise does not return. The model excludes both, so it does not capture that `Has` on a fresh or reset filter with such a count answers false after one probe.
- ReferenceBloom.BloomFilter.Op requires entries when there are probes, because the Go code computes `% len(data)`.
- The model assumes a 64-bit platform, where Go's `int` is 64 bits. On 32-bit targets `int(hash.Lo/SlotBitCount)` in `op` and `int(hash>>1)` in the demo's `op` can be negative, and the index then panics. This is not modelled.
- FastBloomFilter.FastBloom.constructor requires fewer than 2^60 requested slots. At 2^60 or more, `slotCount*SlotWordCount` wraps in 64 bits. Some such counts give a negative length and `make` panics. Others give a short slab: 2^61+1 slots get 8 words, and `op` then indexes out of range for almost every key. None of this is modelled.
- Overflow of `bitsPerEntry * entryCount` in `GetOptimalParams` is not modelled (integers are unbounded). Neither is the wrap-around of `probeCount`.
- `float64` ratios are exact reals. The thresholds are the decimal literals of the code, and rounding at a threshold is not modelled.
- `CheckParam` and `main` of the demo are not part of this model. They draw random keys, print measured false-positive rates and exit.
- ReferenceBloom.LowByte: its contract states only that `byte(i)` repeats every 256, not that it equals `i % 256`, because the int-to-byte conversion is too costly for the verifier to prove reliably.
- Concurrency: neither filter is safe for concurrent use, and the model is sequential.

## Findings

| source | as written | input that shows it | evidently intended | confidence | as-written member | corrected member |
|---|---|---|---|---|---|---|
| fastbloom.go:90-91 | the staircase starts from `bitsPerEntry, probePerEntry = 25, 14`, which every ratio at or below 0.000001 keeps | `GetOptimalParams(1000000, 0.000001)` gets 25 bits and 14 probes per entry, while `0.000002` gets 36 and 16: a stricter target gets a weaker filter | the fallback is the most conservative step, `(36, 16)`, so a smaller target never gets fewer bits or probes | high; not executed | OptimalParams.WrittenFallbackNotMonotone | OptimalParams.CorrectedParamsMonotone |
