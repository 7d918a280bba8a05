/** The plain Bloom filter of the false-positive demo (falsepos_demo/main.go:13-50):
    one `bool` per position and one 64-bit hash per probe, the input of
    probe `i` being the byte `i` followed by the key. */
module ReferenceBloom {
  import opened Words

  /** Stands for `xxh3.Hash`. */
  type Hasher64 = seq<byte> -> uint64

  /** Go's `byte(i)`: the low eight bits of `i`, so it wraps every 256. */
  function LowByte(i: nat): (b: byte)
    ensures i >= 256 ==> b == LowByte(i - 256)
  {
    (i % 256) as byte
  }

  /** What probe `i` hashes: `byte(i)` and then the key. */
  function ProbeInput(i: nat, data: seq<byte>): (input: seq<byte>)
    ensures |input| == |data| + 1 && input[1..] == data
    ensures input[0] == LowByte(i)
  {
    [LowByte(i)] + data
  }

  /** The position probe `i` of `data` visits in a table of `len` entries:
      `int(hash>>1) % len`. Halving the hash keeps it below 2^63, so the Go
      `int` it becomes is never negative. */
  function ProbeOffset(hash64: Hasher64, data: seq<byte>, i: nat, len: int): (off: nat)
    requires len > 0
    ensures off < len
    ensures hash64(ProbeInput(i, data)) / 2 < TWO_TO_THE_64 / 2
  {
    (hash64(ProbeInput(i, data)) / 2) % len
  }

  /** The positions of the first `count` probes of `data`, in probe order. */
  function ProbeOffsets(hash64: Hasher64, data: seq<byte>, count: nat, len: int): (offs: seq<nat>)
    requires len > 0 || count == 0
    ensures |offs| == count && InBounds(offs, len)
    ensures forall i :: 0 <= i < count ==> offs[i] == ProbeOffset(hash64, data, i, len)
  {
    if count == 0 then [] else ProbeOffsets(hash64, data, count - 1, len) + [ProbeOffset(hash64, data, count - 1, len)]
  }

  predicate InBounds(offs: seq<nat>, len: int) {
    forall i :: 0 <= i < |offs| ==> offs[i] < len
  }

  /** The table after every position of `offs` has been set, in order. */
  function MarkAll(d: seq<bool>, offs: seq<nat>): (r: seq<bool>)
    requires InBounds(offs, |d|)
    ensures |r| == |d|
  {
    if offs == [] then d else MarkAll(d, offs[..|offs| - 1])[offs[|offs| - 1] := true]
  }

  /** Every position of `offs` holds true. */
  predicate AllTrue(d: seq<bool>, offs: seq<nat>)
    requires InBounds(offs, |d|)
  {
    forall i :: 0 <= i < |offs| ==> d[offs[i]]
  }

  /** The probed entries are all true exactly when marking them would change nothing. */
  lemma AllTrueIffUnchanged(d: seq<bool>, offs: seq<nat>)
    requires InBounds(offs, |d|)
    ensures AllTrue(d, offs) <==> MarkAll(d, offs) == d
  {
    if AllTrue(d, offs) {
      forall j | 0 <= j < |d|
        ensures MarkAll(d, offs)[j] == d[j]
      {
        MarkAllExact(d, offs, j);
        if j in offs {
          var i :| 0 <= i < |offs| && offs[i] == j;
        }
      }
    } else {
      var i :| 0 <= i < |offs| && !d[offs[i]];
      MarkAllExact(d, offs, offs[i]);
    }
  }

  /** Marking sets exactly the positions of `offs` and leaves every other entry as it was. */
  lemma {:induction false} MarkAllExact(d: seq<bool>, offs: seq<nat>, j: int)
    requires InBounds(offs, |d|) && 0 <= j < |d|
    ensures MarkAll(d, offs)[j] == (d[j] || j in offs)
  {
    if offs != [] {
      var init := offs[..|offs| - 1];
      MarkAllExact(d, init, j);
      assert offs == init + [offs[|offs| - 1]];
    }
  }

  /** After marking, every marked position holds true. */
  lemma MarkAllSetsAll(d: seq<bool>, offs: seq<nat>)
    requires InBounds(offs, |d|)
    ensures AllTrue(MarkAll(d, offs), offs)
  {
    forall i | 0 <= i < |offs|
      ensures MarkAll(d, offs)[offs[i]]
    {
      MarkAllExact(d, offs, offs[i]);
    }
  }

  /** Marking never turns a true entry false. */
  lemma MarkAllKeepsTrue(d: seq<bool>, offs: seq<nat>, probed: seq<nat>)
    requires InBounds(offs, |d|) && InBounds(probed, |d|)
    requires AllTrue(d, probed)
    ensures AllTrue(MarkAll(d, offs), probed)
  {
    forall i | 0 <= i < |probed|
      ensures MarkAll(d, offs)[probed[i]]
    {
      MarkAllExact(d, offs, probed[i]);
    }
  }

  /** Marking one more probe position is one more update. */
  lemma MarkAllStep(d: seq<bool>, offs: seq<nat>, i: nat)
    requires InBounds(offs, |d|) && i < |offs|
    ensures MarkAll(d, offs[..i + 1]) == MarkAll(d, offs[..i])[offs[i] := true]
  {
    assert offs[..i + 1][..i] == offs[..i];
  }

  /** The probe positions found true so far, and one more. */
  lemma AllTrueStep(d: seq<bool>, offs: seq<nat>, i: nat)
    requires InBounds(offs, |d|) && i < |offs|
    requires AllTrue(d, offs[..i]) && d[offs[i]]
    ensures AllTrue(d, offs[..i + 1])
  {
  }

  /** A table of all false has no probed position set. */
  lemma FalsesHaveNone(n: nat, offs: seq<nat>)
    requires InBounds(offs, n) && offs != []
    ensures !AllTrue(seq(n, _ => false), offs)
  {
    assert !seq(n, _ => false)[offs[0]];
  }

  /** How many probes `op` makes: its loop runs while `i < probePerEntry`,
      so not at all when that is not positive. */
  function ProbeCount(probePerEntry: int): (count: nat)
    ensures count == 0 <==> probePerEntry <= 0
    ensures probePerEntry > 0 ==> count == probePerEntry
  {
    if probePerEntry > 0 then probePerEntry else 0
  }

  /** `op` can run: with no probes it never computes `% len(data)`. */
  predicate CanProbe(probePerEntry: int, len: int) {
    len > 0 || probePerEntry <= 0
  }

  /** The positions `op` visits for `key` in a table of `len` entries. */
  function KeyProbes(hash64: Hasher64, probePerEntry: int, len: int, key: seq<byte>): (offs: seq<nat>)
    requires CanProbe(probePerEntry, len)
    ensures |offs| == ProbeCount(probePerEntry) && InBounds(offs, len)
  {
    ProbeOffsets(hash64, key, ProbeCount(probePerEntry), len)
  }

  /** Every key of `keys` has all its probed entries true in table `t`. */
  ghost predicate Remembers(t: seq<bool>, keys: set<seq<byte>>, hash64: Hasher64, probePerEntry: int)
    requires CanProbe(probePerEntry, |t|)
  {
    forall d :: d in keys ==> AllTrue(t, KeyProbes(hash64, probePerEntry, |t|, d))
  }

  /** Adding a key keeps every remembered key and remembers the new one:
      there are no false negatives until the table is cleared. */
  lemma AddRemembers(t: seq<bool>, keys: set<seq<byte>>, key: seq<byte>, hash64: Hasher64, probePerEntry: int)
    requires CanProbe(probePerEntry, |t|) && Remembers(t, keys, hash64, probePerEntry)
    ensures Remembers(MarkAll(t, KeyProbes(hash64, probePerEntry, |t|, key)), keys + {key}, hash64, probePerEntry)
  {
    var offs := KeyProbes(hash64, probePerEntry, |t|, key);
    MarkAllSetsAll(t, offs);
    MarkingKeepsKeys(t, keys, offs, hash64, probePerEntry);
  }

  /** Marking any positions keeps every remembered key. */
  lemma MarkingKeepsKeys(t: seq<bool>, keys: set<seq<byte>>, offs: seq<nat>, hash64: Hasher64, probePerEntry: int)
    requires CanProbe(probePerEntry, |t|) && InBounds(offs, |t|)
    requires Remembers(t, keys, hash64, probePerEntry)
    ensures Remembers(MarkAll(t, offs), keys, hash64, probePerEntry)
  {
    forall d | d in keys
      ensures AllTrue(MarkAll(t, offs), KeyProbes(hash64, probePerEntry, |t|, d))
    {
      MarkAllKeepsTrue(t, offs, KeyProbes(hash64, probePerEntry, |t|, d));
    }
  }

  /** The invariant of a table: keys were only added if `op` can probe it,
      and then every one of them is remembered. */
  ghost predicate Consistent(t: seq<bool>, keys: set<seq<byte>>, hash64: Hasher64, probePerEntry: int) {
    && (keys != {} ==> CanProbe(probePerEntry, |t|))
    && (CanProbe(probePerEntry, |t|) ==> Remembers(t, keys, hash64, probePerEntry))
  }

  /** `Add` keeps the invariant. */
  lemma AddConsistent(t: seq<bool>, keys: set<seq<byte>>, key: seq<byte>, hash64: Hasher64, probePerEntry: int)
    requires CanProbe(probePerEntry, |t|) && Consistent(t, keys, hash64, probePerEntry)
    ensures Consistent(MarkAll(t, KeyProbes(hash64, probePerEntry, |t|, key)), keys + {key}, hash64, probePerEntry)
  {
    AddRemembers(t, keys, key, hash64, probePerEntry);
  }

  class BloomFilter {
    /** Stands for `xxh3.Hash`, fixed for the life of the filter. */
    const hash64: Hasher64
    var data: array<bool>
    var probePerEntry: int

    /** The keys added since construction or the last `Reset`. */
    ghost var added: set<seq<byte>>

    /** Every key added since the last `Reset` has all its probed entries
        true; keys can only have been added to a table `op` can probe. */
    ghost predicate Valid()
      reads this, data
    {
      Consistent(data[..], added, hash64, probePerEntry)
    }

    /** `NewBloomFilter(size, probePerEntry)`: `size` entries, all false. */
    constructor (size: int, probePerEntry: int, hash64: Hasher64)
      requires size >= 0
      ensures Valid() && fresh(data)
      ensures data.Length == size && data[..] == seq(size, _ => false)
      ensures this.probePerEntry == probePerEntry && this.hash64 == hash64
      ensures added == {}
    {
      data := new bool[size](_ => false);
      this.probePerEntry := probePerEntry;
      this.hash64 := hash64;
      added := {};
    }

    /** Sets every entry to false; the length is unchanged. */
    method Reset()
      requires Valid()
      modifies data, this`added
      ensures Valid()
      ensures data[..] == seq(data.Length, _ => false)
      ensures added == {}
      ensures probePerEntry > 0 && data.Length > 0 ==>
        forall d :: !AllTrue(data[..], KeyProbes(hash64, probePerEntry, data.Length, d))
    {
      for i := 0 to data.Length
        invariant forall j :: 0 <= j < i ==> !data[j]
      {
        data[i] := false;
      }
      added := {};
      assert data[..] == seq(data.Length, _ => false);
      if probePerEntry > 0 && data.Length > 0 {
        forall d
          ensures !AllTrue(data[..], KeyProbes(hash64, probePerEntry, data.Length, d))
        {
          FalsesHaveNone(data.Length, KeyProbes(hash64, probePerEntry, data.Length, d));
        }
      }
    }

    /** The probe loop of `op`: with `isAdd` it sets each probed entry;
        otherwise it answers false at the first probed entry that is false. */
    method Op(key: seq<byte>, isAdd: bool) returns (r: bool)
      requires CanProbe(probePerEntry, data.Length)
      modifies if isAdd then {data} else {}
      ensures isAdd ==> r && data[..] == MarkAll(old(data[..]), KeyProbes(hash64, probePerEntry, data.Length, key))
      ensures !isAdd ==> r == AllTrue(data[..], KeyProbes(hash64, probePerEntry, data.Length, key))
    {
      ghost var start := data[..];
      ghost var offs := KeyProbes(hash64, probePerEntry, data.Length, key);
      var count := ProbeCount(probePerEntry);
      for i := 0 to count
        invariant isAdd ==> data[..] == MarkAll(start, offs[..i])
        invariant !isAdd ==> data[..] == start && AllTrue(start, offs[..i])
      {
        var hash := hash64(ProbeInput(i, key));
        var offset := (hash / 2) % data.Length;
        assert offset == offs[i];
        var found := ProbeEntry(offset, isAdd);
        if !found {
          return false;
        }
        if isAdd {
          MarkAllStep(start, offs, i);
        } else {
          AllTrueStep(start, offs, i);
        }
      }
      assert offs[..count] == offs;
      return true;
    }

    /** One probe of the loop of `op`: sets the entry at `offset`, or reports whether it is true. */
    method ProbeEntry(offset: nat, isAdd: bool) returns (found: bool)
      requires offset < data.Length
      modifies if isAdd then {data} else {}
      ensures isAdd ==> found && data[..] == old(data[..])[offset := true]
      ensures !isAdd ==> found == data[offset]
    {
      if isAdd {
        data[offset] := true;
        return true;
      }
      return data[offset];
    }

    /** `Add(in)`: afterwards the key is reported present, and so is every key
        added before it. */
    method Add(key: seq<byte>)
      requires Valid() && CanProbe(probePerEntry, data.Length)
      modifies data, this`added
      ensures Valid()
      ensures added == old(added) + {key}
      ensures data[..] == MarkAll(old(data[..]), KeyProbes(hash64, probePerEntry, data.Length, key))
    {
      ghost var marked := MarkAll(data[..], KeyProbes(hash64, probePerEntry, data.Length, key));
      AddConsistent(data[..], added, key, hash64, probePerEntry);
      added := added + {key};
      var _ := Op(key, true);
      assert data[..] == marked;
    }

    /** `Has(in)`: true exactly when every probed entry is true, so always
        for a key added since the last `Reset`, and always when there are no probes. */
    method Has(key: seq<byte>) returns (r: bool)
      requires Valid() && CanProbe(probePerEntry, data.Length)
      ensures r <==> AllTrue(data[..], KeyProbes(hash64, probePerEntry, data.Length, key))
      ensures key in added ==> r
      ensures probePerEntry <= 0 ==> r
    {
      r := Op(key, false);
    }
  }
}
