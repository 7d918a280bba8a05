/** `GetOptimalParams` (fastbloom.go:89-153): the table that turns a target
    false-positive ratio into bits and probes per entry, and the slot count
    that gives `entryCount` entries that many bits. */
module OptimalParams {
  import opened Probes

  /** Bits per entry and probes per entry. */
  datatype Choice = Choice(bitsPerEntry: int, probePerEntry: int)

  /** What `GetOptimalParams` returns. */
  datatype Params = Params(slotCount: int, probePerEntry: int)

  /** `a` spends at least as many bits and probes per entry as `b`. */
  predicate AtLeast(a: Choice, b: Choice) {
    a.bitsPerEntry >= b.bitsPerEntry && a.probePerEntry >= b.probePerEntry
  }

  /** The lowest threshold of the staircase: ratios at or below it get the fallback. */
  const LOWEST_THRESHOLD: real := 0.000001

  /** The fallback the code starts from (fastbloom.go:90-91). */
  const WRITTEN_FALLBACK := Choice(25, 14)

  /** The bottom step of the staircase, the fallback that keeps it monotone. */
  const CORRECTED_FALLBACK := Choice(36, 16)

  /** The if/else-if staircase of fastbloom.go:92-150: the first step whose
      threshold the ratio exceeds, or `fallback` below all of them. */
  function Staircase(ratio: real, fallback: Choice): (c: Choice)
    ensures ratio <= LOWEST_THRESHOLD ==> c == fallback
    ensures LOWEST_THRESHOLD < ratio ==> 8 <= c.bitsPerEntry <= 36 && 6 <= c.probePerEntry <= 16
  {
    if ratio > 0.023220 then Choice(8, 6)
    else if ratio > 0.014895 then Choice(9, 7)
    else if ratio > 0.009646 then Choice(10, 8)
    else if ratio > 0.006303 then Choice(11, 8)
    else if ratio > 0.004118 then Choice(12, 9)
    else if ratio > 0.002753 then Choice(13, 9)
    else if ratio > 0.001856 then Choice(14, 10)
    else if ratio > 0.001236 then Choice(15, 10)
    else if ratio > 0.000841 then Choice(16, 10)
    else if ratio > 0.000575 then Choice(17, 11)
    else if ratio > 0.000377 then Choice(18, 11)
    else if ratio > 0.000271 then Choice(19, 12)
    else if ratio > 0.000206 then Choice(20, 13)
    else if ratio > 0.000134 then Choice(21, 13)
    else if ratio > 0.000108 then Choice(22, 13)
    else if ratio > 0.000068 then Choice(23, 13)
    else if ratio > 0.000050 then Choice(24, 13)
    else if ratio > 0.000037 then Choice(25, 13)
    else if ratio > 0.000024 then Choice(26, 13)
    else if ratio > 0.000020 then Choice(27, 14)
    else if ratio > 0.000014 then Choice(28, 15)
    else if ratio > 0.000011 then Choice(29, 15)
    else if ratio > 0.000009 then Choice(30, 15)
    else if ratio > 0.000007 then Choice(31, 15)
    else if ratio > 0.000005 then Choice(32, 15)
    else if ratio > 0.000004 then Choice(33, 15)
    else if ratio > 0.000003 then Choice(34, 15)
    else if ratio > 0.000002 then Choice(35, 15)
    else if ratio > 0.000001 then Choice(36, 16)
    else fallback
  }

  /** Go's `/` on `int`: the quotient truncated toward zero. */
  function GoDiv(a: int, d: int): (q: int)
    requires d > 0
    ensures a >= 0 ==> d * q <= a < d * (q + 1)
    ensures a < 0 ==> d * (q - 1) < a <= d * q
  {
    if a >= 0 then a / d else -((-a) / d)
  }

  /** `GetOptimalParams` with the staircase ending in `fallback`. The slot
      count is the number of 512-bit slots needed to give every entry its
      bits, rounded up (fastbloom.go:151); for a negative entry count the
      code yields no slots. */
  function ParamsWith(entryCount: int, ratio: real, fallback: Choice): (p: Params)
    requires fallback.bitsPerEntry >= 0
    ensures p.probePerEntry == Staircase(ratio, fallback).probePerEntry
    ensures entryCount >= 0 ==>
      var bits := Staircase(ratio, fallback).bitsPerEntry * entryCount;
      SLOT_BIT_COUNT * (p.slotCount - 1) < bits <= SLOT_BIT_COUNT * p.slotCount
    ensures entryCount < 0 ==> p.slotCount <= 0
  {
    var c := Staircase(ratio, fallback);
    Params(GoDiv(c.bitsPerEntry * entryCount + SLOT_BIT_COUNT - 1, SLOT_BIT_COUNT), c.probePerEntry)
  }

  /** `GetOptimalParams(entryCount, targetFalsePositiveRatio)`, as written:
      above the lowest threshold it agrees with the corrected table, and at
      or below it every ratio gets 25 bits and 14 probes per entry. */
  function GetOptimalParams(entryCount: int, ratio: real): (p: Params)
    ensures LOWEST_THRESHOLD < ratio ==> p == CorrectedOptimalParams(entryCount, ratio)
    ensures ratio <= LOWEST_THRESHOLD ==> p.probePerEntry == 14
    ensures ratio <= LOWEST_THRESHOLD && entryCount >= 0 ==>
      SLOT_BIT_COUNT * (p.slotCount - 1) < 25 * entryCount <= SLOT_BIT_COUNT * p.slotCount
  {
    ParamsWith(entryCount, ratio, WRITTEN_FALLBACK)
  }

  /** `GetOptimalParams` with the fallback replaced by the bottom step: every
      ratio gets at least 6 probes, and those at or below the lowest threshold
      get the bottom step's 16 probes and 36 bits per entry. */
  function CorrectedOptimalParams(entryCount: int, ratio: real): (p: Params)
    ensures 6 <= p.probePerEntry <= 16
    ensures ratio <= LOWEST_THRESHOLD ==> p.probePerEntry == 16
    ensures ratio <= LOWEST_THRESHOLD && entryCount >= 0 ==>
      SLOT_BIT_COUNT * (p.slotCount - 1) < 36 * entryCount <= SLOT_BIT_COUNT * p.slotCount
  {
    ParamsWith(entryCount, ratio, CORRECTED_FALLBACK)
  }

  /** Above the lowest threshold the fallback plays no part, and a smaller
      target ratio never gets fewer bits or probes per entry. */
  lemma StaircaseMonotone(r1: real, r2: real, fallback: Choice)
    requires LOWEST_THRESHOLD < r1 <= r2
    ensures AtLeast(Staircase(r1, fallback), Staircase(r2, fallback))
    ensures Staircase(r1, fallback) == Staircase(r1, CORRECTED_FALLBACK)
  {
  }

  /** A larger dividend never gets a smaller truncated quotient. */
  lemma GoDivMonotone(a: int, b: int, d: int)
    requires d > 0 && a <= b
    ensures GoDiv(a, d) <= GoDiv(b, d)
  {
    var qa, qb, n: nat := GoDiv(a, d), GoDiv(b, d), d;
    if qb < qa {
      if a >= 0 {
        MulMonotone(qb + 1, qa, n);
      } else if b < 0 {
        MulMonotone(qb, qa - 1, n);
      } else {
        MulMonotone(0, qa, n);
      }
    }
  }

  /** For a fixed number of entries, a smaller target ratio above the lowest
      threshold never yields fewer slots or fewer probes. */
  lemma ParamsMonotone(entryCount: nat, r1: real, r2: real, fallback: Choice)
    requires fallback.bitsPerEntry >= 0
    requires LOWEST_THRESHOLD < r1 <= r2
    ensures ParamsWith(entryCount, r1, fallback).slotCount >= ParamsWith(entryCount, r2, fallback).slotCount
    ensures ParamsWith(entryCount, r1, fallback).probePerEntry >= ParamsWith(entryCount, r2, fallback).probePerEntry
  {
    StaircaseMonotone(r1, r2, fallback);
    var b1, b2 := Staircase(r1, fallback).bitsPerEntry, Staircase(r2, fallback).bitsPerEntry;
    MulMonotone(b2, b1, entryCount);
    GoDivMonotone(b2 * entryCount + SLOT_BIT_COUNT - 1, b1 * entryCount + SLOT_BIT_COUNT - 1, SLOT_BIT_COUNT);
  }

  /** One million entries at a one percent target: ten bits and eight probes
      per entry, in 19532 slots. */
  lemma OneMillionAtOnePercent()
    ensures GetOptimalParams(1000000, 0.01) == Params(19532, 8)
  {
  }

  /** As written, a target at the lowest threshold gets fewer bits and probes
      than a target twice as large. */
  lemma WrittenFallbackNotMonotone()
    ensures Staircase(0.000001, WRITTEN_FALLBACK) == Choice(25, 14)
    ensures Staircase(0.000002, WRITTEN_FALLBACK) == Choice(36, 16)
    ensures !AtLeast(Staircase(0.000001, WRITTEN_FALLBACK), Staircase(0.000002, WRITTEN_FALLBACK))
    ensures GetOptimalParams(1000000, 0.000001).slotCount < GetOptimalParams(1000000, 0.000002).slotCount
  {
  }

  /** With the bottom step as fallback, the staircase is monotone over all ratios. */
  lemma CorrectedStaircaseMonotone(r1: real, r2: real)
    requires r1 <= r2
    ensures AtLeast(Staircase(r1, CORRECTED_FALLBACK), Staircase(r2, CORRECTED_FALLBACK))
  {
    if r1 > LOWEST_THRESHOLD {
      StaircaseMonotone(r1, r2, CORRECTED_FALLBACK);
    }
  }

  /** With the corrected fallback, a smaller target never yields fewer slots
      or probes, whatever the ratios. */
  lemma CorrectedParamsMonotone(entryCount: nat, r1: real, r2: real)
    requires r1 <= r2
    ensures CorrectedOptimalParams(entryCount, r1).slotCount >= CorrectedOptimalParams(entryCount, r2).slotCount
    ensures CorrectedOptimalParams(entryCount, r1).probePerEntry >= CorrectedOptimalParams(entryCount, r2).probePerEntry
  {
    CorrectedStaircaseMonotone(r1, r2);
    var b1 := Staircase(r1, CORRECTED_FALLBACK).bitsPerEntry;
    var b2 := Staircase(r2, CORRECTED_FALLBACK).bitsPerEntry;
    MulMonotone(b2, b1, entryCount);
    GoDivMonotone(b2 * entryCount + SLOT_BIT_COUNT - 1, b1 * entryCount + SLOT_BIT_COUNT - 1, SLOT_BIT_COUNT);
  }
}
