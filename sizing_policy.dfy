/**
 * The sizing policy of the detector: how many bytes of the free memory the
 * arena should take, and whether the arena has to be reallocated to reach
 * that size (SEUDetector.get_memory_to_use and should_update_array in main.py).
 */
module SizingPolicy {

  /** NO_UPDATE, UPDATE_NO_CHECK and UPDATE_WITH_CHECK (the constants 0, 1 and 2). */
  datatype Decision = NoUpdate | UpdateNoCheck | UpdateWithCheck

  /** FREE_MEMORY_USAGE_RATE: the share of (free + arena) memory the arena may take. */
  const FreeMemoryUsageRate: real := 0.75

  /** RELATIVE_DATA_LENGTH_CHANGE_TO_UPDATE: the smallest relative change worth a reallocation. */
  const RelativeChangeToUpdate: real := 0.2

  function Abs(x: int): nat { if x < 0 then -x else x }

  function Min(a: nat, b: nat): nat { if a <= b then a else b }

  /**
   * get_memory_to_use: int((free + len(data) / 8) * 0.75) bytes, where the
   * arena's own bytes count as available. Over the naturals this is
   * ((8 * free + len) * 3) / 32; the ensures says that it is the floor of the
   * exact product the source computes in floating point.
   */
  function MemoryToUse(freeBytes: nat, dataBits: nat): (toUse: nat)
    ensures toUse as real <= (freeBytes as real + dataBits as real / 8.0) * FreeMemoryUsageRate
    ensures (freeBytes as real + dataBits as real / 8.0) * FreeMemoryUsageRate < toUse as real + 1.0
  {
    ((8 * freeBytes + dataBits) * 3) / 32
  }

  /** The target never exceeds what is free plus what the arena already holds. */
  lemma MemoryToUseBounded(freeBytes: nat, dataBits: nat)
    ensures 8 * MemoryToUse(freeBytes, dataBits) <= 8 * freeBytes + dataBits
    ensures 4 * (8 * MemoryToUse(freeBytes, dataBits)) > 3 * (8 * freeBytes + dataBits) - 32
  {
  }

  /**
   * The target depends on free memory and arena size only through their sum:
   * once the arena holds the target and the host reports less free memory by
   * the arena's growth in bytes, the target is the same again and no
   * reallocation follows.
   */
  lemma TargetIsStable(freeBytes: nat, dataBits: nat, freeAfter: nat)
    requires 8 * freeAfter + 8 * MemoryToUse(freeBytes, dataBits) == 8 * freeBytes + dataBits
    ensures MemoryToUse(freeAfter, 8 * MemoryToUse(freeBytes, dataBits)) == MemoryToUse(freeBytes, dataBits)
    ensures CompareSizes(8 * MemoryToUse(freeBytes, dataBits), 8 * MemoryToUse(freeAfter, 8 * MemoryToUse(freeBytes, dataBits))) == NoUpdate
  {
  }

  /** abs(delta) / m > 0.2 holds exactly when five times abs(delta) exceeds m. */
  lemma RatioExceedsThreshold(delta: nat, m: nat)
    requires m > 0
    ensures (delta as real / m as real > RelativeChangeToUpdate) <==> 5 * delta > m
  {
  }

  /**
   * The size comparison of should_update_array once force_reinit is known to
   * be clear: `current` is len(self.data), `desired` is use_bits. The ensures
   * state the outcome over integers. The change is measured against the
   * smaller size, so an empty/non-empty transition or a shrink to less than
   * five sixths of the current size reallocates without a checkpoint, growth
   * to more than six fifths reallocates after a checkpoint, and a target
   * between five sixths and six fifths of the current size keeps the arena.
   */
  function CompareSizes(current: nat, desired: nat): (d: Decision)
    ensures d == UpdateWithCheck <==> current > 0 && 5 * desired > 6 * current
    ensures d == UpdateNoCheck <==>
              (current == 0) != (desired == 0) || (desired > 0 && 5 * current > 6 * desired)
    ensures d == NoUpdate <==>
              (current == 0 && desired == 0) ||
              (current > 0 && desired > 0 && 5 * desired <= 6 * current && 5 * current <= 6 * desired)
  {
    if desired != 0 && current == 0 then UpdateNoCheck
    else if desired == 0 && current != 0 then UpdateNoCheck
    else if desired == 0 && current == 0 then NoUpdate
    else
      var delta := desired - current;
      RatioExceedsThreshold(Abs(delta), Min(desired, current));
      var rel := Abs(delta) as real / Min(desired, current) as real;
      if rel > RelativeChangeToUpdate then
        if delta > 0 then UpdateWithCheck else UpdateNoCheck
      else
        NoUpdate
  }

  /**
   * Representative cases: sizes in bits, and the first target for an empty
   * arena with one gigabyte free.
   */
  lemma SizingExamples()
    ensures MemoryToUse(1000000000, 0) == 750000000
    ensures CompareSizes(0, 1000) == UpdateNoCheck
    ensures CompareSizes(1000, 0) == UpdateNoCheck
    ensures CompareSizes(0, 0) == NoUpdate
    ensures CompareSizes(1000, 1300) == UpdateWithCheck
    ensures CompareSizes(1000, 700) == UpdateNoCheck
    ensures CompareSizes(1000, 1100) == NoUpdate
    ensures CompareSizes(1000, 810) == UpdateNoCheck
    ensures CompareSizes(1000, 834) == NoUpdate && CompareSizes(1000, 833) == UpdateNoCheck
    ensures CompareSizes(1000, 1200) == NoUpdate && CompareSizes(1000, 1201) == UpdateWithCheck
  {
  }

  /** An arena of the desired size is never reallocated by the comparison. */
  lemma SameSizeKeeps(n: nat)
    ensures CompareSizes(n, n) == NoUpdate
  {
  }
}
