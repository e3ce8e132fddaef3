/**
 * The SEUDetector class of main.py: the arena and the force_reinit flag it
 * owns, the statistics file it writes, and one pass through the loop of
 * run_once. Clock readings and the host's free memory are parameters.
 */
module Detector {
  import opened Wrappers
  import opened SizingPolicy
  import opened BitArena
  import opened Statistics

  /** CHECK_MEMORY_EVERY, in seconds. */
  const CheckMemoryEvery: real := 1.0

  /** CHECK_DATA_EVERY, in seconds. */
  const CheckDataEvery: real := 10.0

  /**
   * sleep_for in run_once: the time left until the nearer of the memory and
   * the data deadline, read at the clock value `now`.
   */
  function SleepFor(now: real, lastCheckMem: real, lastCheckData: real): (s: real)
    ensures s <= CheckMemoryEvery - (now - lastCheckMem) && s <= CheckDataEvery - (now - lastCheckData)
    ensures s == CheckMemoryEvery - (now - lastCheckMem) || s == CheckDataEvery - (now - lastCheckData)
  {
    var untilMemory := CheckMemoryEvery - (now - lastCheckMem);
    var untilData := CheckDataEvery - (now - lastCheckData);
    if untilMemory <= untilData then untilMemory else untilData
  }

  /**
   * Sleeping exactly sleep_for never passes a deadline, and on waking at
   * least one of the two checks is due.
   */
  lemma SleepReachesNearerDeadline(now: real, lastCheckMem: real, lastCheckData: real)
    ensures var wake := now + SleepFor(now, lastCheckMem, lastCheckData);
            wake <= lastCheckMem + CheckMemoryEvery && wake <= lastCheckData + CheckDataEvery
    ensures var wake := now + SleepFor(now, lastCheckMem, lastCheckData);
            wake - lastCheckMem >= CheckMemoryEvery || wake - lastCheckData >= CheckDataEvery
  {
  }

  /**
   * time.sleep refuses a negative duration: sleep_for is non-negative
   * exactly when neither deadline has already been passed.
   */
  lemma SleepForNonNegative(now: real, lastCheckMem: real, lastCheckData: real)
    ensures SleepFor(now, lastCheckMem, lastCheckData) >= 0.0 <==>
              now - lastCheckMem <= CheckMemoryEvery && now - lastCheckData <= CheckDataEvery
  {
  }

  /** What one pass through the loop of run_once does once the sleep is over. */
  datatype Branch =
    | Reallocate(bits: nat)            // UPDATE_NO_CHECK: update_array, the period ends
    | CheckThenReallocate(bits: nat)   // UPDATE_WITH_CHECK: check_data, update_array, the period ends
    | CheckOnly                        // the data deadline: check_data, the period ends
    | Continue(lastCheckMem: real)     // the loop goes on with this last_check_mem

  /**
   * The branch run_once takes at clock value `now`: the memory check first,
   * then the data check (main.py:140-159). The loop goes on exactly when the
   * data check is not due and the memory check is either not due or finds
   * the size good enough; only a due memory check moves last_check_mem, and
   * then to the current time. A due data check with no reallocation asked
   * is a plain scan that keeps the arena.
   */
  function Plan(forceReinit: bool, dataBits: nat, freeBytes: nat,
                lastCheckMem: real, lastCheckData: real, now: real): (b: Branch)
    ensures var memoryDue := now - lastCheckMem >= CheckMemoryEvery;
            var fitting := !forceReinit && CompareSizes(dataBits, 8 * MemoryToUse(freeBytes, dataBits)) == NoUpdate;
            b.Continue? <==> now - lastCheckData < CheckDataEvery && (!memoryDue || fitting)
    ensures var memoryDue := now - lastCheckMem >= CheckMemoryEvery;
            var fitting := !forceReinit && CompareSizes(dataBits, 8 * MemoryToUse(freeBytes, dataBits)) == NoUpdate;
            b.CheckOnly? <==> now - lastCheckData >= CheckDataEvery && (!memoryDue || fitting)
    ensures b.Continue? ==> b.lastCheckMem == if now - lastCheckMem >= CheckMemoryEvery then now else lastCheckMem
    ensures var useBits := 8 * MemoryToUse(freeBytes, dataBits);
            var should := if forceReinit then UpdateNoCheck else CompareSizes(dataBits, useBits);
            now - lastCheckMem >= CheckMemoryEvery ==>
              (should == UpdateNoCheck ==> b == Reallocate(useBits)) &&
              (should == UpdateWithCheck ==> b == CheckThenReallocate(useBits))
  {
    var memoryDue := now - lastCheckMem >= CheckMemoryEvery;
    var useBits := 8 * MemoryToUse(freeBytes, dataBits);
    var should := if forceReinit then UpdateNoCheck else CompareSizes(dataBits, useBits);
    if memoryDue && should == UpdateNoCheck then Reallocate(useBits)
    else if memoryDue && should == UpdateWithCheck then CheckThenReallocate(useBits)
    else if now - lastCheckData >= CheckDataEvery then CheckOnly
    else Continue(if memoryDue then now else lastCheckMem)
  }

  /**
   * A pending force_reinit reallocates at the next memory check to the
   * current target, whatever the sizes and whether or not a scan is due.
   */
  lemma ForcedReinitReallocates(dataBits: nat, freeBytes: nat, lastCheckMem: real, lastCheckData: real, now: real)
    requires now - lastCheckMem >= CheckMemoryEvery
    ensures Plan(true, dataBits, freeBytes, lastCheckMem, lastCheckData, now)
            == Reallocate(8 * MemoryToUse(freeBytes, dataBits))
  {
  }

  /**
   * The memory check wins over a due data check: when it asks for a new
   * size, the arena is reallocated and the scan alone is not run.
   */
  lemma MemoryCheckFirst(forceReinit: bool, dataBits: nat, freeBytes: nat,
                         lastCheckMem: real, lastCheckData: real, now: real)
    requires now - lastCheckMem >= CheckMemoryEvery
    requires forceReinit || CompareSizes(dataBits, 8 * MemoryToUse(freeBytes, dataBits)) != NoUpdate
    ensures var b := Plan(forceReinit, dataBits, freeBytes, lastCheckMem, lastCheckData, now);
            (b.Reallocate? || b.CheckThenReallocate?) && b.bits == 8 * MemoryToUse(freeBytes, dataBits)
  {
  }

  /**
   * A due data check always ends the period, and it takes a checkpoint
   * unless the memory check reallocated without one.
   */
  lemma DueDataCheckEndsPeriod(forceReinit: bool, dataBits: nat, freeBytes: nat,
                               lastCheckMem: real, lastCheckData: real, now: real)
    requires now - lastCheckData >= CheckDataEvery
    ensures var b := Plan(forceReinit, dataBits, freeBytes, lastCheckMem, lastCheckData, now);
            b.CheckOnly? || b.CheckThenReallocate? || b.Reallocate?
    ensures var b := Plan(forceReinit, dataBits, freeBytes, lastCheckMem, lastCheckData, now);
            b.Reallocate? <==>
              now - lastCheckMem >= CheckMemoryEvery &&
              (forceReinit || CompareSizes(dataBits, 8 * MemoryToUse(freeBytes, dataBits)) == UpdateNoCheck)
  {
  }

  /**
   * When the loop goes on at clock value `now`, the next sleep_for computed
   * at that same value is positive: no deadline is left overdue.
   */
  lemma ContinueSleepsForward(forceReinit: bool, dataBits: nat, freeBytes: nat,
                              lastCheckMem: real, lastCheckData: real, now: real)
    requires Plan(forceReinit, dataBits, freeBytes, lastCheckMem, lastCheckData, now).Continue?
    ensures SleepFor(now, Plan(forceReinit, dataBits, freeBytes, lastCheckMem, lastCheckData, now).lastCheckMem,
                     lastCheckData) > 0.0
  {
  }

  /**
   * Successive passes through run_once's loop. The k-th pass wakes delays[k]
   * after the nearer deadline (time.sleep sleeps at least what it is asked,
   * the wall clock is taken not to step backwards, and time spent in a pass
   * only moves the next wake-up later) and sees
   * frees[k] free bytes on the host. The sequence stops at the first branch
   * that ends the period, or when the readings run out. The flag and the
   * arena size cannot change while the loop goes on.
   */
  ghost function Period(forceReinit: bool, dataBits: nat, frees: seq<nat>, delays: seq<real>,
                        startAt: real, lastCheckMem: real, now: real): (r: seq<Branch>)
    ensures |r| <= |frees| && |r| <= |delays|
    ensures |frees| > 0 && |delays| > 0 ==> |r| > 0
    ensures forall i :: 0 <= i < |r| - 1 ==> r[i].Continue?
    ensures 0 < |r| && r[|r| - 1].Continue? ==> |r| == |frees| || |r| == |delays|
    ensures 0 < |r| ==> r[0] == Plan(forceReinit, dataBits, frees[0], lastCheckMem, startAt,
                                      now + SleepFor(now, lastCheckMem, startAt) + delays[0])
    decreases |frees|
  {
    if |frees| == 0 || |delays| == 0 then []
    else
      var wake := now + SleepFor(now, lastCheckMem, startAt) + delays[0];
      var b := Plan(forceReinit, dataBits, frees[0], lastCheckMem, startAt, wake);
      if b.Continue? then [b] + Period(forceReinit, dataBits, frees[1..], delays[1..], startAt, b.lastCheckMem, wake)
      else [b]
  }

  /**
   * When the last memory check of a period happened k or more whole seconds
   * after its start, the period ends within 10 - k further wake-ups.
   */
  lemma {:induction false} PeriodEndsFrom(forceReinit: bool, dataBits: nat, frees: seq<nat>, delays: seq<real>,
                                          startAt: real, lastCheckMem: real, k: nat)
    requires k < 10 && |frees| >= 10 - k && |delays| >= 10 - k
    requires forall i :: 0 <= i < |delays| ==> delays[i] >= 0.0
    requires lastCheckMem >= startAt + k as real
    ensures var p := Period(forceReinit, dataBits, frees, delays, startAt, lastCheckMem, lastCheckMem);
            0 < |p| <= 10 - k && !p[|p| - 1].Continue?
    decreases 10 - k
  {
    var wake := lastCheckMem + SleepFor(lastCheckMem, lastCheckMem, startAt) + delays[0];
    var b := Plan(forceReinit, dataBits, frees[0], lastCheckMem, startAt, wake);
    if b.Continue? {
      assert wake - startAt < CheckDataEvery;
      assert wake >= lastCheckMem + CheckMemoryEvery;
      assert b.lastCheckMem == wake;
      assert k + 1 < 10;
      PeriodEndsFrom(forceReinit, dataBits, frees[1..], delays[1..], startAt, wake, k + 1);
    }
  }

  /**
   * An exposure period always ends, after at most ten wake-ups, however late
   * each sleep returns and whatever free memory the host reports.
   */
  lemma PeriodEnds(forceReinit: bool, dataBits: nat, frees: seq<nat>, delays: seq<real>, startAt: real)
    requires |frees| >= 10 && |delays| >= 10
    requires forall i :: 0 <= i < |delays| ==> delays[i] >= 0.0
    ensures var p := Period(forceReinit, dataBits, frees, delays, startAt, startAt, startAt);
            0 < |p| <= 10 && !p[|p| - 1].Continue?
  {
    PeriodEndsFrom(forceReinit, dataBits, frees, delays, startAt, startAt, 0);
  }

  /**
   * The detector: `data` is the arena of bits, `forceReinit` asks the next
   * sizing decision to reallocate unconditionally, and `statFile` stands for
   * the contents of stat.json (None while the file does not exist).
   */
  class SEUDetector {
    var data: array<bool>
    var forceReinit: bool
    var statFile: Option<TStat>

    /** __init__: an empty arena and no pending reinitialisation. */
    constructor (file: Option<TStat>)
      ensures fresh(data) && data.Length == 0
      ensures !forceReinit && statFile == file
    {
      data := new bool[0];
      forceReinit := false;
      statFile := file;
    }

    /**
     * should_update_array: a pending force_reinit is consumed and wins;
     * otherwise the sizes decide. The flag is clear afterwards either way.
     */
    method ShouldUpdateArray(useBits: nat) returns (should: Decision)
      modifies this`forceReinit
      ensures !forceReinit
      ensures old(forceReinit) ==> should == UpdateNoCheck
      ensures !old(forceReinit) ==> should == CompareSizes(data.Length, useBits)
    {
      if forceReinit {
        forceReinit := false;
        return UpdateNoCheck;
      }
      should := CompareSizes(data.Length, useBits);
    }

    /** load_statistics: the stored record, or all zeros when there is no file. */
    method LoadStatistics() returns (stat: StatDict)
      ensures fresh(stat)
      ensures stat.Value() == if statFile.Some? then statFile.value else ZeroStats
    {
      match statFile
      case Some(s) => stat := new StatDict(s);
      case None => stat := new StatDict(ZeroStats);
    }

    /** dump_statistics: the file is overwritten with the current record. */
    method DumpStatistics(stat: StatDict)
      modifies this`statFile
      ensures statFile == Some(stat.Value())
    {
      statFile := Some(stat.Value());
    }

    /** update_array: the old arena is dropped for a zero-filled one of `useBits` bits. */
    method UpdateArray(useBits: nat)
      modifies this`data
      ensures fresh(data) && data.Length == useBits
      ensures forall i :: 0 <= i < data.Length ==> !data[i]
      ensures FirstOne(data[..]) == None
    {
      data := new bool[useBits](_ => false);
    }

    /** The search of check_data for the first bit set to one; the arena is only read. */
    method FindOne() returns (index: Option<nat>)
      ensures index == FirstOne(data[..])
      ensures index.Some? ==> index.value < data.Length && data[index.value]
      ensures index.None? ==> forall j :: 0 <= j < data.Length ==> !data[j]
    {
      var i := 0;
      while i < data.Length
        invariant i <= data.Length
        invariant forall j :: 0 <= j < i ==> !data[j]
      {
        if data[i] {
          return Some(i);
        }
        i := i + 1;
      }
      return None;
    }

    /**
     * check_data: the exposure since `startAt` is added, the arena is
     * scanned, an upset counts one case and arms force_reinit, and the
     * record is written out.
     */
    method CheckData(stat: StatDict, startAt: real, now: real)
      modifies this`forceReinit, this`statFile, stat
      ensures stat.Value() == Checkpoint(old(stat.Value()), data.Length, now - startAt, FirstOne(data[..]).Some?)
      ensures forceReinit == (old(forceReinit) || FirstOne(data[..]).Some?)
      ensures statFile == Some(stat.Value())
      ensures data == old(data) && data[..] == old(data[..])
    {
      var period := now - startAt;
      stat.AddExposure(data.Length, period);
      var index := FindOne();
      if index.Some? {
        stat.AddCase();
        forceReinit := true;
      }
      DumpStatistics(stat);
    }

    /**
     * The start of run: the statistics are loaded and the arena gets its
     * first size. The endless loop of run_once that follows is not modelled.
     */
    method Start(freeBytes: nat) returns (stat: StatDict)
      modifies this`data
      ensures fresh(stat)
      ensures stat.Value() == if statFile.Some? then statFile.value else ZeroStats
      ensures fresh(data) && data.Length == 8 * MemoryToUse(freeBytes, old(data.Length))
      ensures FirstOne(data[..]) == None
    {
      stat := LoadStatistics();
      UpdateArray(MemoryToUse(freeBytes, data.Length) * 8);
    }

    /**
     * One pass through the loop of run_once, woken at clock value `now` with
     * `freeBytes` free on the host. `startAt` began the exposure period; as
     * run_once never reassigns last_check_data, it is also the last data
     * check. Every clock reading in the pass is `now`. The result is the
     * branch taken.
     */
    method RunOnceStep(stat: StatDict, startAt: real, lastCheckMem: real,
                       now: real, freeBytes: nat) returns (branch: Branch)
      modifies this, stat
      ensures branch == Plan(old(forceReinit), old(data.Length), freeBytes, lastCheckMem, startAt, now)
      ensures branch.Reallocate? || branch.CheckThenReallocate? ==>
                fresh(data) && data.Length == branch.bits && FirstOne(data[..]) == None
      ensures branch.CheckOnly? || branch.Continue? ==> data == old(data) && data[..] == old(data[..])
      ensures var checked := branch.CheckThenReallocate? || branch.CheckOnly?;
              stat.Value() == if checked
                then Checkpoint(old(stat.Value()), old(data.Length), now - startAt, FirstOne(old(data[..])).Some?)
                else old(stat.Value())
      ensures var checked := branch.CheckThenReallocate? || branch.CheckOnly?;
              statFile == if checked then Some(stat.Value()) else old(statFile)
      ensures var checked := branch.CheckThenReallocate? || branch.CheckOnly?;
              forceReinit == ((old(forceReinit) && now - lastCheckMem < CheckMemoryEvery) ||
                              (checked && FirstOne(old(data[..])).Some?))
      ensures Consistent(old(stat.Value())) ==> Consistent(stat.Value())
      ensures stat.SEUCases >= old(stat.SEUCases)
    {
      var lastMem := lastCheckMem;
      if now - lastMem >= CheckMemoryEvery {
        var useBytes := MemoryToUse(freeBytes, data.Length);
        var useBits := useBytes * 8;
        var should := ShouldUpdateArray(useBits);
        match should
        case UpdateNoCheck =>
          UpdateArray(useBits);
          return Reallocate(useBits);
        case UpdateWithCheck =>
          CheckData(stat, startAt, now);
          UpdateArray(useBits);
          return CheckThenReallocate(useBits);
        case NoUpdate =>
          lastMem := now;
      }
      if now - startAt >= CheckDataEvery {
        CheckData(stat, startAt, now);
        return CheckOnly;
      }
      return Continue(lastMem);
    }
  }

  /**
   * A bit that flips between the first allocation and the first scan is
   * counted once, and the next memory check reallocates even though free
   * memory has not changed.
   */
  method UpsetScenario(freeBytes: nat, flipped: nat, now: real) returns (cases: int, next: Decision)
    requires flipped < 8 * MemoryToUse(freeBytes, 0)
    ensures cases == 1 && next == UpdateNoCheck
  {
    var detector := new SEUDetector(None);
    var stat := detector.Start(freeBytes);
    detector.data[flipped] := true;
    detector.CheckData(stat, 0.0, now);
    assert detector.forceReinit;
    cases := stat.SEUCases;
    next := detector.ShouldUpdateArray(8 * MemoryToUse(freeBytes, detector.data.Length));
  }
}
