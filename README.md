# Single-event-upset detector: a Dafny model

The detector keeps a large buffer of bits, all zero, in ordinary process
memory. It scans the buffer now and then for a bit that has flipped to one,
which is a single-event upset (SEU). It sizes the buffer from the host's
free memory and keeps exposure statistics in `stat.json`: bit-seconds,
gigabit-hours, run time and the number of upsets found.

This project models the `SEUDetector` class of `main.py`:

- **Sizing policy** (`SizingPolicy`). `get_memory_to_use` is the function
  `MemoryToUse`. `should_update_array` is the method
  `SEUDetector.ShouldUpdateArray`, which consumes `force_reinit` and then asks
  `CompareSizes`. The constants `NO_UPDATE`, `UPDATE_NO_CHECK` and
  `UPDATE_WITH_CHECK` become the datatype `Decision`.
- **Bit arena** (`BitArena`, plus `SEUDetector.data`). The arena is an
  `array<bool>` field. `update_array` replaces it with a fresh zero-filled
  array. The search `data.index(one)` is the method `FindOne`. It is
  specified by `FirstOne`, which returns `None` where the source raises
  `ValueError`.
- **Statistics ledger** (`Statistics`). The `TStat` record is a datatype.
  The dict that `run` creates once and then updates in place is the class
  `StatDict`. `Checkpoint` gives the arithmetic of `check_data`, and
  `SEUDetector.CheckData` performs it field by field. `stat.json` is the field
  `SEUDetector.statFile`: `None` when the file does not exist, otherwise the
  last record written.
- **Scheduler** (`Detector`). `SleepFor` is `sleep_for`. `Plan` is the branch
  that one pass through the loop of `run_once` takes. `RunOnceStep` is that
  pass as a method on the detector. `Period` chains passes whose sleeps may
  return late, which shows that every exposure period ends.

Python's floats are exact `real`s here, and its integers are `nat`/`int`.
`int((free + len/8) * 0.75)` becomes `((8*free + len) * 3) / 32`; the
contract of `MemoryToUse` proves this is the floor of the exact product. The
test `abs(delta)/min(...) > 0.2` is kept as a ratio of reals, and
`CompareSizes` states it again over integers.

Three consequences of the code worth knowing:

- A pass in which the memory check asks for `UPDATE_NO_CHECK` reallocates
  with no checkpoint, even when the data check is due too. The scan and the
  exposure of that period are then dropped (`DueDataCheckEndsPeriod`,
  `RunOnceStep`). The same holds for a shrink to less than five sixths of
  the current size.
- Suppose the host keeps reporting the same free memory after the first
  allocation. The arena's own bytes count as available, so the target grows
  and a second allocation follows. The target is stable when the reported
  free memory drops by the arena's growth in bytes (`TargetIsStable`). More
  generally, `CompareSizes` keeps the arena while the new target is between
  five sixths and six fifths of the old one: the change is measured against
  the smaller of the two sizes.
- When a checkpoint that precedes an `UPDATE_WITH_CHECK` reallocation finds
  an upset, `force_reinit` stays set even though the arena was just zeroed.
  The next memory check then reallocates again, with no checkpoint.

## Model

| member | source | states |
|---|---|---|
| `SizingPolicy.MemoryToUse` | main.py:77-84 | the target in bytes is the floor of 0.75 × (free bytes + arena bits / 8), computed exactly |
| `SizingPolicy.MemoryToUseBounded` | main.py:79-82 | the target never exceeds free memory plus the arena's own bytes, and is within one byte of three quarters of it |
| `SizingPolicy.TargetIsStable` | main.py:79-82 | if free memory drops by the arena's growth in bytes (the new target minus the bytes the arena already holds), the target stays the same and the size comparison keeps the arena |
| `SizingPolicy.RatioExceedsThreshold` | main.py:98-99 | `abs(delta)/min > 0.2` holds exactly when `5*abs(delta) > min` |
| `SizingPolicy.CompareSizes` | main.py:91-105 | with the flag clear: growth to more than six fifths of the current size gives UPDATE_WITH_CHECK; an empty/non-empty transition or a shrink to less than five sixths gives UPDATE_NO_CHECK; otherwise NO_UPDATE, both directions of each |
| `SizingPolicy.SizingExamples` | main.py:91-105 | (0,1000) and (1000,0) give UPDATE_NO_CHECK, (0,0) NO_UPDATE, 1000→1300 UPDATE_WITH_CHECK, 1000→700 UPDATE_NO_CHECK, 1000→1100 NO_UPDATE; a shrink of less than a fifth, 1000→810, still gives UPDATE_NO_CHECK; at the boundaries 1000→834 and 1000→1200 keep the arena while 1000→833 gives UPDATE_NO_CHECK and 1000→1201 UPDATE_WITH_CHECK; 1 GB free and an empty arena target 750 000 000 bytes |
| `SizingPolicy.SameSizeKeeps` | main.py:97-105 | an arena already at the desired size is never reallocated by the comparison |
| `BitArena.FirstOne` | main.py:188-199 | the result is the index of a set bit with only zeros before it, and it is None exactly when every bit is zero |
| `BitArena.ZeroedHasNoOne` | main.py:169-172 | a zero-filled arena of any length, zero included, has no set bit |
| `Statistics.Accumulate` | main.py:183-186 | bitSeconds grows by length × period and runSeconds by period; GbitHours and runHours agree with them afterwards; SEUCases is untouched |
| `Statistics.Checkpoint` | main.py:182-199 | as Accumulate, and SEUCases grows by one exactly when the scan found an upset |
| `Statistics.ZeroStatsConsistent` | main.py:112-118 | the all-zero record used when stat.json is missing has consistent hour fields |
| `Statistics.CheckpointsCompose` | main.py:182-186 | two checkpoints of t1 and t2 at one length equal one checkpoint of t1 + t2, apart from the upset count |
| `Statistics.CheckpointGrows` | main.py:183-186 | a positive period strictly raises runSeconds; bitSeconds never falls and rises for a non-empty arena; SEUCases never falls |
| `Statistics.CleanCheckpointsAddUp` | main.py:180-199 | any non-empty run of clean checkpoints at one length equals one checkpoint over the summed time, and SEUCases stays the same |
| `Statistics.StatDict.constructor` | main.py:110-118 | the dict holds exactly the five fields of the record it is built from |
| `Statistics.StatDict.AddExposure` | main.py:183-186 | the in-place field updates leave the dict equal to Accumulate of its old value |
| `Statistics.StatDict.AddCase` | main.py:198 | SEUCases grows by one and no other field changes |
| `Detector.SleepFor` | main.py:136-137 | sleep_for is at most the time left until either deadline and equals one of them: the time to the nearer deadline |
| `Detector.Plan` | main.py:140-159 | the loop goes on exactly when the data check is not due and the memory check is not due or finds the size fitting; only a due memory check moves last_check_mem, and it moves it to now; a due data check ends in a plain scan that keeps the arena (CheckOnly) exactly when the memory check is not due or finds the size fitting; a due memory check that decides UPDATE_NO_CHECK (or finds force_reinit set) reallocates to the target without a checkpoint, and one that decides UPDATE_WITH_CHECK checkpoints then reallocates, whatever the data deadline |
| `Detector.Period` | main.py:135-159 | successive passes of run_once's loop: each wake-up comes at the nearer deadline plus a non-negative delay and the first pass is Plan at that time; free memory is read fresh on every pass; every branch but the last continues, and the chain stops at the first branch that ends the period or when the readings run out |
| `Detector.SleepReachesNearerDeadline` | main.py:136-140 | sleeping exactly sleep_for never passes either deadline, and at least one check is due on waking |
| `Detector.SleepForNonNegative` | main.py:136-138 | sleep_for is non-negative (a valid time.sleep argument) exactly when no deadline is already overdue |
| `Detector.ForcedReinitReallocates` | main.py:140-146 | once the memory check is due, a pending force_reinit reallocates to the current target whatever the sizes and the data deadline |
| `Detector.MemoryCheckFirst` | main.py:140-150 | a due memory check that asks for a new size reallocates before any data check |
| `Detector.DueDataCheckEndsPeriod` | main.py:140-159 | a due data check always ends the period; it ends without a checkpoint exactly when a due memory check chose UPDATE_NO_CHECK |
| `Detector.ContinueSleepsForward` | main.py:136-153 | after a pass that continues, the next sleep_for is positive |
| `Detector.PeriodEndsFrom` | main.py:135-159 | once the last memory check is at least k whole seconds into the period, the period ends within 10 - k wake-ups, however late each sleep returns |
| `Detector.PeriodEnds` | main.py:131-159 | every run_once period ends within ten wake-ups, whatever free memory the host reports and however late each sleep returns |
| `Detector.SEUDetector.constructor` | main.py:73-75 | a new detector has an empty arena and force_reinit clear |
| `Detector.SEUDetector.ShouldUpdateArray` | main.py:86-105 | a pending force_reinit gives UPDATE_NO_CHECK; otherwise the result is CompareSizes of the sizes; force_reinit is clear afterwards in both cases |
| `Detector.SEUDetector.LoadStatistics` | main.py:107-118 | a fresh dict holding the stored record, or all zeros when there is no file |
| `Detector.SEUDetector.DumpStatistics` | main.py:120-122 | the stored record becomes exactly the dict's five fields, so a later load gives them back |
| `Detector.SEUDetector.UpdateArray` | main.py:161-172 | the arena becomes a fresh array of exactly the requested length (0 allowed), every bit zero, so a scan finds nothing |
| `Detector.SEUDetector.FindOne` | main.py:188-199 | returns FirstOne of the arena: the first set bit, or None when all bits are zero; the arena is only read |
| `Detector.SEUDetector.CheckData` | main.py:180-201 | the dict becomes Checkpoint(old, length, now - start_at, upset found); force_reinit is set if and only if an upset was found and is otherwise unchanged; the record is written to the file; the arena is unchanged |
| `Detector.SEUDetector.Start` | main.py:124-126 | run loads the statistics and allocates the arena to eight times the memory target, all zero |
| `Detector.SEUDetector.RunOnceStep` | main.py:135-159 | the branch taken is Plan of the old state; reallocating branches leave a fresh zeroed arena of the target size; stats and file change only on a checkpoint, which precedes any reallocation; force_reinit is consumed by a due memory check and armed by an upset; stats stay consistent and SEUCases never falls |
| `Detector.UpsetScenario` | main.py:180-201 | a bit flipped after the first allocation is counted exactly once, and the next sizing decision is UPDATE_NO_CHECK with free memory unchanged |

## Left out

- Logging is not modelled: `init_logging`, the `measure` timing context and every `logger` call produce diagnostics only.
- `get_free_memory` (psutil) is not modelled; the host's free memory in bytes is the parameter `freeBytes`.
- The wall clock is not modelled: `time.time()` readings are parameters (`now`, `startAt`). Real sleeping cannot be modelled, so `time.sleep` is described only through `SleepFor` and its lemmas.
- Detector.SleepFor: the two `time.time()` readings at main.py:136-137 are taken as one value `now`; the time between them is ignored.
- Detector.Period: the wall clock read by `time.time()` is assumed not to step backwards during a sleep; if it does, neither check may be due on waking and the ten-wake-up bound of `PeriodEnds` need not hold.
- Detector.SEUDetector.RunOnceStep: all clock readings after the sleep are the single value `now`. The model ignores the time that passes inside the pass, including time spent allocating and scanning.
- Detector.SEUDetector.RunOnceStep: the `ValueError` that `time.sleep` raises for a negative duration is not modelled. `SleepForNonNegative` states when the duration would be negative. `ContinueSleepsForward` shows this cannot happen while the pass takes no time.
- The endless loops of `run` and `run_once` are not modelled as loops. `Start` covers what `run` does before its loop, `RunOnceStep` covers one pass, and `Period` chains passes assuming each wake-up comes at or after the nearer deadline, which holds because `time.sleep` never returns early and the wall clock does not step backwards.
- JSON serialisation in `load_statistics`/`dump_statistics` is not modelled: `stat.json` is the value `statFile`, and a stored record reads back unchanged.
- Statistics.Checkpoint: float rounding in the `+=` sums and the hour conversions (main.py:183-186) is not modelled; the arithmetic is exact.
- Statistics.CheckpointsCompose: two checkpoints equal one over the summed period only with exact arithmetic. In the source, float rounding in the `+=` sums at main.py:183 and main.py:185 can make them differ slightly. The same holds for Statistics.CleanCheckpointsAddUp.
- SizingPolicy.MemoryToUse: the float product by the 0.75 rate is taken as exact; for very large byte counts the source's float result can differ from the exact floor.
- SizingPolicy.CompareSizes: the float division in the 0.2 ratio test is taken as exact; a ratio that rounds across 0.2 may decide differently in the source.
- The `raise ValueError(should)` branch of `run_once` cannot be reached here, because `Decision` has exactly three values.
- Allocation failure in `bitarray(use_bits)` is not modelled (`MemoryError` reaching the top level): Dafny allocation does not fail.
- The top-level `KeyboardInterrupt` and exception handling is not modelled; it only logs and exits.
- The commented-out `random_mess` is not modelled; it is not code. A physical fault is modelled as an outside write to `data`, as in `UpsetScenario`.
- `MIN_INCREASE_DELAY` and `STATISTICS_FILENAME` are not modelled: the first is never used, and the second only names the file that `statFile` stands for.
