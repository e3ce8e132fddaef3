/**
 * The statistics ledger: the TStat record of main.py, the in-place dict the
 * detector updates at every checkpoint (check_data), and the arithmetic of a
 * checkpoint. Floating-point fields are modelled as exact reals.
 */
module Statistics {

  /** TStat: the five fields of the statistics dict and of stat.json. */
  datatype TStat = TStat(bitSeconds: real, GbitHours: real, SEUCases: int, runSeconds: real, runHours: real)

  const SecondsPerHour: real := 3600.0
  const BitsPerGbit: real := 1000000000.0

  /** The record load_statistics returns when stat.json does not exist. */
  const ZeroStats: TStat := TStat(0.0, 0.0, 0, 0.0, 0.0)

  /** The derived fields agree with the accumulated ones. */
  ghost predicate Consistent(s: TStat)
  {
    s.GbitHours == s.bitSeconds / SecondsPerHour / BitsPerGbit && s.runHours == s.runSeconds / SecondsPerHour
  }

  /**
   * The exposure part of check_data: `period` seconds of an arena of
   * `dataBits` bits are added, and the hour fields are recomputed.
   */
  function Accumulate(s: TStat, dataBits: nat, period: real): (r: TStat)
    ensures Consistent(r)
    ensures r.SEUCases == s.SEUCases
    ensures r.bitSeconds - s.bitSeconds == dataBits as real * period
    ensures r.runSeconds - s.runSeconds == period
  {
    var bitSeconds := s.bitSeconds + dataBits as real * period;
    var runSeconds := s.runSeconds + period;
    TStat(bitSeconds, bitSeconds / SecondsPerHour / BitsPerGbit, s.SEUCases, runSeconds, runSeconds / SecondsPerHour)
  }

  /** A whole checkpoint: the exposure, then one more case when the scan found a one. */
  function Checkpoint(s: TStat, dataBits: nat, period: real, upset: bool): (r: TStat)
    ensures Consistent(r)
    ensures r.SEUCases == if upset then s.SEUCases + 1 else s.SEUCases
    ensures r.bitSeconds - s.bitSeconds == dataBits as real * period
    ensures r.runSeconds - s.runSeconds == period
  {
    var a := Accumulate(s, dataBits, period);
    if upset then a.(SEUCases := a.SEUCases + 1) else a
  }

  /** The record with no history is consistent. */
  lemma ZeroStatsConsistent()
    ensures Consistent(ZeroStats)
  {
  }

  /**
   * Two checkpoints of t1 and t2 seconds at the same arena length leave the
   * same record as a single checkpoint of t1 + t2 seconds.
   */
  lemma CheckpointsCompose(s: TStat, dataBits: nat, t1: real, t2: real, upset1: bool, upset2: bool)
    ensures var twice := Checkpoint(Checkpoint(s, dataBits, t1, upset1), dataBits, t2, upset2);
            var once := Checkpoint(s, dataBits, t1 + t2, upset1);
            twice == if upset2 then once.(SEUCases := once.SEUCases + 1) else once
  {
  }

  /** Exposure only grows: a positive period raises runSeconds, and bitSeconds unless the arena is empty. */
  lemma CheckpointGrows(s: TStat, dataBits: nat, period: real, upset: bool)
    requires period > 0.0
    ensures Checkpoint(s, dataBits, period, upset).runSeconds > s.runSeconds
    ensures Checkpoint(s, dataBits, period, upset).bitSeconds >= s.bitSeconds
    ensures dataBits > 0 ==> Checkpoint(s, dataBits, period, upset).bitSeconds > s.bitSeconds
    ensures Checkpoint(s, dataBits, period, upset).SEUCases >= s.SEUCases
  {
  }

  /** Checkpoints with clean scans, one per period, at a constant arena length. */
  function CleanCheckpoints(s: TStat, dataBits: nat, periods: seq<real>): (r: TStat)
    decreases |periods|
  {
    if |periods| == 0 then s
    else CleanCheckpoints(Checkpoint(s, dataBits, periods[0], false), dataBits, periods[1..])
  }

  function Sum(xs: seq<real>): real
  {
    if |xs| == 0 then 0.0 else xs[0] + Sum(xs[1..])
  }

  /**
   * Any number of clean checkpoints at one arena length add up to a single
   * checkpoint over the total time, and the upset count never moves.
   */
  lemma {:induction false} CleanCheckpointsAddUp(s: TStat, dataBits: nat, periods: seq<real>)
    requires |periods| > 0
    ensures CleanCheckpoints(s, dataBits, periods) == Checkpoint(s, dataBits, Sum(periods), false)
    ensures CleanCheckpoints(s, dataBits, periods).SEUCases == s.SEUCases
    decreases |periods|
  {
    if |periods| > 1 {
      var first := Checkpoint(s, dataBits, periods[0], false);
      CleanCheckpointsAddUp(first, dataBits, periods[1..]);
      CheckpointsCompose(s, dataBits, periods[0], Sum(periods[1..]), false, false);
    } else {
      assert periods[1..] == [];
    }
  }

  /**
   * The statistics dict as the detector holds it: one object, passed to
   * every run_once and check_data, whose fields are updated in place.
   */
  class StatDict {
    var bitSeconds: real
    var GbitHours: real
    var SEUCases: int
    var runSeconds: real
    var runHours: real

    /** The five fields as a record (what json.dump writes). */
    function Value(): TStat
      reads this
    {
      TStat(bitSeconds, GbitHours, SEUCases, runSeconds, runHours)
    }

    /** A dict built from a record (what load_statistics returns). */
    constructor (s: TStat)
      ensures Value() == s
    {
      bitSeconds, GbitHours, SEUCases, runSeconds, runHours :=
        s.bitSeconds, s.GbitHours, s.SEUCases, s.runSeconds, s.runHours;
    }

    /** The exposure updates of check_data (main.py:183-186), field by field. */
    method AddExposure(dataBits: nat, period: real)
      modifies this
      ensures Value() == Accumulate(old(Value()), dataBits, period)
    {
      bitSeconds := bitSeconds + dataBits as real * period;
      GbitHours := bitSeconds / SecondsPerHour / BitsPerGbit;
      runSeconds := runSeconds + period;
      runHours := runSeconds / SecondsPerHour;
    }

    /** One more detected upset (main.py:198). */
    method AddCase()
      modifies this
      ensures Value() == old(Value()).(SEUCases := old(SEUCases) + 1)
    {
      SEUCases := SEUCases + 1;
    }
  }
}
