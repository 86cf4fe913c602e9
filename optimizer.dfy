/**
 * The compression-level optimizer: picks the level with the best average benefit per
 * object, shifts it by the container's relative CPU speed, and now and then explores a
 * neighbouring level at a rate that decays as the record's version count grows.
 * The draws of `random.random()` are parameters.
 */
module CompressionOptimizer {
  import opened Wrappers

  const MinLevel: int := 1
  const MaxLevel: int := 22
  /** Trials a level needs before its average is trusted. */
  const MinTrials: int := 10

  /** One level's statistics: trials, objects (may be absent) and the summed benefit score. */
  datatype LevelStat = LevelStat(trials: int, objects: Option<int>, sumBenefit: real)

  /** The level statistics of a settings record, in the record's iteration order. */
  type LevelTable = seq<(int, LevelStat)>

  predicate IsCandidate(st: LevelStat) {
    st.trials >= MinTrials
  }

  /** The divisor of the average: `objects`, falling back to `trials`. */
  function ObjectCount(st: LevelStat): int {
    st.objects.GetOr(st.trials)
  }

  function AverageBenefit(st: LevelStat): real
    requires ObjectCount(st) != 0
  {
    st.sumBenefit / (ObjectCount(st) as real)
  }

  /** No candidate would divide by zero. */
  predicate Divisible(stats: LevelTable) {
    forall i :: 0 <= i < |stats| && IsCandidate(stats[i].1) ==> ObjectCount(stats[i].1) != 0
  }

  /**
   * Entry `w` wins: it is a candidate with a positive average, strictly above every
   * earlier candidate and at least every later one (ties keep the first seen).
   */
  predicate Winner(stats: LevelTable, w: int)
    requires Divisible(stats)
  {
    0 <= w < |stats| && IsCandidate(stats[w].1) && AverageBenefit(stats[w].1) > 0.0 &&
    (forall j :: 0 <= j < w && IsCandidate(stats[j].1) ==> AverageBenefit(stats[j].1) < AverageBenefit(stats[w].1)) &&
    (forall j :: 0 <= j < |stats| && IsCandidate(stats[j].1) ==> AverageBenefit(stats[j].1) <= AverageBenefit(stats[w].1))
  }

  /** No candidate has a positive average. */
  predicate NonePositive(stats: LevelTable)
    requires Divisible(stats)
  {
    forall j :: 0 <= j < |stats| && IsCandidate(stats[j].1) ==> AverageBenefit(stats[j].1) <= 0.0
  }

  /** At most one entry wins. */
  lemma WinnerUnique(stats: LevelTable, v: int, w: int)
    requires Divisible(stats) && Winner(stats, v) && Winner(stats, w)
    ensures v == w
  {
  }

  /**
   * The loop of `get_best_level` as a function: the (level, average) held after visiting
   * `stats` in order, replacing it only on a strictly greater average. None stands for the
   * ZeroDivisionError raised when a candidate has 0 objects.
   */
  function Scan(stats: LevelTable, defaultLevel: int): Option<(int, real)>
    decreases |stats|
  {
    if |stats| == 0 then Some((defaultLevel, 0.0))
    else
      var prev := Scan(stats[..|stats| - 1], defaultLevel);
      var e := stats[|stats| - 1];
      if prev.None? then None
      else if !IsCandidate(e.1) then prev
      else if ObjectCount(e.1) == 0 then None
      else if AverageBenefit(e.1) > prev.value.1 then Some((e.0, AverageBenefit(e.1)))
      else prev
  }

  /** `get_best_level`: the default for empty statistics, else the level the scan ends on. */
  function BestLevel(stats: LevelTable, defaultLevel: int): Option<int> {
    if |stats| == 0 then Some(defaultLevel)
    else
      var r := Scan(stats, defaultLevel);
      if r.None? then None else Some(r.value.0)
  }

  /**
   * The scan fails exactly when a candidate has no objects; otherwise it ends on the
   * winning entry, or on (default, 0) when no candidate has a positive average.
   */
  lemma {:induction false} ScanResult(stats: LevelTable, defaultLevel: int)
    ensures Scan(stats, defaultLevel).None? <==> !Divisible(stats)
    ensures Scan(stats, defaultLevel).Some? ==>
              (NonePositive(stats) && Scan(stats, defaultLevel).value == (defaultLevel, 0.0)) ||
              (exists w :: Winner(stats, w) && Scan(stats, defaultLevel).value == (stats[w].0, AverageBenefit(stats[w].1)))
    decreases |stats|
  {
    if |stats| > 0 {
      var n := |stats|;
      var init := stats[..n - 1];
      ScanResult(init, defaultLevel);
      assert stats == init + [stats[n - 1]];
      var prev := Scan(init, defaultLevel);
      var e := stats[n - 1];
      if prev.Some? && IsCandidate(e.1) && ObjectCount(e.1) != 0 && AverageBenefit(e.1) > prev.value.1 {
        assert Winner(stats, n - 1);
      }
    }
  }

  /** With no positive candidate the default wins; otherwise the winning entry's level. */
  lemma BestLevelResult(stats: LevelTable, defaultLevel: int)
    ensures BestLevel(stats, defaultLevel).None? <==> !Divisible(stats)
    ensures BestLevel(stats, defaultLevel).Some? && NonePositive(stats) ==>
              BestLevel(stats, defaultLevel).value == defaultLevel
    ensures BestLevel(stats, defaultLevel).Some? && !NonePositive(stats) ==>
              exists w :: Winner(stats, w) && BestLevel(stats, defaultLevel).value == stats[w].0
  {
    ScanResult(stats, defaultLevel);
    if Scan(stats, defaultLevel).Some? && !NonePositive(stats) {
      var w :| Winner(stats, w) && Scan(stats, defaultLevel).value == (stats[w].0, AverageBenefit(stats[w].1));
    }
  }

  /**
   * `get_best_level` as the source runs it: a loop keeping the best level and average.
   * It returns the winning entry's level, the default when no candidate has a positive
   * average, and None when a candidate would divide by zero.
   */
  method GetBestLevel(stats: LevelTable, defaultLevel: int) returns (best: Option<int>)
    ensures best == BestLevel(stats, defaultLevel)
    ensures best.None? <==> !Divisible(stats)
    ensures best.Some? && NonePositive(stats) ==> best.value == defaultLevel
    ensures best.Some? && !NonePositive(stats) ==>
              exists w :: Winner(stats, w) && best.value == stats[w].0
  {
    BestLevelResult(stats, defaultLevel);
    if |stats| == 0 {
      return Some(defaultLevel);
    }
    var bestLevel := defaultLevel;
    var bestAvg: real := 0.0;
    var k := 0;
    while k < |stats|
      invariant 0 <= k <= |stats|
      invariant Scan(stats[..k], defaultLevel) == Some((bestLevel, bestAvg))
    {
      var st := stats[k].1;
      assert stats[..k + 1][..k] == stats[..k];
      if st.trials >= MinTrials {
        var objects := st.objects.GetOr(st.trials);
        if objects == 0 {
          ScanPrefixFails(stats, k + 1, defaultLevel);
          return None;
        }
        var avg := st.sumBenefit / (objects as real);
        if avg > bestAvg {
          bestAvg := avg;
          bestLevel := stats[k].0;
        }
      }
      k := k + 1;
    }
    assert stats[..k] == stats;
    best := Some(bestLevel);
  }

  /** Once the scan of a prefix fails, the scan of the whole table fails. */
  lemma {:induction false} ScanPrefixFails(stats: LevelTable, k: int, defaultLevel: int)
    requires 0 <= k <= |stats| && Scan(stats[..k], defaultLevel).None?
    ensures Scan(stats, defaultLevel).None?
    decreases |stats| - k
  {
    if k < |stats| {
      assert stats[..k + 1][..k] == stats[..k];
      ScanPrefixFails(stats, k + 1, defaultLevel);
    } else {
      assert stats[..k] == stats;
    }
  }

  /**
   * `select_level_based_on_cpu`: relative speed is cpuFactor / avgCpuFactor (1.0 when the
   * average is not positive); below 0.9 the level goes up one, above 1.1 down one,
   * clamped to [MinLevel, MaxLevel].
   */
  function SelectLevelBasedOnCpu(best: int, cpuFactor: real, avgCpuFactor: real): (level: int)
    ensures avgCpuFactor <= 0.0 ==> level == best
    ensures avgCpuFactor > 0.0 && cpuFactor < 0.9 * avgCpuFactor ==> level == Min(best + 1, MaxLevel)
    ensures avgCpuFactor > 0.0 && cpuFactor > 1.1 * avgCpuFactor ==> level == Max(best - 1, MinLevel)
    ensures avgCpuFactor > 0.0 && 0.9 * avgCpuFactor <= cpuFactor <= 1.1 * avgCpuFactor ==> level == best
  {
    var relative := if avgCpuFactor <= 0.0 then 1.0 else cpuFactor / avgCpuFactor;
    RatioBelow(cpuFactor, avgCpuFactor, 0.9);
    RatioBelow(cpuFactor, avgCpuFactor, 1.1);
    if relative < 0.9 then Min(best + 1, MaxLevel)
    else if relative > 1.1 then Max(best - 1, MinLevel)
    else best
  }

  lemma RatioBelow(x: real, y: real, t: real)
    ensures y > 0.0 ==> (x / y < t <==> x < t * y) && (x / y > t <==> x > t * y)
  {
    if y > 0.0 {
      assert x == (x / y) * y;
    }
  }

  function Min(a: int, b: int): int { if a <= b then a else b }
  function Max(a: int, b: int): int { if a >= b then a else b }

  /** A CPU-adjusted level stays in range and moves at most one step. */
  lemma SelectLevelBounds(best: int, cpuFactor: real, avgCpuFactor: real)
    requires MinLevel <= best <= MaxLevel
    ensures var level := SelectLevelBasedOnCpu(best, cpuFactor, avgCpuFactor);
            MinLevel <= level <= MaxLevel && best - 1 <= level <= best + 1
  {
  }

  /** The decay factor: 2% per 1000 versions, at most 50%. */
  function DecayFactor(version: int): real {
    var linear := (version as real) / 1000.0 * 0.02;
    if 0.5 <= linear then 0.5 else linear
  }

  /** The exploration rate: 25% reduced by the decay factor. */
  function ExplorationRate(version: int): real {
    0.25 * (1.0 - DecayFactor(version))
  }

  /** For a non-negative version count the rate lies in [0.125, 0.25]. */
  lemma ExplorationRateBounds(version: int)
    requires version >= 0
    ensures 0.125 <= ExplorationRate(version) <= 0.25
  {
  }

  /** The rate never increases as the version count grows. */
  lemma ExplorationRateMonotone(v1: int, v2: int)
    requires v1 <= v2
    ensures ExplorationRate(v2) <= ExplorationRate(v1)
  {
  }

  /**
   * `explore_adjacent_level`: with first draw `r` and direction draw `d`, r below 60% of
   * the rate moves one level, below 85% two, below the rate three; d < 0.5 moves down.
   * Otherwise the chosen level is kept.
   */
  function ExploreAdjacentLevel(chosen: int, version: int, r: real, d: real): (level: int)
    ensures r >= ExplorationRate(version) ==> level == chosen
    ensures r < ExplorationRate(version) ==>
              level == Move(chosen, if r < 0.6 * ExplorationRate(version) then 1
                                    else if r < 0.85 * ExplorationRate(version) then 2
                                    else 3, d < 0.5)
  {
    var rate := ExplorationRate(version);
    var tier1 := rate * 0.6;
    var tier2 := tier1 + rate * 0.25;
    var tier3 := rate;
    if r < tier1 then
      (if d < 0.5 then Max(MinLevel, chosen - 1) else Min(MaxLevel, chosen + 1))
    else if r < tier2 then
      (if d < 0.5 then Max(MinLevel, chosen - 2) else Min(MaxLevel, chosen + 2))
    else if r < tier3 then
      (if d < 0.5 then Max(MinLevel, chosen - 3) else Min(MaxLevel, chosen + 3))
    else chosen
  }

  /** A move of `step` levels down or up, clamped to the level range. */
  function Move(chosen: int, step: int, down: bool): int {
    if down then Max(MinLevel, chosen - step) else Min(MaxLevel, chosen + step)
  }

  /** An explored level stays in range, within three of the chosen one, on the drawn side. */
  lemma ExploreBounds(chosen: int, version: int, r: real, d: real)
    requires MinLevel <= chosen <= MaxLevel
    ensures var level := ExploreAdjacentLevel(chosen, version, r, d);
            MinLevel <= level <= MaxLevel && chosen - 3 <= level <= chosen + 3 &&
            (d < 0.5 ==> level <= chosen) && (d >= 0.5 ==> level >= chosen)
  {
  }
}
