/**
 * The compression-settings table: one record per bucket/prefix key holding the running
 * totals (Version, TotalProcessedFiles, SumCpuFactor) and per-level statistics
 * (trials, objects, sum_benefit). The DynamoDB table is an in-memory map owned by the
 * repository; a store error is the `fault` argument of each call.
 */
module CompressionSettingsRepository {
  import opened Wrappers
  import opened CompressionOptimizer

  /**
   * A stored record as DynamoDB holds it: top-level numbers may be missing, and so may a
   * level's `objects` field. Level keys are `str(level)`; the model keeps the integer.
   */
  datatype RawItem = RawItem(
    sumCpuFactor: Option<real>,
    totalProcessedFiles: Option<int>,
    version: Option<int>,
    lastUpdated: Option<int>,
    levelStats: Option<LevelTable>)

  /** A record as `get_settings` returns it. */
  datatype Settings = Settings(
    key: string,
    sumCpuFactor: real,
    totalProcessedFiles: int,
    version: int,
    lastUpdated: int,
    levelStats: LevelTable)

  /** The record `create_settings` writes: zero totals and no level statistics. */
  function InitialItem(now: int): RawItem {
    RawItem(Some(0.0), Some(0), Some(0), Some(now), Some([]))
  }

  /** Position of `level` among the entries, or -1. */
  function IndexOfLevel(stats: LevelTable, level: int): (i: int)
    ensures -1 <= i < |stats|
    ensures i >= 0 ==> stats[i].0 == level
    ensures i < 0 ==> forall j :: 0 <= j < |stats| ==> stats[j].0 != level
  {
    if |stats| == 0 then -1
    else if stats[|stats| - 1].0 == level then |stats| - 1
    else IndexOfLevel(stats[..|stats| - 1], level)
  }

  /** DynamoDB's ADD on a number attribute: a missing attribute counts as 0. */
  function AddInt(a: Option<int>, x: int): Option<int> { Some(a.GetOr(0) + x) }
  function AddReal(a: Option<real>, x: real): Option<real> { Some(a.GetOr(0.0) + x) }

  /**
   * The item after `update_metrics`' update expression, or None when DynamoDB rejects it:
   * a SET on `LevelStats.<level>` fails when the record has no LevelStats map.
   */
  function ApplyUpdate(item: RawItem, level: int, benefit: real, cpuFactor: real, fileCount: int, now: int): (r: Option<RawItem>)
    ensures r.None? <==> item.levelStats.None?
    ensures r.Some? ==>
              r.value.version == AddInt(item.version, 1) &&
              r.value.totalProcessedFiles == AddInt(item.totalProcessedFiles, fileCount) &&
              r.value.sumCpuFactor == AddReal(item.sumCpuFactor, cpuFactor) &&
              r.value.lastUpdated == Some(now) && r.value.levelStats.Some?
  {
    match item.levelStats
    case None => None
    case Some(stats) =>
      var i := IndexOfLevel(stats, level);
      var newStats :=
        if i >= 0 then
          var st := stats[i].1;
          stats[i := (level, LevelStat(st.trials + 1, AddInt(st.objects, fileCount), st.sumBenefit + benefit))]
        else
          stats + [(level, LevelStat(1, Some(fileCount), benefit))];
      Some(RawItem(AddReal(item.sumCpuFactor, cpuFactor), AddInt(item.totalProcessedFiles, fileCount),
                   AddInt(item.version, 1), Some(now), Some(newStats)))
  }

  /** `_deserialize_item`: missing numbers become 0 (LastUpdated: now), missing objects become trials. */
  function Deserialize(key: string, item: RawItem, now: int): (s: Settings)
    ensures s.key == key
    ensures s.version == item.version.GetOr(0) && s.totalProcessedFiles == item.totalProcessedFiles.GetOr(0)
    ensures s.sumCpuFactor == item.sumCpuFactor.GetOr(0.0) && s.lastUpdated == item.lastUpdated.GetOr(now)
    ensures |s.levelStats| == |item.levelStats.GetOr([])|
    ensures forall j :: 0 <= j < |s.levelStats| ==>
              var raw := item.levelStats.value[j];
              s.levelStats[j] == (raw.0, LevelStat(raw.1.trials, Some(raw.1.objects.GetOr(raw.1.trials)), raw.1.sumBenefit))
  {
    Settings(key, item.sumCpuFactor.GetOr(0.0), item.totalProcessedFiles.GetOr(0), item.version.GetOr(0),
             item.lastUpdated.GetOr(now), FillObjects(item.levelStats.GetOr([])))
  }

  function FillObjects(stats: LevelTable): (r: LevelTable)
    ensures |r| == |stats|
    ensures forall j :: 0 <= j < |stats| ==>
              r[j] == (stats[j].0, LevelStat(stats[j].1.trials, Some(stats[j].1.objects.GetOr(stats[j].1.trials)), stats[j].1.sumBenefit))
  {
    if |stats| == 0 then []
    else
      var e := stats[|stats| - 1];
      FillObjects(stats[..|stats| - 1]) + [(e.0, LevelStat(e.1.trials, Some(e.1.objects.GetOr(e.1.trials)), e.1.sumBenefit))]
  }

  function SumTrials(stats: LevelTable): int {
    if |stats| == 0 then 0 else SumTrials(stats[..|stats| - 1]) + stats[|stats| - 1].1.trials
  }

  function SumObjects(stats: LevelTable): int {
    if |stats| == 0 then 0 else SumObjects(stats[..|stats| - 1]) + stats[|stats| - 1].1.objects.GetOr(0)
  }

  predicate DistinctLevels(stats: LevelTable) {
    forall i, j :: 0 <= i < j < |stats| ==> stats[i].0 != stats[j].0
  }

  /**
   * The bookkeeping invariant of a record: Version counts the trials of all levels and
   * TotalProcessedFiles counts their objects.
   */
  predicate Consistent(item: RawItem) {
    item.levelStats.Some? && DistinctLevels(item.levelStats.value) &&
    (forall j :: 0 <= j < |item.levelStats.value| ==> item.levelStats.value[j].1.objects.Some?) &&
    item.version == Some(SumTrials(item.levelStats.value)) &&
    item.totalProcessedFiles == Some(SumObjects(item.levelStats.value))
  }

  lemma InitialConsistent(now: int)
    ensures Consistent(InitialItem(now))
  {
  }

  lemma {:induction false} SumsAppend(stats: LevelTable, e: (int, LevelStat))
    ensures SumTrials(stats + [e]) == SumTrials(stats) + e.1.trials
    ensures SumObjects(stats + [e]) == SumObjects(stats) + e.1.objects.GetOr(0)
  {
    assert (stats + [e])[..|stats|] == stats;
  }

  lemma {:induction false} SumsReplace(stats: LevelTable, i: int, e: (int, LevelStat))
    requires 0 <= i < |stats|
    ensures SumTrials(stats[i := e]) == SumTrials(stats) - stats[i].1.trials + e.1.trials
    ensures SumObjects(stats[i := e]) == SumObjects(stats) - stats[i].1.objects.GetOr(0) + e.1.objects.GetOr(0)
    decreases |stats|
  {
    var n := |stats|;
    var t := stats[i := e];
    if i == n - 1 {
      assert t[..n - 1] == stats[..n - 1];
    } else {
      assert t[..n - 1] == stats[..n - 1][i := e];
      SumsReplace(stats[..n - 1], i, e);
    }
  }

  /** Every successful update of a consistent record yields a consistent record. */
  lemma UpdatePreservesConsistency(item: RawItem, level: int, benefit: real, cpuFactor: real, fileCount: int, now: int)
    requires Consistent(item)
    ensures ApplyUpdate(item, level, benefit, cpuFactor, fileCount, now).Some?
    ensures Consistent(ApplyUpdate(item, level, benefit, cpuFactor, fileCount, now).value)
  {
    var stats := item.levelStats.value;
    var i := IndexOfLevel(stats, level);
    var after := ApplyUpdate(item, level, benefit, cpuFactor, fileCount, now).value;
    var newStats := after.levelStats.value;
    if i >= 0 {
      var st := stats[i].1;
      var e := (level, LevelStat(st.trials + 1, AddInt(st.objects, fileCount), st.sumBenefit + benefit));
      assert newStats == stats[i := e];
      SumsReplace(stats, i, e);
      assert forall k :: 0 <= k < |newStats| ==> newStats[k].0 == stats[k].0;
    } else {
      var e := (level, LevelStat(1, Some(fileCount), benefit));
      assert newStats == stats + [e];
      SumsAppend(stats, e);
      assert forall k :: 0 <= k < |stats| ==> newStats[k] == stats[k];
    }
  }

  /** An update touches only the updated level's entry and keeps the entries' order. */
  lemma UpdateTouchesOneLevel(item: RawItem, level: int, benefit: real, cpuFactor: real, fileCount: int, now: int)
    requires item.levelStats.Some?
    ensures var after := ApplyUpdate(item, level, benefit, cpuFactor, fileCount, now).value.levelStats.value;
            var before := item.levelStats.value;
            |before| <= |after| <= |before| + 1 &&
            (forall j :: 0 <= j < |before| && before[j].0 != level ==> after[j] == before[j]) &&
            (exists j :: 0 <= j < |after| && after[j].0 == level)
  {
    var before := item.levelStats.value;
    var i := IndexOfLevel(before, level);
    var after := ApplyUpdate(item, level, benefit, cpuFactor, fileCount, now).value.levelStats.value;
    if i >= 0 {
      assert after[i].0 == level;
    } else {
      assert after[|before|].0 == level;
    }
  }

  /** The level entry after an update: trials +1, objects +file_count, sum_benefit +benefit. */
  lemma UpdatedLevelEntry(item: RawItem, level: int, benefit: real, cpuFactor: real, fileCount: int, now: int)
    requires item.levelStats.Some? && DistinctLevels(item.levelStats.value)
    ensures var after := ApplyUpdate(item, level, benefit, cpuFactor, fileCount, now).value.levelStats.value;
            var before := item.levelStats.value;
            DistinctLevels(after) &&
            forall j :: 0 <= j < |after| && after[j].0 == level ==>
              if exists k :: 0 <= k < |before| && before[k].0 == level then
                j < |before| && before[j].0 == level &&
                after[j].1 == LevelStat(before[j].1.trials + 1, Some(before[j].1.objects.GetOr(0) + fileCount),
                                        before[j].1.sumBenefit + benefit)
              else
                after[j].1 == LevelStat(1, Some(fileCount), benefit)
  {
  }

  /** The settings table, owning its records by key. */
  class SettingsRepository {
    var table: map<string, RawItem>

    constructor ()
      ensures table == map[]
    {
      table := map[];
    }

    /** Every stored record keeps the bookkeeping invariant. */
    predicate Valid()
      reads this
    {
      forall k :: k in table ==> Consistent(table[k])
    }

    /** `get_settings`: the deserialised record, or None when absent or on a store error. */
    method GetSettings(key: string, fault: bool, now: int) returns (s: Option<Settings>)
      ensures s.None? <==> fault || key !in table
      ensures s.Some? ==> s.value == Deserialize(key, table[key], now)
    {
      if fault || key !in table {
        return None;
      }
      s := Some(Deserialize(key, table[key], now));
    }

    /**
     * `create_settings`: a conditional put of the initial record. It succeeds only when the
     * key is absent; `defaultLevel` is not stored.
     */
    method CreateSettings(key: string, defaultLevel: int, fault: bool, now: int) returns (ok: bool)
      requires Valid()
      modifies this
      ensures Valid()
      ensures ok <==> !fault && key !in old(table)
      ensures table == if ok then old(table)[key := InitialItem(now)] else old(table)
    {
      if fault || key in table {
        return false;
      }
      InitialConsistent(now);
      table := table[key := InitialItem(now)];
      ok := true;
    }

    /**
     * `update_metrics`: ADD 1 to Version, file_count to TotalProcessedFiles and cpu_factor to
     * SumCpuFactor, then add to the level's entry or create it. False, with nothing changed,
     * on a store error or when DynamoDB rejects the update (no record, no LevelStats).
     */
    method UpdateMetrics(key: string, level: int, benefit: real, cpuFactor: real, fileCount: int, fault: bool, now: int)
      returns (ok: bool)
      requires Valid()
      modifies this
      ensures Valid()
      ensures ok <==> !fault && key in old(table) && old(table)[key].levelStats.Some?
      ensures table == if ok then old(table)[key := ApplyUpdate(old(table)[key], level, benefit, cpuFactor, fileCount, now).value]
                       else old(table)
    {
      if fault || key !in table {
        return false;
      }
      var updated := ApplyUpdate(table[key], level, benefit, cpuFactor, fileCount, now);
      if updated.None? {
        return false;
      }
      UpdatePreservesConsistency(table[key], level, benefit, cpuFactor, fileCount, now);
      table := table[key := updated.value];
      ok := true;
    }
  }
}
