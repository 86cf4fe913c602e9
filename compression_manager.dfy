/**
 * The compression manager: the facade that turns a bucket/prefix (or an explicit settings
 * key) into a compression level, and records the outcome of each compressed batch.
 */
module CompressionManager {
  import opened Wrappers
  import opened Strings
  import opened CompressionOptimizer
  import opened CostBenefitCalculator
  import opened CompressionSettingsRepository

  const DefaultCompressionLevel: int := 12

  /** `get_bucket_prefix_key`: the bucket, '/', and the prefix with exactly one trailing '/'. */
  function BucketPrefixKey(bucket: string, prefix: string): (key: string)
    ensures StartsWith(key, bucket + "/") && EndsWith(key, "/")
    ensures prefix == "" ==> key == bucket + "/"
    ensures prefix != "" ==> key == bucket + "/" + RStrip(prefix, '/') + "/"
  {
    var normPrefix := if prefix != "" then RStrip(prefix, '/') + "/" else "";
    bucket + "/" + normPrefix
  }

  /** For a non-empty prefix, a trailing '/' makes no difference to the key. */
  lemma BucketPrefixKeyTrailingSlash(bucket: string, prefix: string)
    requires prefix != ""
    ensures BucketPrefixKey(bucket, prefix + "/") == BucketPrefixKey(bucket, prefix)
  {
    assert (prefix + "/")[..|prefix|] == prefix;
  }

  /** A prefix without a trailing '/' is kept whole: its key is 'bucket/prefix/'. */
  lemma UnslashedPrefixKey(bucket: string, prefix: string)
    requires prefix != "" && prefix[|prefix| - 1] != '/'
    ensures BucketPrefixKey(bucket, prefix) == bucket + "/" + prefix + "/"
  {
    assert |RStrip(prefix, '/')| == |prefix|;
  }

  /**
   * Within one bucket, prefixes written without a trailing '/' get distinct settings
   * records: the key determines the prefix.
   */
  lemma BucketPrefixKeyInjective(bucket: string, p: string, q: string)
    requires p == "" || p[|p| - 1] != '/'
    requires q == "" || q[|q| - 1] != '/'
    ensures BucketPrefixKey(bucket, p) == BucketPrefixKey(bucket, q) <==> p == q
  {
    if BucketPrefixKey(bucket, p) == BucketPrefixKey(bucket, q) {
      var k := BucketPrefixKey(bucket, p);
      var n := |bucket| + 1;
      if p != "" {
        UnslashedPrefixKey(bucket, p);
      }
      if q != "" {
        UnslashedPrefixKey(bucket, q);
      }
      if p != "" && q != "" {
        assert k[n..|k| - 1] == p;
        assert k[n..|k| - 1] == q;
      } else {
        assert |k| == n + (if p == "" then 0 else |p| + 1);
        assert |k| == n + (if q == "" then 0 else |q| + 1);
      }
    }
  }

  /** The documented examples of the key scheme. */
  lemma BucketPrefixKeyExamples()
    ensures BucketPrefixKey("test-bucket", "") == "test-bucket/"
    ensures BucketPrefixKey("test-bucket", "prefix") == "test-bucket/prefix/"
    ensures BucketPrefixKey("test-bucket", "prefix/") == "test-bucket/prefix/"
    ensures BucketPrefixKey("test-bucket", "nested/prefix") == "test-bucket/nested/prefix/"
  {
    PrefixExample();
    SlashedPrefixExample();
    NestedPrefixExample();
  }

  lemma PrefixExample()
    ensures BucketPrefixKey("test-bucket", "prefix") == "test-bucket/prefix/"
  {
    assert RStrip("prefix", '/') == "prefix";
  }

  lemma SlashedPrefixExample()
    ensures BucketPrefixKey("test-bucket", "prefix/") == "test-bucket/prefix/"
  {
    assert "prefix" + "/" == "prefix/";
    BucketPrefixKeyTrailingSlash("test-bucket", "prefix");
    PrefixExample();
  }

  lemma NestedPrefixExample()
    ensures BucketPrefixKey("test-bucket", "nested/prefix") == "test-bucket/nested/prefix/"
  {
    assert RStrip("nested/prefix", '/') == "nested/prefix";
  }

  /** `ddb_key_name if ddb_key_name else get_bucket_prefix_key(bucket, prefix)` */
  function SettingsKey(ddbKeyName: string, bucket: string, prefix: string): (key: string)
    ensures ddbKeyName != "" ==> key == ddbKeyName
    ensures ddbKeyName == "" ==> key == BucketPrefixKey(bucket, prefix)
  {
    if ddbKeyName != "" then ddbKeyName else BucketPrefixKey(bucket, prefix)
  }

  /** The fleet's average CPU factor: SumCpuFactor / Version, or 1.0 before any update. */
  function AverageCpuFactor(s: Settings): real {
    if s.version > 0 then s.sumCpuFactor / (s.version as real) else 1.0
  }

  /**
   * The level chosen for a record with statistics: the best level, CPU-adjusted, then
   * explored; None when choosing the best level divides by zero.
   */
  function ChooseLevel(s: Settings, cpuFactor: real, r: real, d: real): (level: Option<int>)
    ensures level.None? <==> !Divisible(s.levelStats)
    ensures level.Some? ==>
              BestLevel(s.levelStats, DefaultCompressionLevel).Some? &&
              level.value == ExploreAdjacentLevel(
                SelectLevelBasedOnCpu(BestLevel(s.levelStats, DefaultCompressionLevel).value, cpuFactor, AverageCpuFactor(s)),
                s.version, r, d)
  {
    BestLevelResult(s.levelStats, DefaultCompressionLevel);
    match BestLevel(s.levelStats, DefaultCompressionLevel)
    case None => None
    case Some(best) =>
      var chosen := SelectLevelBasedOnCpu(best, cpuFactor, AverageCpuFactor(s));
      Some(ExploreAdjacentLevel(chosen, s.version, r, d))
  }

  /** Every level the manager hands out is a valid zstd level. */
  lemma ChooseLevelInRange(s: Settings, cpuFactor: real, r: real, d: real)
    requires forall j :: 0 <= j < |s.levelStats| ==> MinLevel <= s.levelStats[j].0 <= MaxLevel
    requires ChooseLevel(s, cpuFactor, r, d).Some?
    ensures MinLevel <= ChooseLevel(s, cpuFactor, r, d).value <= MaxLevel
  {
    var stats := s.levelStats;
    BestLevelResult(stats, DefaultCompressionLevel);
    var best := BestLevel(stats, DefaultCompressionLevel).value;
    assert MinLevel <= best <= MaxLevel by {
      if !NonePositive(stats) {
        var w :| Winner(stats, w) && best == stats[w].0;
      }
    }
    var chosen := SelectLevelBasedOnCpu(best, cpuFactor, AverageCpuFactor(s));
    SelectLevelBounds(best, cpuFactor, AverageCpuFactor(s));
    ExploreBounds(chosen, s.version, r, d);
  }

  /** The outcomes a level lookup depends on: store faults, the clock, and the two random draws. */
  datatype LevelDraws = LevelDraws(getFault: bool, createFault: bool, now: int, r: real, d: real)

  /** No usable statistics for `key`: a store error, no record, or a record without level statistics. */
  predicate NoStatistics(table: map<string, RawItem>, key: string, getFault: bool, now: int) {
    getFault || key !in table || |Deserialize(key, table[key], now).levelStats| == 0
  }

  /** The level a lookup for `key` returns: the default without statistics, else the chosen level. */
  function LevelFor(table: map<string, RawItem>, key: string, getFault: bool, now: int,
                    cpuFactor: real, r: real, d: real): (level: Option<int>)
    ensures NoStatistics(table, key, getFault, now) ==> level == Some(DefaultCompressionLevel)
    ensures !NoStatistics(table, key, getFault, now) ==> level == ChooseLevel(Deserialize(key, table[key], now), cpuFactor, r, d)
  {
    if NoStatistics(table, key, getFault, now) then Some(DefaultCompressionLevel)
    else ChooseLevel(Deserialize(key, table[key], now), cpuFactor, r, d)
  }

  /** The table after a lookup: a fresh record only when the key had none and the create succeeds. */
  function TableAfterLookup(table: map<string, RawItem>, key: string, getFault: bool, createFault: bool, now: int)
    : (after: map<string, RawItem>)
    ensures after.Keys == table.Keys + (if NoStatistics(table, key, getFault, now) && !createFault then {key} else {})
    ensures forall k :: k in table ==> after[k] == table[k]
    ensures key in after && key !in table ==> after[key] == InitialItem(now)
  {
    if NoStatistics(table, key, getFault, now) && !createFault && key !in table then table[key := InitialItem(now)]
    else table
  }

  /** With stored levels in range, a lookup always yields a valid zstd level, or None. */
  lemma LevelForInRange(table: map<string, RawItem>, key: string, getFault: bool, now: int,
                        cpuFactor: real, r: real, d: real)
    requires key in table ==> forall j :: 0 <= j < |table[key].levelStats.GetOr([])| ==>
               MinLevel <= table[key].levelStats.GetOr([])[j].0 <= MaxLevel
    requires LevelFor(table, key, getFault, now, cpuFactor, r, d).Some?
    ensures MinLevel <= LevelFor(table, key, getFault, now, cpuFactor, r, d).value <= MaxLevel
  {
    if !NoStatistics(table, key, getFault, now) {
      ChooseLevelInRange(Deserialize(key, table[key], now), cpuFactor, r, d);
    }
  }

  /** The manager; its repository is the settings table it reads and writes. */
  class Manager {
    var repository: SettingsRepository
    const calculator: Calculator
    const cpuFactor: real

    /** `__init__`: a fresh repository handle and a calculator built from the environment. */
    constructor (repo: SettingsRepository, transferEnv: Option<real>, computeEnv: Option<real>, cpu: real)
      ensures repository == repo && cpuFactor == cpu
      ensures calculator == NewCalculator(transferEnv, computeEnv, cpu)
    {
      repository := repo;
      calculator := NewCalculator(transferEnv, computeEnv, cpu);
      cpuFactor := cpu;
    }

    /**
     * `get_compression_level`. Without a record (or a store error), or with empty level
     * statistics, it asks the store to create the record and returns the default level;
     * otherwise it returns the chosen level and leaves the table as it was.
     */
    method GetCompressionLevel(bucket: string, prefix: string, ddbKeyName: string,
                               getFault: bool, createFault: bool, now: int, r: real, d: real)
      returns (level: Option<int>)
      requires repository.Valid()
      modifies repository
      ensures repository.Valid()
      ensures var key := SettingsKey(ddbKeyName, bucket, prefix);
              level == LevelFor(old(repository.table), key, getFault, now, cpuFactor, r, d) &&
              repository.table == TableAfterLookup(old(repository.table), key, getFault, createFault, now)
    {
      var key := SettingsKey(ddbKeyName, bucket, prefix);
      var settings := repository.GetSettings(key, getFault, now);
      if settings.None? || |settings.value.levelStats| == 0 {
        var _ := repository.CreateSettings(key, DefaultCompressionLevel, createFault, now);
        return Some(DefaultCompressionLevel);
      }
      var s := settings.value;
      var avgCpuFactor := if s.version > 0 then s.sumCpuFactor / (s.version as real) else 1.0;
      var best := GetBestLevel(s.levelStats, DefaultCompressionLevel);
      if best.None? {
        return None;
      }
      var chosen := SelectLevelBasedOnCpu(best.value, cpuFactor, avgCpuFactor);
      level := Some(ExploreAdjacentLevel(chosen, s.version, r, d));
    }

    /**
     * `update_compression_metrics`: the time used is processing_time when given, else
     * compression_time; with neither it returns false without touching the store.
     * Otherwise it returns the store's update result for the calculator's benefit score.
     */
    method UpdateCompressionMetrics(bucket: string, prefix: string, level: int, originalSize: int, compressedSize: int,
                                    compressionTime: Option<real>, processingTime: Option<real>, numRegions: int,
                                    ddbKeyName: string, fileCount: int, fault: bool, now: int)
      returns (ok: bool)
      requires repository.Valid()
      modifies repository
      ensures repository.Valid()
      ensures compressionTime.None? && processingTime.None? ==> !ok && repository.table == old(repository.table)
      ensures compressionTime.Some? || processingTime.Some? ==>
                var key := SettingsKey(ddbKeyName, bucket, prefix);
                var t := if processingTime.Some? then processingTime.value else compressionTime.value;
                var benefit := CalculateMetrics(calculator, level, originalSize, compressedSize, t, numRegions, fileCount).benefitScore;
                (ok <==> !fault && key in old(repository.table) && old(repository.table)[key].levelStats.Some?) &&
                repository.table == (if ok then old(repository.table)[key := ApplyUpdate(old(repository.table)[key], level, benefit, cpuFactor, fileCount, now).value]
                                     else old(repository.table))
    {
      var key := SettingsKey(ddbKeyName, bucket, prefix);
      var timeForCostBenefit := if processingTime.Some? then processingTime else compressionTime;
      if timeForCostBenefit.None? {
        return false;
      }
      var metrics := CalculateMetrics(calculator, level, originalSize, compressedSize, timeForCostBenefit.value, numRegions, fileCount);
      ok := repository.UpdateMetrics(key, level, metrics.benefitScore, cpuFactor, fileCount, fault, now);
    }
  }

  /** The class-level `_instance` slot of the singleton. */
  class ManagerRegistry {
    var instance: Option<Manager>

    constructor ()
      ensures instance.None?
    {
      instance := None;
    }

    /** `initialize`: always replaces the instance with a new manager. */
    method Initialize(repo: SettingsRepository, transferEnv: Option<real>, computeEnv: Option<real>, cpu: real)
      returns (m: Manager)
      modifies this
      ensures fresh(m) && instance == Some(m)
      ensures m.repository == repo && m.cpuFactor == cpu
    {
      m := new Manager(repo, transferEnv, computeEnv, cpu);
      instance := Some(m);
    }

    /** `get_instance`: the existing manager, or a new one with CPU factor 1.0. */
    method GetInstance(repo: SettingsRepository, transferEnv: Option<real>, computeEnv: Option<real>)
      returns (m: Manager)
      modifies this
      ensures old(instance).Some? ==> m == old(instance).value && instance == old(instance)
      ensures old(instance).None? ==> fresh(m) && instance == Some(m) && m.cpuFactor == 1.0 && m.repository == repo
    {
      if instance.Some? {
        return instance.value;
      }
      m := new Manager(repo, transferEnv, computeEnv, 1.0);
      instance := Some(m);
    }
  }
}
